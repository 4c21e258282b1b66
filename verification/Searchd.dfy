// The daemon's search request (examples/semantic_search/sppu_searchd.c), from the parsed
// query vector to the ordered results.
module Searchd {
  import opened Words
  import opened DotProduct
  import opened TopK
  import opened Heap
  import opened Database
  import opened EmuDevice
  import opened Sdk

  const MAX_TOP_K: int := 100

  // HTTP 400, 503, 400 and 200.
  datatype Reply = InvalidVector | NoDatabase | DimensionMismatch | Results(entries: seq<Entry>)

  function ClampTopK(topK: int): (k: nat)
    ensures 1 <= k <= MAX_TOP_K
  {
    if topK < 1 then 1 else if topK > MAX_TOP_K then MAX_TOP_K else topK
  }

  // The batch at start needs sppu_open, reset, configure, n loads, target, start, status, result.
  ghost function Answering(db: Db, calls: nat -> nat): nat -> bool {
    (start: nat) => start < db.count && calls(start) >= BatchSize(db, start) + 7
  }

  // The body of do_search's batch loop, for batch b, and where the next one starts
  method SearchAndOffer(dev: Device, db: Db, query: seq<real>, calls: nat -> nat, heap: array<Entry>, n: nat,
                        ghost b: nat, start: nat)
    returns (n': nat, next: nat)
    requires dev.Valid() && db.Valid() && |query| == db.dim && heap.Length > 0
    requires b < Batches(db) && start == StartOf(db, b) < db.count
    requires HoldsTopK(heap[..], n, Winners(db, query, Answering(db, calls), b))
    modifies dev, dev.mem, dev.target, heap
    ensures dev.Valid() && next == StartOf(db, b + 1) && start < next
    ensures HoldsTopK(heap[..], n', Winners(db, query, Answering(db, calls), b + 1))
  {
    BatchesPartition(db, b);
    n', next := n, start + BatchSize(db, start);
    ghost var h := heap[..];
    var found := OpenAndSearch(dev, db, start, BatchSize(db, start), query, calls(start));
    assert heap[..] == h;
    if found.Some? {
      OfferedHolds(h, n, found.value, Winners(db, query, Answering(db, calls), b));
      n' := Offer(heap, n, found.value);
    }
  }

  // The batch loop of do_search
  method CollectWinners(dev: Device, db: Db, query: seq<real>, calls: nat -> nat, heap: array<Entry>)
    returns (heapN: nat)
    requires dev.Valid() && db.Valid() && |query| == db.dim && heap.Length > 0
    modifies dev, dev.mem, dev.target, heap
    ensures dev.Valid()
    ensures HoldsTopK(heap[..], heapN, Winners(db, query, Answering(db, calls), Batches(db)))
  {
    heapN := 0;
    EmptyHolds(heap[..]);
    var batchStart := 0;
    ghost var b := 0;
    while batchStart < db.count
      invariant b <= Batches(db) && batchStart == StartOf(db, b) && dev.Valid()
      invariant HoldsTopK(heap[..], heapN, Winners(db, query, Answering(db, calls), b))
      decreases db.count - batchStart
    {
      BatchesPartition(db, b);
      heapN, batchStart := SearchAndOffer(dev, db, query, calls, heap, heapN, b, batchStart);
      b := b + 1;
    }
    BatchesPartition(db, b);
  }

  // do_search. calls says how many system calls of the batch at each start go through; a
  // batch with a failing call is skipped.
  method DoSearch(dev: Device, db: Db, query: seq<real>, topK: int, calls: nat -> nat) returns (r: Reply)
    requires dev.Valid() && (db.count == 0 || db.Valid())
    modifies dev, dev.mem, dev.target
    ensures dev.Valid()
    ensures r == InvalidVector <==> query == []
    ensures r == NoDatabase <==> query != [] && db.count == 0
    ensures r == DimensionMismatch <==> query != [] && db.count != 0 && |query| != db.dim
    ensures r.Results? ==> db.Valid() && |query| == db.dim
    ensures r.Results? ==>
      IsTopK(r.entries, Winners(db, query, Answering(db, calls), Batches(db)),
             if topK <= 1 then 1 else if topK >= 100 then 100 else topK)
  {
    if query == [] {
      return InvalidVector;
    }
    var k := ClampTopK(topK);
    if db.count == 0 {
      return NoDatabase;
    }
    if |query| != db.dim {
      return DimensionMismatch;
    }
    var heap := new Entry[k];
    var heapN := CollectWinners(dev, db, query, calls, heap);
    ghost var h := heap[..];
    SortDescending(heap, heapN);
    HeapSortedSorts(h, heapN);
    SortedIsTopK(h, heap[..], heapN, Winners(db, query, Answering(db, calls), Batches(db)));
    return Results(heap[..heapN]);
  }

  // sppu_search_batch of the daemon: open the device, then run the batch.
  method OpenAndSearch(dev: Device, db: Db, offset: nat, n: nat, query: seq<real>, calls: nat)
    returns (r: Option<Entry>)
    requires dev.Valid() && db.Valid() && |query| == db.dim
    requires 0 < n <= MAX_VECTORS && offset + n <= db.count
    modifies dev, dev.mem, dev.target
    ensures dev.Valid()
    ensures r == if calls >= n + 7 then Some(BatchWinner(db, query, offset, n)) else None
  {
    if calls == 0 {
      return None;
    }
    var handle := new Handle(dev, calls - 1);
    r := handle.SearchBatch(db, offset, n, query);
  }

  lemma SortedIsTopK(h: seq<Entry>, h': seq<Entry>, n: nat, all: seq<Entry>)
    requires HoldsTopK(h, n, all) && |h'| == |h|
    requires Descending(h'[..n]) && multiset(h'[..n]) == multiset(h[..n])
    ensures IsTopK(h'[..n], all, |h|)
  {
    var lost :| Keeps(h[..n], lost, all, |h|);
    KeepsPermuted(h[..n], h'[..n], lost, all, |h|);
  }
}
