// The command-line search (tools/sppu_search.c): a sort-and-replace buffer of 2 K results.
module SearchCli {
  import opened Words
  import opened DotProduct
  import opened TopK
  import Heap
  import opened Database
  import opened EmuDevice
  import opened Sdk

  function NormalTopK(topK: U32): (k: nat)
    ensures 1 <= k <= 100
  {
    if topK == 0 || topK > 100 then 5 else topK
  }

  // The C library's qsort with cmp_desc. Callers know only that the entries are permuted
  // into non-increasing order; the order of equal scores is left open.
  method Qsort(a: array<Entry>, n: nat)
    requires n <= a.Length
    modifies a
    ensures Descending(a[..n]) && multiset(a[..n]) == multiset(old(a[..n]))
  {
    if n > 0 {
      Heap.Heapify(a, n);
      ghost var h := a[..];
      Heap.SortDescending(a, n);
      Heap.SamePart(old(a[..]), h, n);
      Heap.HeapSortedSorts(h, n);
    }
  }

  // g_results, g_result_cap (the length) and g_result_count
  class ResultBuffer {
    const results: array<Entry>
    var count: nat

    ghost predicate Holds(all: seq<Entry>)
      reads this, results
    {
      && count <= results.Length && 0 < results.Length
      && exists lost :: Keeps(results[..count], lost, all, results.Length)
    }

    // results_init
    constructor (cap: nat)
      requires cap > 0
      ensures fresh(results) && results.Length == cap && Holds([])
    {
      results := new Entry[cap];
      count := 0;
      new;
      assert Keeps(results[..0], [], [], cap);
    }

    // add_result: a full buffer is sorted, and a better score replaces its last entry.
    method AddResult(e: Entry, ghost all: seq<Entry>)
      requires Holds(all)
      modifies this, results
      ensures Holds(all + [e])
    {
      if count < results.Length {
        ghost var lost :| Keeps(results[..count], lost, all, results.Length);
        KeepsGrown(results[..count], lost, all, results.Length, e);
        results[count] := e;
        count := count + 1;
        assert results[..count] == old(results[..count]) + [e];
      } else {
        SortAndReplace(e, all);
      }
    }

    // The full buffer
    method SortAndReplace(e: Entry, ghost all: seq<Entry>)
      requires Holds(all) && count == results.Length
      modifies results
      ensures Holds(all + [e])
    {
      ghost var lost :| Keeps(results[..count], lost, all, count);
      Qsort(results, count);
      ghost var sorted := results[..count];
      KeepsPermuted(old(results[..count]), sorted, lost, all, count);
      lost := LastReplaced(sorted, lost, all, e);
      if e.score > results[count - 1].score {
        results[count - 1] := e;
      }
      assert results[..count] == WithLast(sorted, e);
    }

    // print_results: the rows printed
    method PrintResults(topK: nat, ghost all: seq<Entry>) returns (printed: seq<Entry>)
      requires Holds(all) && topK <= results.Length
      modifies results
      ensures IsTopK(printed, all, topK)
    {
      ghost var lost :| Keeps(results[..count], lost, all, results.Length);
      Qsort(results, count);
      KeepsPermuted(old(results[..count]), results[..count], lost, all, results.Length);
      var shown := Min(topK, count);
      TopKPrefix(results[..count], all, results.Length, topK, shown);
      assert results[..count][..shown] == results[..shown];
      return results[..shown];
    }
  }

  // A sorted full buffer makes room for a better entry at its end.
  function WithLast(sorted: seq<Entry>, e: Entry): seq<Entry>
    requires sorted != []
  {
    var last := |sorted| - 1;
    if e.score > sorted[last].score then sorted[last := e] else sorted
  }

  lemma LastReplaced(sorted: seq<Entry>, lost: seq<Entry>, all: seq<Entry>, e: Entry)
    returns (lost': seq<Entry>)
    requires Descending(sorted) && Keeps(sorted, lost, all, |sorted|) && sorted != []
    ensures Keeps(WithLast(sorted, e), lost', all + [e], |sorted|)
  {
    var last := |sorted| - 1;
    LastIsLeast(sorted);
    if e.score > sorted[last].score {
      KeepsReplaced(sorted, lost, all, |sorted|, last, e);
      lost' := lost + [sorted[last]];
    } else {
      KeepsRefused(sorted, lost, all, |sorted|, e);
      lost' := lost + [e];
    }
  }

  lemma LastIsLeast(s: seq<Entry>)
    requires Descending(s) && s != []
    ensures forall a :: a in s ==> a.score >= s[|s| - 1].score
  {
  }

  // What the first b batches need and leave: one call a row and six a batch.
  ghost predicate Collected(handle: Handle, db: Db, query: seq<real>, buffer: ResultBuffer, b: nat, start: nat,
                            calls: nat, all: seq<Entry>)
    requires handle.dev.Valid() && db.Valid() && |query| == db.dim
    reads handle, handle.dev
  {
    && b <= Batches(db) && start == StartOf(db, b) && all == Winners(db, query, Always(), b)
    && handle.callsLeft + start + 6 * b == calls
  }

  // The body of main's batch loop, for batch b, and where the next one starts
  method SearchAndAdd(handle: Handle, db: Db, query: seq<real>, buffer: ResultBuffer, start: nat,
                      ghost b: nat, ghost calls: nat, ghost all: seq<Entry>)
    returns (ok: bool, next: nat, ghost all': seq<Entry>)
    requires handle.dev.Valid() && db.Valid() && |query| == db.dim && start < db.count
    requires Collected(handle, db, query, buffer, b, start, calls, all) && buffer.Holds(all)
    modifies handle, handle.dev, handle.dev.mem, handle.dev.target, buffer, buffer.results
    ensures handle.dev.Valid()
    ensures ok ==> start < next <= db.count && buffer.Holds(all')
    ensures ok ==> Collected(handle, db, query, buffer, b + 1, next, calls, all')
    ensures !ok ==> calls < db.count + 6 * Batches(db)
  {
    BatchesPartition(db, b);
    next, all' := start + BatchSize(db, start), all;
    var found := handle.SearchBatch(db, start, BatchSize(db, start), query);
    ok := found.Some?;
    if ok {
      all' := all + [found.value];
      buffer.AddResult(found.value, all);
    }
  }

  // The batch loop of main: false once a batch fails.
  method CollectWinners(handle: Handle, db: Db, query: seq<real>, buffer: ResultBuffer) returns (ok: bool)
    requires handle.dev.Valid() && db.Valid() && |query| == db.dim
    requires buffer.Holds([])
    modifies handle, handle.dev, handle.dev.mem, handle.dev.target, buffer, buffer.results
    ensures handle.dev.Valid()
    ensures ok == (old(handle.callsLeft) >= db.count + 6 * Batches(db))
    ensures ok ==> buffer.Holds(AllWinners(db, query))
  {
    var batchStart := 0;
    ghost var b, all := 0, [];
    while batchStart < db.count
      invariant handle.dev.Valid() && batchStart <= db.count && buffer.Holds(all)
      invariant Collected(handle, db, query, buffer, b, batchStart, old(handle.callsLeft), all)
      decreases db.count - batchStart
    {
      ok, batchStart, all := SearchAndAdd(handle, db, query, buffer, batchStart, b, old(handle.callsLeft), all);
      if !ok {
        return;
      }
      b := b + 1;
    }
    BatchesPartition(db, b);
    ok := true;
  }

  // Search mode of main, after loading: None is exit status 1.
  method Search(dev: Device, db: Db, query: seq<real>, topK: U32, calls: nat) returns (r: Option<seq<Entry>>)
    requires dev.Valid() && db.Valid()
    modifies dev, dev.mem, dev.target
    ensures dev.Valid()
    ensures r.Some? <==> |query| == db.dim && calls >= 1 + db.count + 6 * ((db.count + 24) / 25)
    ensures r.Some? ==> IsTopK(r.value, AllWinners(db, query), if 1 <= topK <= 100 then topK else 5)
  {
    var k := NormalTopK(topK);
    if |query| != db.dim || calls == 0 {
      return None;
    }
    var handle := new Handle(dev, calls - 1);
    var buffer := new ResultBuffer(2 * k);
    var ok := CollectWinners(handle, db, query, buffer);
    if !ok {
      return None;
    }
    var printed := buffer.PrintResults(k, AllWinners(db, query));
    return Some(printed);
  }
}
