// The in-memory vector database both search programs hold: row-major data.
module Database {
  import opened Words
  import opened DotProduct
  import opened TopK

  // The device takes this many rows at a time.
  const BATCH: nat := MAX_VECTORS

  datatype Db = Db(count: U32, dim: U32, data: seq<real>) {
    // What both loaders establish.
    ghost predicate Valid() {
      0 < count && 0 < dim <= MAX_DIMENSION && |data| == count * dim
    }

    lemma RowInside(i: nat)
      requires Valid() && i < count
      ensures 0 <= i * dim <= (i + 1) * dim <= |data|
      ensures (i + 1) * dim == i * dim + dim
    {
      assert (i + 1) * dim <= count * dim;
    }

    function Row(i: nat): (r: seq<real>)
      requires Valid() && i < count
      ensures |r| == dim
    {
      RowInside(i);
      data[i * dim..i * dim + dim]
    }
  }

  function Score(db: Db, query: seq<real>, i: nat): real
    requires db.Valid() && |query| == db.dim && i < db.count
  {
    Dot(db.Row(i), query)
  }

  function BatchScores(db: Db, query: seq<real>, offset: nat, n: nat): (s: seq<real>)
    requires db.Valid() && |query| == db.dim && offset + n <= db.count
    ensures |s| == n && forall i :: 0 <= i < n ==> s[i] == Score(db, query, offset + i)
  {
    seq(n, i requires 0 <= i < n => Score(db, query, offset + i))
  }

  // The slice-local outcome as a global result, in 32-bit arithmetic.
  function Shifted(b: Best, offset: nat): Entry {
    Entry(ToU32(offset + ToU32(b.index)), b.score)
  }

  // What one successful batch reports: the slice's first maximum, at its global index.
  function BatchWinner(db: Db, query: seq<real>, offset: nat, n: nat): Entry
    requires db.Valid() && |query| == db.dim && offset + n <= db.count
  {
    Shifted(FirstMax(BatchScores(db, query, offset, n)), offset)
  }

  // The batch loop takes rows [25 b, 25 b + 25) in turn, the last batch what is left.
  function Batches(db: Db): nat {
    (db.count + BATCH - 1) / BATCH
  }

  lemma BatchesCover(db: Db, b: nat)
    ensures b < Batches(db) <==> BATCH * b < db.count
  {
  }

  function BatchSize(db: Db, start: nat): (n: nat)
    requires start < db.count
    ensures 0 < n <= BATCH && start + n <= db.count
  {
    Min(db.count - start, BATCH)
  }

  // Where the loop is after b batches.
  function StartOf(db: Db, b: nat): nat {
    Min(BATCH * b, db.count)
  }

  // The batches are adjacent, and together take every row.
  lemma BatchesPartition(db: Db, b: nat)
    requires b <= Batches(db)
    ensures b < Batches(db) <==> StartOf(db, b) < db.count
    ensures b < Batches(db) ==>
      StartOf(db, b) == BATCH * b && StartOf(db, b + 1) == StartOf(db, b) + BatchSize(db, StartOf(db, b))
  {
    BatchesCover(db, b);
  }

  // One winner for each of the first b batches that answers.
  ghost function Winners(db: Db, query: seq<real>, answers: nat -> bool, b: nat): seq<Entry>
    requires db.Valid() && |query| == db.dim && b <= Batches(db)
  {
    if b == 0 then []
    else
      var start := BATCH * (b - 1);
      var before := Winners(db, query, answers, b - 1);
      if answers(start) then before + [BatchWinner(db, query, start, BatchSize(db, start))] else before
  }

  ghost function Always(): nat -> bool {
    (start: nat) => true
  }

  // The winners of the whole database when every batch answers.
  ghost function AllWinners(db: Db, query: seq<real>): seq<Entry>
    requires db.Valid() && |query| == db.dim
  {
    Winners(db, query, Always(), Batches(db))
  }
}
