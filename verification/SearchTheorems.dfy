// What the two search programs' answers mean for the database.
module SearchTheorems {
  import opened Words
  import opened DotProduct
  import opened TopK
  import opened Database
  import Searchd
  import SearchCli

  // The rows of the database with their scores.
  function Rows(db: Db, query: seq<real>): (s: seq<Entry>)
    requires db.Valid() && |query| == db.dim
    ensures |s| == db.count
    ensures forall i :: 0 <= i < db.count ==> s[i] == Entry(i, Score(db, query, i))
  {
    seq(db.count, i requires 0 <= i < db.count => Entry(i, Score(db, query, i)))
  }

  ghost predicate SomeAboveSentinel(db: Db, query: seq<real>)
    requires db.Valid() && |query| == db.dim
  {
    exists i :: 0 <= i < db.count && Score(db, query, i) > -1000000000.0
  }

  // A batch's reported index lies in its own slice, and then is the slice's lowest
  // maximum, exactly when some row of the slice scores above the sentinel. Otherwise the
  // index is the one before the slice, modulo 2^32.
  lemma BatchWinnerMeaning(db: Db, query: seq<real>, offset: nat, n: nat)
    requires db.Valid() && |query| == db.dim && 0 < n && offset + n <= db.count
    ensures SliceMeaning(db, query, offset, n, BatchWinner(db, query, offset, n))
  {
    var scores := BatchScores(db, query, offset, n);
    var b := FirstMax(scores);
    FirstMaxIsFirst(scores);
    assert forall i :: 0 <= i < n ==> scores[i] == Score(db, query, offset + i);
    forall i | offset <= i < offset + n ensures Score(db, query, i) == scores[i - offset] {
    }
    if b.index >= 0 {
      ShiftedInside(b, offset, n);
    } else {
      ShiftedBefore(b, offset);
    }
  }

  ghost predicate SliceMeaning(db: Db, query: seq<real>, offset: nat, n: nat, w: Entry)
    requires db.Valid() && |query| == db.dim && 0 < n && offset + n <= db.count
  {
    if exists i :: offset <= i < offset + n && Score(db, query, i) > -1000000000.0 then
      && offset <= w.idx < offset + n
      && w.score == Score(db, query, w.idx) > -1000000000.0
      && (forall i :: offset <= i < offset + n ==> Score(db, query, i) <= w.score)
      && (forall i :: offset <= i < w.idx ==> Score(db, query, i) < w.score)
    else
      w == Entry(if offset == 0 then 0xFFFF_FFFF else offset - 1, -1000000000.0) && !(offset <= w.idx < offset + n)
  }

  lemma ShiftedInside(b: Best, offset: nat, n: nat)
    requires 0 <= b.index < n && offset + n < TWO32
    ensures Shifted(b, offset) == Entry(offset + b.index, b.score)
  {
  }

  lemma ShiftedBefore(b: Best, offset: nat)
    requires b.index == -1 && offset < TWO32
    ensures Shifted(b, offset) == Entry(if offset == 0 then 0xFFFF_FFFF else offset - 1, b.score)
  {
  }

  // Every row lies in one batch, and that batch's winner is among the winners.
  lemma {:induction false} RowHasWinner(db: Db, query: seq<real>, b: nat, i: nat)
    requires db.Valid() && |query| == db.dim && b <= Batches(db) && i < db.count && i < BATCH * b
    ensures exists w :: w in Winners(db, query, Always(), b) && w.score >= Score(db, query, i)
    decreases b
  {
    var start := BATCH * (b - 1);
    BatchesCover(db, b - 1);
    var n := BatchSize(db, start);
    var w := BatchWinner(db, query, start, n);
    assert w in Winners(db, query, Always(), b);
    if i < start {
      RowHasWinner(db, query, b - 1, i);
      var v :| v in Winners(db, query, Always(), b - 1) && v.score >= Score(db, query, i);
      assert v in Winners(db, query, Always(), b);
    } else {
      BatchWinnerMeaning(db, query, start, n);
    }
  }

  // A winner above the sentinel is a row with its own score.
  lemma {:induction false} WinnerIsRow(db: Db, query: seq<real>, b: nat, w: Entry)
    requires db.Valid() && |query| == db.dim && b <= Batches(db)
    requires w in Winners(db, query, Always(), b) && w.score > SENTINEL
    ensures w.idx < db.count && w.score == Score(db, query, w.idx)
    decreases b
  {
    var start := BATCH * (b - 1);
    BatchesCover(db, b - 1);
    if w in Winners(db, query, Always(), b - 1) {
      WinnerIsRow(db, query, b - 1, w);
    } else {
      BatchWinnerMeaning(db, query, start, BatchSize(db, start));
    }
  }

  // With every batch answered and some row above the sentinel, the first result of either
  // program is a row of the database with the greatest dot product, with that score.
  lemma FirstResultIsGlobalMaximum(db: Db, query: seq<real>, out: seq<Entry>, k: nat)
    requires db.Valid() && |query| == db.dim && k > 0
    requires IsTopK(out, AllWinners(db, query), k) && SomeAboveSentinel(db, query)
    ensures out != [] && out[0].idx < db.count && out[0].score == Score(db, query, out[0].idx)
    ensures forall i :: 0 <= i < db.count ==> Score(db, query, i) <= out[0].score
  {
    var all := AllWinners(db, query);
    forall i | 0 <= i < db.count
      ensures exists w :: w in all && w.score >= Score(db, query, i)
    {
      BatchesCover(db, Batches(db));
      RowHasWinner(db, query, Batches(db), i);
    }
    var i :| 0 <= i < db.count && Score(db, query, i) > SENTINEL;
    var w :| w in all && w.score >= Score(db, query, i);
    TopKFirst(out, all, k);
    WinnerIsRow(db, query, Batches(db), out[0]);
  }

  // In particular the daemon's, when every batch's calls go through.
  lemma DaemonFindsMaximum(db: Db, query: seq<real>, calls: nat -> nat, topK: int, out: seq<Entry>)
    requires db.Valid() && |query| == db.dim && SomeAboveSentinel(db, query)
    requires forall start :: 0 <= start < db.count ==> calls(start) >= BatchSize(db, start) + 7
    requires IsTopK(out, Winners(db, query, Searchd.Answering(db, calls), Batches(db)), Searchd.ClampTopK(topK))
    ensures out != [] && out[0].idx < db.count && out[0].score == Score(db, query, out[0].idx)
    ensures forall i :: 0 <= i < db.count ==> Score(db, query, i) <= out[0].score
  {
    EnoughCallsAnswer(db, query, calls, Batches(db));
    FirstResultIsGlobalMaximum(db, query, out, Searchd.ClampTopK(topK));
  }

  lemma {:induction false} WinnersLength(db: Db, query: seq<real>, b: nat)
    requires db.Valid() && |query| == db.dim && b <= Batches(db)
    ensures |Winners(db, query, Always(), b)| == b
  {
    if b > 0 {
      WinnersLength(db, query, b - 1);
    }
  }

  // Both programs emit min(K, number of batches) results, whatever the database size.
  lemma ResultCount(db: Db, query: seq<real>, out: seq<Entry>, k: nat)
    requires db.Valid() && |query| == db.dim && IsTopK(out, AllWinners(db, query), k)
    ensures |out| == if k < (db.count + 24) / 25 then k else (db.count + 24) / 25
  {
    WinnersLength(db, query, Batches(db));
    TopKLength(out, AllWinners(db, query), k);
  }

  // ---- the two programs against each other ----

  lemma {:induction false} EnoughCallsAnswer(db: Db, query: seq<real>, calls: nat -> nat, b: nat)
    requires db.Valid() && |query| == db.dim && b <= Batches(db)
    requires forall start :: 0 <= start < db.count ==> calls(start) >= BatchSize(db, start) + 7
    ensures Winners(db, query, Searchd.Answering(db, calls), b) == Winners(db, query, Always(), b)
  {
    if b > 0 {
      EnoughCallsAnswer(db, query, calls, b - 1);
      BatchesCover(db, b - 1);
    }
  }

  // When no call fails and 1 <= K <= 100, the daemon's heap of K and the tool's buffer of
  // 2 K print the same scores; an index can differ only between two winners that tie.
  lemma ProgramsAgree(db: Db, query: seq<real>, calls: nat -> nat, topK: U32,
                      daemon: seq<Entry>, tool: seq<Entry>)
    requires db.Valid() && |query| == db.dim && 1 <= topK <= 100
    requires forall start :: 0 <= start < db.count ==> calls(start) >= BatchSize(db, start) + 7
    requires IsTopK(daemon, Winners(db, query, Searchd.Answering(db, calls), Batches(db)), Searchd.ClampTopK(topK))
    requires IsTopK(tool, AllWinners(db, query), SearchCli.NormalTopK(topK))
    ensures Scores(daemon) == Scores(tool)
    ensures forall i :: 0 <= i < |daemon| ==>
      daemon[i] in AllWinners(db, query) && tool[i] in AllWinners(db, query) && daemon[i].score == tool[i].score
  {
    var all := AllWinners(db, query);
    EnoughCallsAnswer(db, query, calls, Batches(db));
    TopKScoresUnique(daemon, tool, all, topK);
    TopKMembers(daemon, all, topK);
    TopKMembers(tool, all, topK);
    assert |Scores(daemon)| == |Scores(tool)|;
    forall i | 0 <= i < |daemon| ensures daemon[i].score == tool[i].score {
      assert Scores(daemon)[i] == Scores(tool)[i];
    }
  }

  lemma TopKMembers(out: seq<Entry>, all: seq<Entry>, k: nat)
    requires IsTopK(out, all, k)
    ensures forall i :: 0 <= i < |out| ==> out[i] in all
  {
    var lost :| Keeps(out, lost, all, k);
    forall i | 0 <= i < |out| ensures out[i] in all {
      assert out[i] in multiset(all);
    }
  }

  // ---- are these the K best rows of the database? ----

  // The results for this database and query are the k best rows.
  ghost predicate ReportsBestRows(db: Db, query: seq<real>, k: nat)
    requires db.Valid() && |query| == db.dim
  {
    forall out :: IsTopK(out, AllWinners(db, query), k) ==> IsTopK(out, Rows(db, query), k)
  }

  ghost predicate AlwaysReportsBestRows(count: U32, k: nat) {
    forall db: Db, query: seq<real> ::
      db.Valid() && db.count == count && |query| == db.dim && SomeAboveSentinel(db, query)
      ==> ReportsBestRows(db, query, k)
  }

  // All entries but the i-th, in order.
  function Without(s: seq<Entry>, i: nat): seq<Entry>
    requires i < |s|
  {
    s[..i] + s[i + 1..]
  }

  lemma WithoutSplits(s: seq<Entry>, i: nat)
    requires i < |s|
    ensures multiset([s[i]]) + multiset(Without(s, i)) == multiset(s)
    ensures forall e :: e in Without(s, i) ==> e in s
  {
    assert s == s[..i] + [s[i]] + s[i + 1..];
  }

  // One entry that nothing beats is the best one.
  lemma GreatestIsTop(s: seq<Entry>, i: nat)
    requires i < |s| && forall e :: e in s ==> e.score <= s[i].score
    ensures IsTopK([s[i]], s, 1)
  {
    WithoutSplits(s, i);
    assert Keeps([s[i]], Without(s, i), s, 1);
  }

  lemma OneResultIsBestRow(db: Db, query: seq<real>, out: seq<Entry>)
    requires db.Valid() && |query| == db.dim && SomeAboveSentinel(db, query)
    requires IsTopK(out, AllWinners(db, query), 1)
    ensures IsTopK(out, Rows(db, query), 1)
  {
    FirstResultIsGlobalMaximum(db, query, out, 1);
    TopKLength(out, AllWinners(db, query), 1);
    var rows, i := Rows(db, query), out[0].idx;
    assert out == [rows[i]];
    GreatestIsTop(rows, i);
  }

  // Only one row: the batch winner is it.
  lemma OnlyRow(db: Db, query: seq<real>, out: seq<Entry>, k: nat)
    requires db.Valid() && |query| == db.dim && SomeAboveSentinel(db, query)
    requires db.count == 1 && k > 0 && IsTopK(out, AllWinners(db, query), k)
    ensures IsTopK(out, Rows(db, query), k)
  {
    FirstResultIsGlobalMaximum(db, query, out, k);
    ResultCount(db, query, out, k);
    assert out == Rows(db, query) == [Entry(0, Score(db, query, 0))];
    assert Keeps(out, [], Rows(db, query), k);
  }

  // One column; the first two rows, both in the first batch, score 2 and 1, all others 0.
  function TwoInOneBatch(count: U32): Db {
    Db(count, 1, seq(count, i => if i == 0 then 2.0 else if i == 1 then 1.0 else 0.0))
  }

  lemma TwoInOneBatchScores(count: U32, i: nat)
    requires 2 <= count && i < count
    ensures TwoInOneBatch(count).Valid()
    ensures Score(TwoInOneBatch(count), [1.0], i) == if i == 0 then 2.0 else if i == 1 then 1.0 else 0.0
  {
    var db := TwoInOneBatch(count);
    var row := db.Row(i);
    assert row == [db.data[i]];
    assert Dot(row, [1.0]) == Dot(row[..0], [1.0][..0]) + row[0] * 1.0;
  }

  lemma BatchScoresNotOne(count: U32, start: nat, n: nat)
    requires 2 <= count && TwoInOneBatch(count).Valid() && 0 < n && start + n <= count
    requires start == 0 || start >= 2
    ensures var w := BatchWinner(TwoInOneBatch(count), [1.0], start, n); w.score == 2.0 || w.score == 0.0
  {
    var db := TwoInOneBatch(count);
    BatchWinnerMeaning(db, [1.0], start, n);
    TwoInOneBatchScores(count, start);
    var w := BatchWinner(db, [1.0], start, n);
    TwoInOneBatchScores(count, w.idx);
  }

  lemma {:induction false} NoWinnerScoresOne(count: U32, b: nat, w: Entry)
    requires 2 <= count && TwoInOneBatch(count).Valid() && b <= Batches(TwoInOneBatch(count))
    requires w in Winners(TwoInOneBatch(count), [1.0], Always(), b)
    ensures w.score == 2.0 || w.score == 0.0
    decreases b
  {
    var db := TwoInOneBatch(count);
    BatchesCover(db, b - 1);
    if w in Winners(db, [1.0], Always(), b - 1) {
      NoWinnerScoresOne(count, b - 1, w);
    } else {
      BatchScoresNotOne(count, BATCH * (b - 1), BatchSize(db, BATCH * (b - 1)));
    }
  }

  // Two or more best rows include the row that scores 1.
  lemma SecondRowKept(count: U32, out: seq<Entry>, k: nat)
    requires 2 <= count && |out| >= 2 && TwoInOneBatch(count).Valid()
    requires IsTopK(out, Rows(TwoInOneBatch(count), [1.0]), k)
    ensures Entry(1, 1.0) in out
  {
    var rows := Rows(TwoInOneBatch(count), [1.0]);
    var lost :| Keeps(out, lost, rows, k);
    TwoInOneBatchScores(count, 1);
    assert rows[1] == Entry(1, 1.0) && rows[1] in multiset(rows);
    if rows[1] !in out {
      assert rows[1] in lost;
      OnlyFirstRowAbove(count, out[0], rows);
      OnlyFirstRowAbove(count, out[1], rows);
      TwiceInside(out, lost, rows);
      MultiplicityOne(rows, out[0]);
      assert false;
    }
  }

  lemma OnlyFirstRowAbove(count: U32, e: Entry, rows: seq<Entry>)
    requires 2 <= count && TwoInOneBatch(count).Valid() && rows == Rows(TwoInOneBatch(count), [1.0])
    requires e in multiset(rows) && e.score >= 1.0
    ensures e == rows[0] || e == rows[1]
  {
    var i :| 0 <= i < count && rows[i] == e;
    TwoInOneBatchScores(count, i);
  }

  lemma TwiceInside(out: seq<Entry>, lost: seq<Entry>, rows: seq<Entry>)
    requires |out| >= 2 && out[0] == out[1] && multiset(out) + multiset(lost) == multiset(rows)
    ensures multiset(rows)[out[0]] >= 2
  {
    assert out == [out[0], out[1]] + out[2..];
  }

  lemma {:induction false} MultiplicityOne(s: seq<Entry>, e: Entry)
    requires forall i, j :: 0 <= i < j < |s| ==> s[i].idx != s[j].idx
    ensures multiset(s)[e] <= 1
  {
    if s != [] {
      var m := |s| - 1;
      assert s == s[..m] + [s[m]];
      MultiplicityOne(s[..m], e);
      if e == s[m] {
        assert e !in s[..m];
      }
    }
  }

  lemma SecondBestMissed(count: U32, k: nat)
    requires 2 <= count && 2 <= k
    ensures TwoInOneBatch(count).Valid() && SomeAboveSentinel(TwoInOneBatch(count), [1.0])
    ensures !ReportsBestRows(TwoInOneBatch(count), [1.0], k)
  {
    var db, query := TwoInOneBatch(count), [1.0];
    TwoInOneBatchScores(count, 0);
    assert SomeAboveSentinel(db, query);
    var all := AllWinners(db, query);
    var out := SomeTopK(all, k);
    if IsTopK(out, Rows(db, query), k) {
      TopKLength(out, Rows(db, query), k);
      SecondRowKept(count, out, k);
      var given :| Keeps(out, given, all, k);
      assert Entry(1, 1.0) in multiset(all);
      NoWinnerScoresOne(count, Batches(db), Entry(1, 1.0));
    }
  }

  // Any entries have a top k.
  lemma {:induction false} SomeTopK(all: seq<Entry>, k: nat) returns (out: seq<Entry>)
    requires k > 0
    ensures IsTopK(out, all, k)
  {
    if all == [] {
      out := [];
      assert Keeps([], [], all, k);
    } else {
      var n := |all| - 1;
      var before := SomeTopK(all[..n], k);
      var lost :| Keeps(before, lost, all[..n], k);
      assert all == all[..n] + [all[n]];
      out := Inserted(before, lost, all[..n], k, all[n]);
    }
  }

  lemma {:induction false} InsertSorted(s: seq<Entry>, e: Entry) returns (r: seq<Entry>)
    requires Descending(s)
    ensures Descending(r) && multiset(r) == multiset(s + [e])
  {
    if s == [] || s[|s| - 1].score >= e.score {
      r := s + [e];
    } else {
      var front := InsertSorted(s[..|s| - 1], e);
      r := front + [s[|s| - 1]];
      PutBackLast(s, e, front);
    }
  }

  lemma PutBackLast(s: seq<Entry>, e: Entry, front: seq<Entry>)
    requires Descending(s) && s != [] && s[|s| - 1].score < e.score
    requires Descending(front) && multiset(front) == multiset(s[..|s| - 1] + [e])
    ensures Descending(front + [s[|s| - 1]])
    ensures multiset(front + [s[|s| - 1]]) == multiset(s + [e])
  {
    var last := s[|s| - 1];
    forall i | 0 <= i < |front| ensures front[i].score >= last.score {
      assert front[i] in multiset(s[..|s| - 1] + [e]);
    }
    assert s == s[..|s| - 1] + [last];
  }

  lemma {:induction false} ReplacedLast(kept: seq<Entry>, lost: seq<Entry>, all: seq<Entry>, k: nat, e: Entry)
    requires Descending(kept) && Keeps(kept, lost, all, k) && 0 < k == |kept| && e.score > kept[k - 1].score
    ensures Keeps(kept[..k - 1] + [e], lost + [kept[k - 1]], all + [e], k)
  {
    SearchCli.LastIsLeast(kept);
    KeepsReplaced(kept, lost, all, k, k - 1, e);
    assert kept[k - 1 := e] == kept[..k - 1] + [e];
  }

  lemma {:induction false} InsertedLast(kept: seq<Entry>, lost: seq<Entry>, all: seq<Entry>, k: nat, e: Entry)
    returns (out: seq<Entry>)
    requires Descending(kept) && Keeps(kept, lost, all, k) && 0 < k == |kept| && e.score > kept[k - 1].score
    ensures IsTopK(out, all + [e], k)
  {
    ReplacedLast(kept, lost, all, k, e);
    out := InsertSorted(kept[..k - 1], e);
    KeepsPermuted(kept[..k - 1] + [e], out, lost + [kept[k - 1]], all + [e], k);
  }

  lemma {:induction false} Inserted(kept: seq<Entry>, lost: seq<Entry>, all: seq<Entry>, k: nat, e: Entry)
    returns (out: seq<Entry>)
    requires Descending(kept) && Keeps(kept, lost, all, k) && k > 0
    ensures IsTopK(out, all + [e], k)
  {
    if |kept| < k {
      KeepsGrown(kept, lost, all, k, e);
      out := InsertSorted(kept, e);
      KeepsPermuted(kept + [e], out, lost, all + [e], k);
    } else if e.score > kept[k - 1].score {
      out := InsertedLast(kept, lost, all, k, e);
    } else {
      KeepsRefused(kept, lost, all, k, e);
      out := kept;
    }
  }

  // The K results are the K best rows of every database of this size exactly when one
  // result is asked for or there is only one row: each batch contributes one winner.
  lemma BestRowsIff(count: U32, k: nat)
    requires count > 0 && k > 0
    ensures AlwaysReportsBestRows(count, k) <==> k == 1 || count == 1
  {
    if k == 1 || count == 1 {
      forall db: Db, query: seq<real>, out: seq<Entry> |
        db.Valid() && db.count == count && |query| == db.dim && SomeAboveSentinel(db, query)
        && IsTopK(out, AllWinners(db, query), k)
        ensures IsTopK(out, Rows(db, query), k)
      {
        if k == 1 {
          OneResultIsBestRow(db, query, out);
        } else {
          OnlyRow(db, query, out, k);
        }
      }
    } else {
      SecondBestMissed(count, k);
    }
  }
}
