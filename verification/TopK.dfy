// What "the K best results" means, independently of how either program finds them.
module TopK {
  import opened Words

  // A search result: heap_entry_t in the daemon, result_t in the command-line tool.
  datatype Entry = Entry(idx: U32, score: real)

  ghost predicate Descending(s: seq<Entry>) {
    forall i, j :: 0 <= i < j < |s| ==> s[i].score >= s[j].score
  }

  // kept and lost split all; nothing lost beats anything kept; nothing is lost
  // before k entries are kept.
  ghost predicate Keeps(kept: seq<Entry>, lost: seq<Entry>, all: seq<Entry>, k: nat) {
    && multiset(kept) + multiset(lost) == multiset(all)
    && |kept| <= k
    && (lost != [] ==> |kept| == k)
    && forall a, b :: a in kept && b in lost ==> a.score >= b.score
  }

  ghost predicate IsTopK(out: seq<Entry>, all: seq<Entry>, k: nat) {
    Descending(out) && exists lost :: Keeps(out, lost, all, k)
  }

  function Scores(s: seq<Entry>): (r: seq<real>)
    ensures |r| == |s| && forall i :: 0 <= i < |s| ==> r[i] == s[i].score
  {
    seq(|s|, i requires 0 <= i < |s| => s[i].score)
  }

  // ---- one more entry arrives ----

  // The same entries in another order are kept just as well.
  lemma KeepsPermuted(kept: seq<Entry>, kept': seq<Entry>, lost: seq<Entry>, all: seq<Entry>, k: nat)
    requires Keeps(kept, lost, all, k) && multiset(kept) == multiset(kept')
    ensures Keeps(kept', lost, all, k)
  {
    assert |multiset(kept)| == |kept| && |multiset(kept')| == |kept'|;
    forall a, b | a in kept' && b in lost ensures a.score >= b.score {
      assert a in multiset(kept');
      assert a in kept;
    }
  }

  lemma KeepsGrown(kept: seq<Entry>, lost: seq<Entry>, all: seq<Entry>, k: nat, e: Entry)
    requires Keeps(kept, lost, all, k) && |kept| < k
    ensures Keeps(kept + [e], lost, all + [e], k)
  {
  }

  lemma KeepsRefused(kept: seq<Entry>, lost: seq<Entry>, all: seq<Entry>, k: nat, e: Entry)
    requires Keeps(kept, lost, all, k) && |kept| == k
    requires forall a :: a in kept ==> a.score >= e.score
    ensures Keeps(kept, lost + [e], all + [e], k)
  {
  }

  // The entry at position w scores lowest and makes room for a better one.
  lemma KeepsReplaced(kept: seq<Entry>, lost: seq<Entry>, all: seq<Entry>, k: nat, w: nat, e: Entry)
    requires Keeps(kept, lost, all, k) && |kept| == k && w < k
    requires forall a :: a in kept ==> a.score >= kept[w].score
    requires e.score > kept[w].score
    ensures Keeps(kept[w := e], lost + [kept[w]], all + [e], k)
  {
    var kept', lost' := kept[w := e], lost + [kept[w]];
    assert kept == kept[..w] + [kept[w]] + kept[w + 1..];
    assert kept' == kept[..w] + [e] + kept[w + 1..];
    assert multiset(kept') + multiset{kept[w]} == multiset(kept) + multiset{e};
    forall a, b | a in kept' && b in lost' ensures a.score >= b.score {
      if b in lost {
        assert kept[w] in kept;
      }
    }
  }

  // ---- the scores of a top-K are determined ----

  function CountAbove(s: seq<Entry>, v: real): (n: nat)
    ensures n <= |s|
  {
    if s == [] then 0 else CountAbove(s[1..], v) + if s[0].score > v then 1 else 0
  }

  lemma {:induction false} CountAboveConcat(s: seq<Entry>, t: seq<Entry>, v: real)
    ensures CountAbove(s + t, v) == CountAbove(s, v) + CountAbove(t, v)
  {
    if s == [] {
      assert s + t == t;
    } else {
      assert (s + t)[1..] == s[1..] + t;
      CountAboveConcat(s[1..], t, v);
    }
  }

  // Without one occurrence of its first entry.
  lemma DropOccurrence(s: seq<Entry>, t: seq<Entry>, j: nat)
    requires s != [] && j < |t| && t[j] == s[0] && multiset(s) == multiset(t)
    ensures multiset(s[1..]) == multiset(t[..j] + t[j + 1..])
  {
    assert s == [s[0]] + s[1..];
    assert t == t[..j] + [s[0]] + t[j + 1..];
    assert multiset(t) == multiset(t[..j]) + multiset{s[0]} + multiset(t[j + 1..]);
    assert multiset(s) == multiset{s[0]} + multiset(s[1..]);
    assert multiset(t[..j] + t[j + 1..]) == multiset(t) - multiset{s[0]};
    assert multiset(s[1..]) == multiset(s) - multiset{s[0]};
  }

  lemma {:induction false} CountAbovePermuted(s: seq<Entry>, t: seq<Entry>, v: real)
    requires multiset(s) == multiset(t)
    ensures CountAbove(s, v) == CountAbove(t, v)
  {
    if s == [] {
      assert |multiset(t)| == 0;
    } else {
      assert s[0] in multiset(t);
      var j :| 0 <= j < |t| && t[j] == s[0];
      DropOccurrence(s, t, j);
      CountAbovePermuted(s[1..], t[..j] + t[j + 1..], v);
      CountAboveConcat(t[..j], t[j + 1..], v);
      assert t == t[..j] + t[j..];
      CountAboveConcat(t[..j], t[j..], v);
    }
  }

  lemma {:induction false} CountAboveNone(s: seq<Entry>, v: real)
    requires forall a :: a in s ==> a.score <= v
    ensures CountAbove(s, v) == 0
  {
    if s != [] {
      CountAboveNone(s[1..], v);
    }
  }

  lemma {:induction false} CountAboveAll(s: seq<Entry>, v: real)
    requires forall a :: a in s ==> a.score > v
    ensures CountAbove(s, v) == |s|
  {
    if s != [] {
      CountAboveAll(s[1..], v);
    }
  }

  // At most i entries of all score above the i-th kept one.
  lemma FewAbove(out: seq<Entry>, lost: seq<Entry>, all: seq<Entry>, k: nat, i: nat)
    requires Descending(out) && Keeps(out, lost, all, k) && i < |out|
    ensures CountAbove(all, out[i].score) <= i
  {
    var v := out[i].score;
    assert out == out[..i] + out[i..];
    CountAboveConcat(out[..i], out[i..], v);
    CountAboveNone(out[i..], v);
    forall b | b in lost ensures b.score <= v {
      assert out[i] in out;
    }
    CountAboveNone(lost, v);
    CountAboveConcat(out, lost, v);
    CountAbovePermuted(out + lost, all, v);
  }

  // More than i entries of all score above anything below the i-th kept one.
  lemma ManyAbove(out: seq<Entry>, lost: seq<Entry>, all: seq<Entry>, k: nat, i: nat, v: real)
    requires Descending(out) && Keeps(out, lost, all, k) && i < |out| && out[i].score > v
    ensures CountAbove(all, v) > i
  {
    assert out == out[..i + 1] + out[i + 1..];
    CountAboveAll(out[..i + 1], v);
    CountAboveConcat(out[..i + 1], out[i + 1..], v);
    CountAboveConcat(out, lost, v);
    CountAbovePermuted(out + lost, all, v);
  }

  lemma TopKLength(out: seq<Entry>, all: seq<Entry>, k: nat)
    requires IsTopK(out, all, k)
    ensures |out| == Min(k, |all|)
  {
    var lost :| Keeps(out, lost, all, k);
    assert |multiset(out) + multiset(lost)| == |out| + |lost|;
    assert |multiset(all)| == |all|;
  }

  // Whatever the tie-breaking, the sequence of scores is the same.
  lemma TopKScoresUnique(o1: seq<Entry>, o2: seq<Entry>, all: seq<Entry>, k: nat)
    requires IsTopK(o1, all, k) && IsTopK(o2, all, k)
    ensures Scores(o1) == Scores(o2)
  {
    TopKLength(o1, all, k);
    TopKLength(o2, all, k);
    var l1 :| Keeps(o1, l1, all, k);
    var l2 :| Keeps(o2, l2, all, k);
    forall i | 0 <= i < |o1| ensures o1[i].score == o2[i].score {
      FewAbove(o1, l1, all, k, i);
      FewAbove(o2, l2, all, k, i);
      if o1[i].score > o2[i].score {
        ManyAbove(o1, l1, all, k, i, o2[i].score);
      } else if o2[i].score > o1[i].score {
        ManyAbove(o2, l2, all, k, i, o1[i].score);
      }
    }
  }

  lemma PrefixBeatsRest(out: seq<Entry>, m: nat)
    requires Descending(out) && m <= |out|
    ensures forall a, b :: a in out[..m] && b in out[m..] ==> a.score >= b.score
  {
    forall a, b | a in out[..m] && b in out[m..] ensures a.score >= b.score {
      var i :| 0 <= i < m && out[..m][i] == a;
      var j :| 0 <= j < |out| - m && out[m..][j] == b;
      assert out[i].score >= out[m + j].score;
    }
  }

  // What is cut off the end of the kept entries joins the lost ones.
  lemma KeepsCut(out: seq<Entry>, m: nat, lost: seq<Entry>, all: seq<Entry>, k: nat, j: nat)
    requires Descending(out) && Keeps(out, lost, all, k) && m == Min(j, |out|) && j <= k
    ensures Keeps(out[..m], out[m..] + lost, all, j)
  {
    assert multiset(out[..m]) + multiset(out[m..] + lost) == multiset(all) by {
      assert out == out[..m] + out[m..];
    }
    forall a, b | a in out[..m] && b in out[m..] + lost ensures a.score >= b.score {
      PrefixBeatsRest(out, m);
      assert a in out;
      assert b in out[m..] || b in lost;
    }
  }

  // The best j of the best k are the best j.
  lemma TopKPrefix(out: seq<Entry>, all: seq<Entry>, k: nat, j: nat, m: nat)
    requires IsTopK(out, all, k) && j <= k && m == Min(j, |out|)
    ensures IsTopK(out[..m], all, j)
  {
    var lost :| Keeps(out, lost, all, k);
    KeepsCut(out, m, lost, all, k, j);
  }

  // The first of the best has the largest score of all.
  lemma TopKFirst(out: seq<Entry>, all: seq<Entry>, k: nat)
    requires IsTopK(out, all, k) && k > 0 && all != []
    ensures out != [] && out[0] in all
    ensures forall e :: e in all ==> e.score <= out[0].score
  {
    TopKLength(out, all, k);
    var lost :| Keeps(out, lost, all, k);
    assert out[0] in multiset(all);
    forall e | e in all ensures e.score <= out[0].score {
      assert e in multiset(all);
      if e !in lost {
        assert e in out;
      }
    }
  }
}
