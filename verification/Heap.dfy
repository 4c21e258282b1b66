// The daemon's bounded min-heap, kept in place in an array
// (examples/semantic_search/sppu_searchd.c).
module Heap {
  import opened Words
  import opened TopK

  function Parent(c: nat): nat
    requires c > 0
  {
    (c - 1) / 2
  }

  // Among the first n entries, no child of a node at or after lo scores below its parent.
  ghost predicate HeapFrom(h: seq<Entry>, n: nat, lo: nat)
    requires n <= |h|
  {
    forall c :: 0 < c < n && lo <= Parent(c) ==> h[Parent(c)].score <= h[c].score
  }

  lemma {:induction false} RootIsLeast(h: seq<Entry>, n: nat, c: nat)
    requires c < n <= |h| && HeapFrom(h, n, 0)
    ensures h[0].score <= h[c].score
    decreases c
  {
    if c > 0 {
      RootIsLeast(h, n, Parent(c));
    }
  }

  function Swapped(h: seq<Entry>, i: nat, j: nat): (r: seq<Entry>)
    requires i < |h| && j < |h|
    ensures multiset(r) == multiset(h)
  {
    h[i := h[j]][j := h[i]]
  }

  method Swap(h: array<Entry>, i: nat, j: nat)
    requires i < h.Length && j < h.Length
    modifies h
    ensures h[..] == Swapped(old(h[..]), i, j)
  {
    h[i], h[j] := h[j], h[i];
  }

  // The state of a sift: only node i may score above its children, and those children
  // do not score below the parent of i.
  ghost predicate Sifting(h: seq<Entry>, n: nat, start: nat, i: nat)
    requires n <= |h|
  {
    && start <= i < n
    && (i != start ==> start <= Parent(i))
    && (forall c :: 0 < c < n && start <= Parent(c) && Parent(c) != i ==> h[Parent(c)].score <= h[c].score)
    && (forall c :: 0 < c < n && Parent(c) == i && i != start ==> h[Parent(i)].score <= h[c].score)
  }

  lemma SiftStep(h: seq<Entry>, n: nat, start: nat, i: nat, child: nat)
    requires n <= |h| && Sifting(h, n, start, i) && 0 < child < n && Parent(child) == i
    requires h[child].score < h[i].score
    requires forall c :: 0 < c < n && Parent(c) == i ==> h[child].score <= h[c].score
    ensures Sifting(Swapped(h, i, child), n, start, child)
  {
    var h' := Swapped(h, i, child);
    forall c | 0 < c < n && start <= Parent(c) && Parent(c) != child
      ensures h'[Parent(c)].score <= h'[c].score
    {
      if c == i {
        assert h[Parent(i)].score <= h[child].score;
      }
    }
  }

  // The child heap_sift_down swaps with, or i itself.
  function Smallest(h: seq<Entry>, n: nat, i: nat): (m: nat)
    requires i < n <= |h|
    ensures i <= m < n && h[m].score <= h[i].score
    ensures m != i ==> m > 0 && Parent(m) == i && h[m].score < h[i].score
    ensures forall c :: 0 < c < n && Parent(c) == i ==> h[m].score <= h[c].score
  {
    var l, r := 2 * i + 1, 2 * i + 2;
    var m := if l < n && h[l].score < h[i].score then l else i;
    assert forall c :: 0 < c && Parent(c) == i ==> c == l || c == r;
    if r < n && h[r].score < h[m].score then r else m
  }

  // The array a sift from node i leaves behind.
  function Sifted(h: seq<Entry>, n: nat, i: nat): (r: seq<Entry>)
    requires i < n <= |h|
    ensures multiset(r) == multiset(h) && |r| == |h|
    ensures forall k :: 0 <= k < i || n <= k < |h| ==> r[k] == h[k]
    decreases n - i
  {
    var m := Smallest(h, n, i);
    if m == i then h else Sifted(Swapped(h, i, m), n, m)
  }

  // What is left is a heap from the start of the sift on, if it was one below.
  lemma {:induction false} SiftedIsHeap(h: seq<Entry>, n: nat, start: nat, i: nat)
    requires n <= |h| && Sifting(h, n, start, i)
    ensures HeapFrom(Sifted(h, n, i), n, start)
    decreases n - i
  {
    var m := Smallest(h, n, i);
    if m != i {
      SiftStep(h, n, start, i, m);
      SiftedIsHeap(Swapped(h, i, m), n, start, m);
    }
  }

  method SmallestOf(h: array<Entry>, n: nat, i: nat) returns (smallest: nat)
    requires i < n <= h.Length
    ensures smallest == Smallest(h[..], n, i)
  {
    smallest := i;
    var l, r := 2 * i + 1, 2 * i + 2;
    if l < n && h[l].score < h[smallest].score {
      smallest := l;
    }
    if r < n && h[r].score < h[smallest].score {
      smallest := r;
    }
  }

  // heap_sift_down
  method SiftDown(h: array<Entry>, n: nat, start: nat)
    requires start < n <= h.Length
    modifies h
    ensures h[..] == Sifted(old(h[..]), n, start)
  {
    var i := start;
    while true
      invariant i < n && Sifted(h[..], n, i) == Sifted(old(h[..]), n, start)
      decreases n - i
    {
      var smallest := SmallestOf(h, n, i);
      if smallest == i {
        break;
      }
      Swap(h, i, smallest);
      i := smallest;
    }
  }

  // ---- rebuilding the heap after an insertion ----

  function Heapified(h: seq<Entry>, n: nat, i: int): (r: seq<Entry>)
    requires i < n <= |h|
    ensures multiset(r) == multiset(h) && |r| == |h|
    ensures forall k :: n <= k < |h| ==> r[k] == h[k]
    decreases i
  {
    if i < 0 then h else Heapified(Sifted(h, n, i), n, i - 1)
  }

  lemma {:induction false} HeapifiedIsHeap(h: seq<Entry>, n: nat, i: int)
    requires -1 <= i < n <= |h| && HeapFrom(h, n, i + 1)
    ensures HeapFrom(Heapified(h, n, i), n, 0)
    decreases i
  {
    if i >= 0 {
      SiftedIsHeap(h, n, i, i);
      HeapifiedIsHeap(Sifted(h, n, i), n, i - 1);
    }
  }

  method Heapify(h: array<Entry>, n: nat)
    requires 0 < n <= h.Length
    modifies h
    ensures h[..] == Heapified(old(h[..]), n, n / 2 - 1)
    ensures HeapFrom(h[..], n, 0)
  {
    var i := n / 2 - 1;
    while i >= 0
      invariant -1 <= i < n
      invariant Heapified(h[..], n, i) == Heapified(old(h[..]), n, n / 2 - 1)
    {
      SiftDown(h, n, i);
      i := i - 1;
    }
    HeapifiedIsHeap(old(h[..]), n, n / 2 - 1);
  }

  // If the tail is unchanged and the whole is a permutation, so is the front.
  lemma SamePart(s: seq<Entry>, t: seq<Entry>, n: nat)
    requires n <= |s| == |t| && multiset(s) == multiset(t)
    requires forall k :: n <= k < |s| ==> s[k] == t[k]
    ensures multiset(s[..n]) == multiset(t[..n])
  {
    assert s[n..] == t[n..];
    assert s == s[..n] + s[n..] && t == t[..n] + t[n..];
    assert multiset(s[..n]) == multiset(s) - multiset(s[n..]);
    assert multiset(t[..n]) == multiset(t) - multiset(t[n..]);
  }

  // ---- one batch winner arrives (do_search) ----

  function Offered(h: seq<Entry>, n: nat, e: Entry): (r: seq<Entry>)
    requires n <= |h| && h != []
    ensures |r| == |h|
  {
    if n < |h| then Heapified(h[n := e], n + 1, (n + 1) / 2 - 1)
    else if e.score > h[0].score then Sifted(h[0 := e], n, 0)
    else h
  }

  // It is stored while there is room, and replaces the least one afterwards if it scores
  // higher.
  method Offer(h: array<Entry>, n: nat, e: Entry) returns (n': nat)
    requires n <= h.Length && h.Length > 0
    modifies h
    ensures n' == Min(n + 1, h.Length)
    ensures h[..] == Offered(old(h[..]), n, e)
  {
    n' := n;
    if n < h.Length {
      h[n] := e;
      n' := n + 1;
      assert h[..] == old(h[..])[n := e];
      Heapify(h, n');
    } else if e.score > h[0].score {
      h[0] := e;
      assert h[..] == old(h[..])[0 := e];
      SiftDown(h, n, 0);
    }
  }

  // The invariant of the batch loop: a min-heap of the |h| best entries seen so far.
  ghost predicate HoldsTopK(h: seq<Entry>, n: nat, all: seq<Entry>) {
    n <= |h| && HeapFrom(h, n, 0) && exists lost :: Keeps(h[..n], lost, all, |h|)
  }

  lemma EmptyHolds(h: seq<Entry>)
    ensures HoldsTopK(h, 0, [])
  {
    assert Keeps(h[..0], [], [], |h|);
  }

  lemma OfferedHolds(h: seq<Entry>, n: nat, e: Entry, all: seq<Entry>)
    requires h != [] && HoldsTopK(h, n, all)
    ensures HoldsTopK(Offered(h, n, e), Min(n + 1, |h|), all + [e])
  {
    var lost :| Keeps(h[..n], lost, all, |h|);
    var h' := Offered(h, n, e);
    if n < |h| {
      OfferedWithRoom(h, n, e, lost, all);
    } else {
      assert h[..n] == h && h'[..n] == h';
      OfferedWhenFull(h, e, lost, all);
    }
  }

  lemma OfferedWithRoom(h: seq<Entry>, n: nat, e: Entry, lost: seq<Entry>, all: seq<Entry>)
    requires n < |h| && HeapFrom(h, n, 0) && Keeps(h[..n], lost, all, |h|)
    ensures HeapFrom(Offered(h, n, e), n + 1, 0)
    ensures Keeps(Offered(h, n, e)[..n + 1], lost, all + [e], |h|)
  {
    var stored := h[n := e];
    HeapifiedIsHeap(stored, n + 1, (n + 1) / 2 - 1);
    StoredKeeps(h, Heapified(stored, n + 1, (n + 1) / 2 - 1), n, e, lost, all);
  }

  lemma OfferedWhenFull(h: seq<Entry>, e: Entry, lost: seq<Entry>, all: seq<Entry>)
    requires h != [] && HeapFrom(h, |h|, 0) && Keeps(h, lost, all, |h|)
    ensures HeapFrom(Offered(h, |h|, e), |h|, 0)
    ensures exists lost' :: Keeps(Offered(h, |h|, e), lost', all + [e], |h|)
  {
    if e.score > h[0].score {
      ReplacedHeap(h, e);
      ReplacedKeeps(h, e, lost, all);
    } else {
      RefusedKeeps(h, e, lost, all);
    }
  }

  lemma ReplacedHeap(h: seq<Entry>, e: Entry)
    requires h != [] && HeapFrom(h, |h|, 0)
    ensures HeapFrom(Sifted(h[0 := e], |h|, 0), |h|, 0)
  {
    SiftedIsHeap(h[0 := e], |h|, 0, 0);
  }

  lemma StoredKeeps(h: seq<Entry>, h': seq<Entry>, n: nat, e: Entry, lost: seq<Entry>, all: seq<Entry>)
    requires n < |h| && Keeps(h[..n], lost, all, |h|)
    requires |h'| == |h| && multiset(h') == multiset(h[n := e])
    requires forall k :: n < k < |h| ==> h'[k] == h[k]
    ensures Keeps(h'[..n + 1], lost, all + [e], |h|)
  {
    KeepsGrown(h[..n], lost, all, |h|, e);
    SamePart(h[n := e], h', n + 1);
    assert h[n := e][..n + 1] == h[..n] + [e];
    KeepsPermuted(h[..n] + [e], h'[..n + 1], lost, all + [e], |h|);
  }

  lemma RootBelowAll(h: seq<Entry>)
    requires h != [] && HeapFrom(h, |h|, 0)
    ensures forall a :: a in h ==> a.score >= h[0].score
  {
    forall a | a in h ensures a.score >= h[0].score {
      var c :| 0 <= c < |h| && h[c] == a;
      RootIsLeast(h, |h|, c);
    }
  }

  lemma ReplacedKeeps(h: seq<Entry>, e: Entry, lost: seq<Entry>, all: seq<Entry>)
    requires h != [] && HeapFrom(h, |h|, 0) && Keeps(h, lost, all, |h|) && e.score > h[0].score
    ensures Keeps(Sifted(h[0 := e], |h|, 0), lost + [h[0]], all + [e], |h|)
  {
    RootBelowAll(h);
    KeepsReplaced(h, lost, all, |h|, 0, e);
    KeepsPermuted(h[0 := e], Sifted(h[0 := e], |h|, 0), lost + [h[0]], all + [e], |h|);
  }

  lemma RefusedKeeps(h: seq<Entry>, e: Entry, lost: seq<Entry>, all: seq<Entry>)
    requires h != [] && HeapFrom(h, |h|, 0) && Keeps(h, lost, all, |h|) && e.score <= h[0].score
    ensures Keeps(h, lost + [e], all + [e], |h|)
  {
    RootBelowAll(h);
    KeepsRefused(h, lost, all, |h|, e);
  }

  // ---- the final loop of do_search: swap the least to the end of the shrinking heap ----

  function HeapSorted(h: seq<Entry>, i: int): (r: seq<Entry>)
    requires i < |h|
    ensures multiset(r) == multiset(h) && |r| == |h|
    ensures forall k :: 0 <= k < |h| && i < k ==> r[k] == h[k]
    decreases i
  {
    if i <= 0 then h else HeapSorted(Sifted(Swapped(h, 0, i), i, 0), i - 1)
  }

  // Entries after i are in place: in order, and below everything that is still heaped.
  ghost predicate InPlace(h: seq<Entry>, n: nat, i: nat)
    requires i < n <= |h|
  {
    && (forall a, b :: i < a < b < n ==> h[a].score >= h[b].score)
    && (forall a, b :: 0 <= a <= i < b < n ==> h[a].score >= h[b].score)
  }

  lemma FrontPermuted(s: seq<Entry>, t: seq<Entry>, n: nat, i: nat)
    requires i < n <= |s| == |t| && multiset(s[..i]) == multiset(t[..i])
    requires forall k :: i <= k < |s| ==> t[k] == s[k]
    requires forall a, b :: 0 <= a < i <= b < n ==> s[a].score >= s[b].score
    ensures forall a, b :: 0 <= a < i <= b < n ==> t[a].score >= t[b].score
  {
    forall a, b | 0 <= a < i <= b < n ensures t[a].score >= t[b].score {
      assert t[..i][a] in multiset(s[..i]);
      var a' :| 0 <= a' < i && s[..i][a'] == t[a];
      assert s[a'].score >= s[b].score;
    }
  }

  // Swapping the root out puts one more entry in place, whatever order the rest is in.
  lemma RootOut(h: seq<Entry>, n: nat, i: nat)
    requires 0 < i < n <= |h| && HeapFrom(h, i + 1, 0) && InPlace(h, n, i)
    ensures HeapFrom(Swapped(h, 0, i), i, 1)
    ensures InPlace(Swapped(h, 0, i), n, i - 1)
  {
    var s := Swapped(h, 0, i);
    forall a, b | 0 <= a < i <= b < n ensures s[a].score >= s[b].score {
      RootIsLeast(h, i + 1, if a == 0 then i else a);
    }
  }

  lemma SortStep(h: seq<Entry>, n: nat, i: nat)
    requires 0 < i < n <= |h| && HeapFrom(h, i + 1, 0) && InPlace(h, n, i)
    ensures HeapFrom(Sifted(Swapped(h, 0, i), i, 0), i, 0)
    ensures InPlace(Sifted(Swapped(h, 0, i), i, 0), n, i - 1)
  {
    RootOut(h, n, i);
    var s := Swapped(h, 0, i);
    var t := Sifted(s, i, 0);
    SiftedIsHeap(s, i, 0, 0);
    SamePart(s, t, i);
    FrontPermuted(s, t, n, i);
  }

  lemma {:induction false} HeapSortedDescends(h: seq<Entry>, n: nat, i: nat)
    requires i < n <= |h| && HeapFrom(h, i + 1, 0) && InPlace(h, n, i)
    ensures Descending(HeapSorted(h, i)[..n])
    decreases i
  {
    if i > 0 {
      SortStep(h, n, i);
      HeapSortedDescends(Sifted(Swapped(h, 0, i), i, 0), n, i - 1);
    }
  }

  // The swapped-out entries end in order, and are the same entries.
  lemma HeapSortedSorts(h: seq<Entry>, n: nat)
    requires n <= |h| && HeapFrom(h, n, 0)
    ensures Descending(HeapSorted(h, n - 1)[..n])
    ensures multiset(HeapSorted(h, n - 1)[..n]) == multiset(h[..n])
  {
    if n > 0 {
      HeapSortedDescends(h, n, n - 1);
      SamePart(h, HeapSorted(h, n - 1), n);
    }
  }

  method SortDescending(h: array<Entry>, n: nat)
    requires n <= h.Length
    modifies h
    ensures h[..] == HeapSorted(old(h[..]), n - 1)
  {
    var i := n - 1;
    while i > 0
      invariant i < n && HeapSorted(h[..], i) == HeapSorted(old(h[..]), n - 1)
    {
      Swap(h, 0, i);
      SiftDown(h, i, 0);
      i := i - 1;
    }
  }
}
