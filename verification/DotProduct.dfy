// The exact dot product and the scan for its first maximum.
module DotProduct {
  // Every scan starts from this score, with no index.
  const SENTINEL: real := -1000000000.0

  // The order of summation is that of the scalar loops; exact numbers do not round.
  function Dot(a: seq<real>, b: seq<real>): real
    requires |a| == |b|
  {
    if a == [] then 0.0
    else Dot(a[..|a| - 1], b[..|b| - 1]) + a[|a| - 1] * b[|b| - 1]
  }

  lemma DotStep(a: seq<real>, b: seq<real>, i: nat)
    requires i < |a| == |b|
    ensures Dot(a[..i + 1], b[..i + 1]) == Dot(a[..i], b[..i]) + a[i] * b[i]
  {
    assert a[..i + 1][..i] == a[..i] && b[..i + 1][..i] == b[..i];
  }

  // The outcome of a scan; index -1 means that nothing beat the sentinel.
  datatype Best = Best(index: int, score: real)

  // The lowest index attaining the maximum, when that is above the sentinel.
  ghost predicate IsFirstMax(scores: seq<real>, b: Best) {
    if 0 <= b.index < |scores| then
      && b.score == scores[b.index] > -1000000000.0
      && (forall j :: 0 <= j < |scores| ==> scores[j] <= b.score)
      && (forall j :: 0 <= j < b.index ==> scores[j] < b.score)
    else
      && b == Best(-1, -1000000000.0)
      && forall j :: 0 <= j < |scores| ==> scores[j] <= -1000000000.0
  }

  function FirstMax(scores: seq<real>): Best {
    if scores == [] then Best(-1, SENTINEL)
    else
      var n := |scores| - 1;
      var b := FirstMax(scores[..n]);
      if scores[n] > b.score then Best(n, scores[n]) else b
  }

  lemma {:induction false} FirstMaxIsFirst(scores: seq<real>)
    ensures IsFirstMax(scores, FirstMax(scores))
  {
    if scores != [] {
      var n := |scores| - 1;
      FirstMaxIsFirst(scores[..n]);
      assert forall j :: 0 <= j < n ==> scores[..n][j] == scores[j];
    }
  }

  lemma FirstMaxStep(scores: seq<real>, i: nat)
    requires i < |scores|
    ensures FirstMax(scores[..i + 1]) ==
      var b := FirstMax(scores[..i]); if scores[i] > b.score then Best(i, scores[i]) else b
  {
    assert scores[..i + 1][..i] == scores[..i];
  }
}
