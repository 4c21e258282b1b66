// The benchmark's dot products (benchmark/bench_simd.h) over exact numbers. A vector
// register is the sequence of its lanes, lowest first.
module Simd {
  import opened Words
  import opened DotProduct

  type Lanes = seq<real>

  // ---- the intrinsics used ----

  function SetZero(width: nat): Lanes {
    seq(width, _ => 0.0)
  }

  function LoadU(a: seq<real>, i: nat, width: nat): (r: Lanes)
    requires i + width <= |a|
    ensures |r| == width
  {
    a[i..i + width]
  }

  // add_ps(acc, mul_ps(x, y)) and fmadd_ps(x, y, acc)
  function MulAdd(x: Lanes, y: Lanes, acc: Lanes): (r: Lanes)
    requires |x| == |y| == |acc|
    ensures |r| == |acc| && forall k :: 0 <= k < |acc| ==> r[k] == acc[k] + x[k] * y[k]
  {
    seq(|acc|, k requires 0 <= k < |acc| => acc[k] + x[k] * y[k])
  }

  function AddPs(x: Lanes, y: Lanes): (r: Lanes)
    requires |x| == |y|
    ensures |r| == |x|
  {
    seq(|x|, k requires 0 <= k < |x| => x[k] + y[k])
  }

  function AddSs(x: Lanes, y: Lanes): Lanes
    requires |x| == |y| == 4
  {
    x[0 := x[0] + y[0]]
  }

  function MoveHdup(x: Lanes): Lanes
    requires |x| == 4
  {
    [x[1], x[1], x[3], x[3]]
  }

  function MoveHl(x: Lanes, y: Lanes): Lanes
    requires |x| == |y| == 4
  {
    [y[2], y[3], x[2], x[3]]
  }

  function LaneSum(x: Lanes): real {
    if x == [] then 0.0 else LaneSum(x[..|x| - 1]) + x[|x| - 1]
  }

  lemma LaneSumFour(x: Lanes)
    requires |x| == 4
    ensures LaneSum(x) == x[0] + x[1] + x[2] + x[3]
  {
    assert x[..3][..2] == x[..2] && x[..2][..1] == x[..1] && x[..1][..0] == [];
    assert LaneSum(x[..1]) == x[0];
    assert LaneSum(x[..3]) == LaneSum(x[..2]) + x[2];
  }

  lemma {:induction false} LaneSumConcat(x: Lanes, y: Lanes)
    ensures LaneSum(x + y) == LaneSum(x) + LaneSum(y)
  {
    if y == [] {
      assert x + y == x;
    } else {
      assert (x + y)[..|x + y| - 1] == x + y[..|y| - 1];
      LaneSumConcat(x, y[..|y| - 1]);
    }
  }

  lemma {:induction false} LaneSumAdd(x: Lanes, y: Lanes)
    requires |x| == |y|
    ensures LaneSum(AddPs(x, y)) == LaneSum(x) + LaneSum(y)
  {
    if x != [] {
      var n := |x| - 1;
      LaneSumAdd(x[..n], y[..n]);
      assert AddPs(x, y)[..n] == AddPs(x[..n], y[..n]);
    }
  }

  lemma {:induction false} LaneSumZero(width: nat)
    ensures LaneSum(SetZero(width)) == 0.0
  {
    if width > 0 {
      LaneSumZero(width - 1);
      assert SetZero(width)[..width - 1] == SetZero(width - 1);
    }
  }

  // The last lane takes the product the dot product takes next.
  lemma LastLane(a: seq<real>, b: seq<real>, i: nat, n: nat, acc: Lanes) returns (p: real)
    requires |a| == |b| && i + n < |a| && |acc| == n + 1
    ensures LaneSum(MulAdd(LoadU(a, i, n + 1), LoadU(b, i, n + 1), acc))
         == LaneSum(MulAdd(LoadU(a, i, n), LoadU(b, i, n), acc[..n])) + acc[n] + p
    ensures Dot(a[..i + (n + 1)], b[..i + (n + 1)]) == Dot(a[..i + n], b[..i + n]) + p
  {
    MulAddPrefix(a, b, i, n, acc);
    DotStep(a, b, i + n);
    assert i + n + 1 == i + (n + 1);
    p := a[i + n] * b[i + n];
    assert MulAdd(LoadU(a, i, n + 1), LoadU(b, i, n + 1), acc)[n] == acc[n] + p;
  }

  // One vector step adds the dot product of one block to the lane total.
  lemma {:induction false} BlockStep(a: seq<real>, b: seq<real>, i: nat, width: nat, acc: Lanes)
    requires |a| == |b| && i + width <= |a| && |acc| == width
    ensures LaneSum(MulAdd(LoadU(a, i, width), LoadU(b, i, width), acc)) - LaneSum(acc)
         == Dot(a[..i + width], b[..i + width]) - Dot(a[..i], b[..i])
    decreases width
  {
    if width == 0 {
      assert MulAdd(LoadU(a, i, 0), LoadU(b, i, 0), acc) == acc == [];
    } else {
      var n := width - 1;
      BlockStep(a, b, i, n, acc[..n]);
      var p := LastLane(a, b, i, n, acc);
      assert LaneSum(acc) == LaneSum(acc[..n]) + acc[n];
    }
  }

  lemma MulAddPrefix(a: seq<real>, b: seq<real>, i: nat, n: nat, acc: Lanes)
    requires |a| == |b| && i + n < |a| && |acc| == n + 1
    ensures MulAdd(LoadU(a, i, n + 1), LoadU(b, i, n + 1), acc)[..n]
         == MulAdd(LoadU(a, i, n), LoadU(b, i, n), acc[..n])
  {
    var long := MulAdd(LoadU(a, i, n + 1), LoadU(b, i, n + 1), acc);
    var short := MulAdd(LoadU(a, i, n), LoadU(b, i, n), acc[..n]);
    forall k | 0 <= k < n ensures long[k] == short[k] {
      assert LoadU(a, i, n)[k] == a[i + k] == LoadU(a, i, n + 1)[k];
      assert LoadU(b, i, n)[k] == b[i + k] == LoadU(b, i, n + 1)[k];
    }
  }

  // The shuffle-and-add reduction of four lanes.
  function Reduce4(x: Lanes): real
    requires |x| == 4
  {
    var shuf := MoveHdup(x);
    var sums := AddPs(x, shuf);
    AddSs(sums, MoveHl(shuf, sums))[0]
  }

  lemma Reduce4Sums(x: Lanes)
    requires |x| == 4
    ensures Reduce4(x) == LaneSum(x)
  {
    LaneSumFour(x);
  }

  // ---- the four methods ----

  method DotScalar(a: seq<real>, b: seq<real>) returns (sum: real)
    requires |a| == |b| < TWO32
    ensures sum == Dot(a, b)
  {
    sum := 0.0;
    var i := 0;
    while i < |a|
      invariant 0 <= i <= |a| && sum == Dot(a[..i], b[..i])
    {
      DotStep(a, b, i);
      sum := sum + a[i] * b[i];
      i := i + 1;
    }
    assert a[..|a|] == a && b[..|b|] == b;
  }

  // The tail loop the three vector methods share.
  method Tail(a: seq<real>, b: seq<real>, start: nat, block: real) returns (result: real)
    requires |a| == |b| && start <= |a| && block == Dot(a[..start], b[..start])
    ensures result == Dot(a, b)
  {
    result := block;
    var i := start;
    while i < |a|
      invariant start <= i <= |a| && result == Dot(a[..i], b[..i])
    {
      DotStep(a, b, i);
      result := result + a[i] * b[i];
      i := i + 1;
    }
    assert a[..|a|] == a && b[..|b|] == b;
  }

  // The vector loop is guarded by i + width <= dim in 32-bit arithmetic. The sum wraps at
  // some block start that the loop can reach exactly for the last width dimensions.
  lemma GuardWrapsIff(dim: U32, width: nat)
    requires width == 4 || width == 8 || width == 16
    ensures (exists i :: 0 <= i <= dim && i % width == 0 && i + width >= TWO32) <==> dim >= TWO32 - width
  {
    if dim >= TWO32 - width {
      var i := TWO32 - width;
      assert 0 <= i <= dim && i % width == 0 && i + width >= TWO32;
    }
  }

  // The vector loop: lane totals over whole blocks, and where the tail starts.
  method Blocks(a: seq<real>, b: seq<real>, width: nat) returns (acc: Lanes, i: nat)
    requires |a| == |b| < TWO32 - width && width > 0
    ensures |acc| == width && i <= |a| < i + width
    ensures LaneSum(acc) == Dot(a[..i], b[..i])
  {
    acc, i := SetZero(width), 0;
    LaneSumZero(width);
    while (i + width) % TWO32 <= |a|
      invariant i <= |a| && |acc| == width && LaneSum(acc) == Dot(a[..i], b[..i])
      decreases |a| - i
    {
      BlockStep(a, b, i, width, acc);
      acc := MulAdd(LoadU(a, i, width), LoadU(b, i, width), acc);
      i := i + width;
    }
  }

  method DotSse42(a: seq<real>, b: seq<real>) returns (result: real)
    requires |a| == |b| < TWO32 - 4
    ensures result == Dot(a, b)
  {
    var sum, i := Blocks(a, b, 4);
    Reduce4Sums(sum);
    var shuf := MoveHdup(sum);
    var sums := AddPs(sum, shuf);
    shuf := MoveHl(shuf, sums);
    sums := AddSs(sums, shuf);
    result := Tail(a, b, i, sums[0]);
  }

  method DotAvx2(a: seq<real>, b: seq<real>) returns (result: real)
    requires |a| == |b| < TWO32 - 8
    ensures result == Dot(a, b)
  {
    var sum, i := Blocks(a, b, 8);
    var hi, lo := sum[4..], sum[..4];
    var s := AddPs(hi, lo);
    assert sum == lo + hi;
    LaneSumConcat(lo, hi);
    LaneSumAdd(hi, lo);
    Reduce4Sums(s);
    var shuf := MoveHdup(s);
    var sums := AddPs(s, shuf);
    shuf := MoveHl(shuf, sums);
    sums := AddSs(sums, shuf);
    result := Tail(a, b, i, sums[0]);
  }

  method DotAvx512(a: seq<real>, b: seq<real>) returns (result: real)
    requires |a| == |b| < TWO32 - 16
    ensures result == Dot(a, b)
  {
    var sum, i := Blocks(a, b, 16);
    // _mm512_reduce_add_ps
    result := Tail(a, b, i, LaneSum(sum));
  }
}
