// The kernel driver in emulation mode: the search half of sppu_ioctl
// (kernel_module/sppu_driver.c). Each ioctl is one step; foreign failures are the
// SDK's business (Sdk.dfy). The result-score register holds an exact number.
module EmuDevice {
  import opened Words
  import opened DotProduct

  const STATUS_READY: U32 := 0
  const STATUS_BUSY: U32 := 1
  const STATUS_DONE: U32 := 2

  const CTRL_START: U32 := 1
  const CTRL_RESET: U32 := 2

  // The scores of the first count stored rows against the target.
  ghost function RowScores(mem: array2<real>, target: array<real>, count: nat, dim: nat): (s: seq<real>)
    requires count <= mem.Length0 && dim <= mem.Length1 && dim <= target.Length
    reads mem, target
    ensures |s| == count
    ensures forall i :: 0 <= i < count ==> s[i] == Dot(Row(mem, i, dim), target[..dim])
  {
    seq(count, i requires 0 <= i < count reads mem, target => Dot(Row(mem, i, dim), target[..dim]))
  }

  ghost function Row(mem: array2<real>, i: nat, dim: nat): (r: seq<real>)
    requires i < mem.Length0 && dim <= mem.Length1
    reads mem
    ensures |r| == dim && forall d :: 0 <= d < dim ==> r[d] == mem[i, d]
  {
    seq(dim, d requires 0 <= d < dim reads mem => mem[i, d])
  }

  class Device {
    // emu_regs, by name
    var ctrl: U32
    var status: U32
    var vecCount: U32
    var dimension: U32
    var resultIdx: U32
    var resultScore: real
    // emu_mem and emu_target
    const mem: array2<real>
    const target: array<real>

    ghost predicate Valid()
      reads this
    {
      && mem.Length0 == MAX_VECTORS && mem.Length1 == MAX_DIMENSION
      && target.Length == MAX_DIMENSION
      && dimension <= MAX_DIMENSION
    }

    // The result registers hold this outcome; index -1 reads as the all-ones word.
    ghost predicate ShowsBest(b: Best)
      reads this
    {
      resultScore == b.score && resultIdx == b.index % 0x1_0000_0000
    }

    constructor ()
      ensures Valid() && fresh(mem) && fresh(target)
      ensures status == 0
    {
      ctrl, status, vecCount, dimension, resultIdx, resultScore := 0, STATUS_READY, 0, 0, 0, 0.0;
      mem := new real[MAX_VECTORS, MAX_DIMENSION]((i, j) => 0.0);
      target := new real[MAX_DIMENSION](i => 0.0);
    }

    // The inner loop of sppu_emu_run_search
    method RowScore(i: nat, dim: nat) returns (dot: real)
      requires Valid() && i < MAX_VECTORS && dim <= MAX_DIMENSION
      ensures dot == Dot(Row(mem, i, dim), target[..dim])
    {
      ghost var row, wanted := Row(mem, i, dim), target[..dim];
      dot := 0.0;
      var d := 0;
      while d < dim
        invariant 0 <= d <= dim
        invariant dot == Dot(row[..d], wanted[..d])
      {
        DotStep(row, wanted, d);
        dot := dot + mem[i, d] * target[d];
        d := d + 1;
      }
      assert row[..dim] == row && wanted[..dim] == wanted;
    }

    // The outer loop of sppu_emu_run_search
    method ScanRows(count: nat, dim: nat) returns (bestIndex: int, maxScore: real)
      requires Valid() && count <= MAX_VECTORS && dim <= MAX_DIMENSION
      ensures Best(bestIndex, maxScore) == FirstMax(RowScores(mem, target, count, dim))
    {
      bestIndex, maxScore := -1, SENTINEL;
      ghost var scores := RowScores(mem, target, count, dim);
      var i := 0;
      while i < count
        invariant 0 <= i <= count
        invariant FirstMax(scores[..i]) == Best(bestIndex, maxScore)
      {
        var dot := RowScore(i, dim);
        FirstMaxStep(scores, i);
        if dot > maxScore {
          maxScore := dot;
          bestIndex := i;
        }
        i := i + 1;
      }
      assert scores[..count] == scores;
    }

    // sppu_emu_run_search. The driver reads vecCount rows unchecked; the array has 25.
    method RunSearch()
      requires Valid() && vecCount <= MAX_VECTORS
      modifies this`status, this`resultIdx, this`resultScore
      ensures status == 2
      ensures ShowsBest(FirstMax(RowScores(mem, target, vecCount, dimension)))
    {
      status := STATUS_BUSY;
      var bestIndex, maxScore := ScanRows(vecCount, dimension);
      Publish(Best(bestIndex, maxScore));
    }

    // The result registers, then the status
    method Publish(b: Best)
      modifies this`status, this`resultIdx, this`resultScore
      ensures status == 2 && ShowsBest(b)
    {
      resultIdx := ToU32(b.index);
      resultScore := b.score;
      status := STATUS_DONE;
    }

    // sppu_write32 on the control register
    method WriteCtrl(val: U32)
      requires Valid() && (val % 2 == 1 ==> vecCount <= MAX_VECTORS)
      modifies this`ctrl, this`status, this`resultIdx, this`resultScore
      ensures ctrl == val
      ensures val % 2 == 0 ==>
        status == old(status) && resultIdx == old(resultIdx) && resultScore == old(resultScore)
      ensures val % 2 == 1 ==> status == 2
      ensures val % 2 == 1 ==> ShowsBest(FirstMax(RowScores(mem, target, vecCount, dimension)))
    {
      ctrl := val;
      if val % 2 == 1 {
        RunSearch();
      }
    }

    // SPPU_IOCTL_RESET: in emulation only the control register is touched.
    method Reset()
      requires Valid()
      modifies this`ctrl, this`status, this`resultIdx, this`resultScore
      ensures ctrl == 0 && status == old(status)
      ensures resultIdx == old(resultIdx) && resultScore == old(resultScore)
    {
      WriteCtrl(CTRL_RESET);
      WriteCtrl(0);
    }

    // SPPU_IOCTL_SET_PARAM
    method SetParam(count: U32, dim: U32) returns (ok: bool)
      requires Valid()
      modifies this`vecCount, this`dimension
      ensures Valid() && ok == (dim <= 768)
      ensures ok ==> vecCount == count && dimension == dim
      ensures !ok ==> vecCount == old(vecCount) && dimension == old(dimension)
    {
      if dim > MAX_DIMENSION {
        return false;
      }
      vecCount, dimension := count, dim;
      return true;
    }

    // SPPU_IOCTL_LOAD_VEC: a short vector leaves the rest of its row as it was.
    method LoadVec(index: U32, data: seq<real>) returns (ok: bool)
      requires Valid()
      modifies mem
      ensures ok == (index < 25 && |data| <= 768)
      ensures ok ==> forall i, d :: 0 <= i < MAX_VECTORS && 0 <= d < MAX_DIMENSION ==>
        mem[i, d] == if i == index && d < |data| then data[d] else old(mem[i, d])
      ensures !ok ==> forall i, d :: 0 <= i < MAX_VECTORS && 0 <= d < MAX_DIMENSION ==>
        mem[i, d] == old(mem[i, d])
    {
      if index >= MAX_VECTORS || |data| > MAX_DIMENSION {
        return false;
      }
      forall d | 0 <= d < |data| {
        mem[index, d] := data[d];
      }
      return true;
    }

    // SPPU_IOCTL_SET_TARGET
    method SetTarget(data: seq<real>) returns (ok: bool)
      requires Valid()
      modifies target
      ensures ok == (|data| <= 768)
      ensures ok ==> target[..] == data + old(target[|data|..])
      ensures !ok ==> target[..] == old(target[..])
    {
      if |data| > MAX_DIMENSION {
        return false;
      }
      forall d | 0 <= d < |data| {
        target[d] := data[d];
      }
      return true;
    }

    // SPPU_IOCTL_START
    method Start()
      requires Valid() && vecCount <= MAX_VECTORS
      modifies this`ctrl, this`status, this`resultIdx, this`resultScore
      ensures status == 2
      ensures ShowsBest(FirstMax(RowScores(mem, target, vecCount, dimension)))
    {
      WriteCtrl(CTRL_START);
    }
  }
}
