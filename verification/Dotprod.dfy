// The dot-product engine's sweep (fpga/rtl/sppu_dotprod.v), one Step per clock with reset
// released. The multiply-accumulate is a stub in the source, so its operands are not part of
// this model; the accumulator and the comparison are.
module Dotprod {
  import opened Words

  const NO_INDEX: U32 := 0xFFFF_FFFF
  const MINUS_INF: U32 := 0x8000_0000

  datatype Phase = Idle | LoadTarget | Compute | Finish

  datatype Control = Control(phase: Phase, busy: bool, done: bool)
  datatype Config = Config(vecCount: U32, dimension: U32)
  datatype Position = Position(vec: U32, dim: U32)
  datatype Scored = Scored(idx: U32, score: U32)

  // best and result are best_idx/best_score and result_idx/result_score.
  datatype Regs = Regs(
    ctl: Control, cfg: Config, pos: Position, best: Scored, acc: U32,
    targetAddr: U12, vecAddr: U12, result: Scored)

  datatype Inputs = Inputs(start: bool, cfg: Config)

  function Signed(w: U32): int {
    if w >= 0x8000_0000 then w - TWO32 else w
  }

  lemma SignedIs(w: U32)
    ensures w < 0x8000_0000 ==> Signed(w) == w
    ensures w >= 0x8000_0000 ==> Signed(w) == w - 0x1_0000_0000
  {
  }

  // cur_vec[11:0] * dimension[11:0] + cur_dim[11:0], in twelve bits
  function VecAddress(p: Position, dimension: U32): U12 {
    ((p.vec % 4096) * (dimension % 4096) + p.dim % 4096) % 4096
  }

  predicate LastDim(s: Regs) {
    Add32(s.pos.dim, 1) >= s.cfg.dimension
  }

  predicate LastVec(s: Regs) {
    Add32(s.pos.vec, 1) >= s.cfg.vecCount
  }

  function StepIdle(s: Regs, i: Inputs): Regs {
    if i.start then
      s.(ctl := Control(LoadTarget, true, false), cfg := i.cfg, pos := Position(0, 0),
         best := Scored(NO_INDEX, MINUS_INF), acc := 0, targetAddr := 0)
    else s.(ctl := Control(Idle, s.ctl.busy, false))
  }

  function StepLoadTarget(s: Regs): Regs {
    if LastDim(s) then s.(ctl := Control(Compute, s.ctl.busy, false), pos := Position(0, 0))
    else
      s.(ctl := Control(LoadTarget, s.ctl.busy, false), pos := s.pos.(dim := Add32(s.pos.dim, 1)),
         targetAddr := (s.pos.dim % 4096 + 1) % 4096)
  }

  // The vector just finished is compared when the next one begins.
  function Compared(s: Regs, idx: U32): Scored {
    if Signed(s.acc) > Signed(s.best.score) then Scored(idx, s.acc) else s.best
  }

  predicate Begins(s: Regs) {
    s.pos.dim == 0 && s.pos.vec > 0
  }

  function NextPosition(s: Regs): Position {
    if !LastDim(s) then Position(s.pos.vec, Add32(s.pos.dim, 1))
    else if LastVec(s) then Position(s.pos.vec, 0)
    else Position(Add32(s.pos.vec, 1), 0)
  }

  function StepCompute(s: Regs): Regs {
    s.(ctl := Control(if LastDim(s) && LastVec(s) then Finish else Compute, s.ctl.busy, false),
       vecAddr := VecAddress(s.pos, s.cfg.dimension),
       best := if Begins(s) then Compared(s, Sub32(s.pos.vec, 1)) else s.best,
       acc := if Begins(s) then 0 else s.acc,
       pos := NextPosition(s))
  }

  // The result registers take the best from before this last comparison.
  function StepFinish(s: Regs): Regs {
    s.(ctl := Control(Idle, false, true), best := Compared(s, s.pos.vec),
       result := Scored(if s.best.idx == NO_INDEX then 0 else s.best.idx,
                        if Signed(s.best.score) <= Signed(MINUS_INF) then 0 else s.best.score))
  }

  function Step(s: Regs, i: Inputs): Regs {
    match s.ctl.phase
    case Idle => StepIdle(s, i)
    case LoadTarget => StepLoadTarget(s)
    case Compute => StepCompute(s)
    case Finish => StepFinish(s)
  }

  // The clocked block itself.
  class Engine {
    var ctl: Control
    var cfg: Config
    var pos: Position
    var best: Scored
    var acc: U32
    var targetAddr: U12
    var vecAddr: U12
    var result: Scored

    ghost function View(): Regs
      reads this
    {
      Regs(ctl, cfg, pos, best, acc, targetAddr, vecAddr, result)
    }

    constructor ()
      ensures ctl == Control(Idle, false, false) && acc == 0
    {
      ctl, cfg, pos := Control(Idle, false, false), Config(0, 0), Position(0, 0);
      best, acc, targetAddr, vecAddr, result := Scored(NO_INDEX, MINUS_INF), 0, 0, 0, Scored(0, 0);
    }

    method Clock(i: Inputs)
      modifies this
      ensures View() == Step(old(View()), i)
    {
      match ctl.phase {
        case Idle => ClockIdle(i);
        case LoadTarget => ClockLoadTarget();
        case Compute => ClockCompute();
        case Finish => ClockFinish();
      }
    }

    method ClockIdle(i: Inputs)
      requires ctl.phase == Idle
      modifies this
      ensures View() == StepIdle(old(View()), i)
    {
      if i.start {
        ctl, cfg, pos := Control(LoadTarget, true, false), i.cfg, Position(0, 0);
        best, acc, targetAddr := Scored(NO_INDEX, MINUS_INF), 0, 0;
      } else {
        ctl := Control(Idle, ctl.busy, false);
      }
    }

    method ClockLoadTarget()
      requires ctl.phase == LoadTarget
      modifies this
      ensures View() == StepLoadTarget(old(View()))
    {
      if Add32(pos.dim, 1) >= cfg.dimension {
        ctl, pos := Control(Compute, ctl.busy, false), Position(0, 0);
      } else {
        targetAddr := (pos.dim % 4096 + 1) % 4096;
        ctl, pos := Control(LoadTarget, ctl.busy, false), pos.(dim := Add32(pos.dim, 1));
      }
    }

    method ClockCompute()
      requires ctl.phase == Compute
      modifies this
      ensures View() == StepCompute(old(View()))
    {
      vecAddr := VecAddress(pos, cfg.dimension);
      CompareAtBoundary();
      var lastDim, lastVec := Add32(pos.dim, 1) >= cfg.dimension, Add32(pos.vec, 1) >= cfg.vecCount;
      ctl := Control(if lastDim && lastVec then Finish else Compute, ctl.busy, false);
      pos := if !lastDim then Position(pos.vec, Add32(pos.dim, 1))
             else if lastVec then Position(pos.vec, 0)
             else Position(Add32(pos.vec, 1), 0);
    }

    method CompareAtBoundary()
      modifies this`best, this`acc
      ensures best == if old(Begins(View())) then old(Compared(View(), Sub32(pos.vec, 1))) else old(best)
      ensures acc == if old(Begins(View())) then 0 else old(acc)
    {
      if pos.dim == 0 && pos.vec > 0 {
        if Signed(acc) > Signed(best.score) {
          best := Scored(Sub32(pos.vec, 1), acc);
        }
        acc := 0;
      }
    }

    method ClockFinish()
      requires ctl.phase == Finish
      modifies this
      ensures View() == StepFinish(old(View()))
    {
      result := Scored(if best.idx == NO_INDEX then 0 else best.idx,
                       if Signed(best.score) <= Signed(MINUS_INF) then 0 else best.score);
      if Signed(acc) > Signed(best.score) {
        best := Scored(pos.vec, acc);
      }
      ctl := Control(Idle, false, true);
    }
  }

  // ---- whole runs ----

  function After(s: Regs, ins: seq<Inputs>): Regs {
    if ins == [] then s else Step(After(s, ins[..|ins| - 1]), ins[|ins| - 1])
  }

  // The clocked engine does what the theorems say of After.
  method ClockAll(engine: Engine, ins: seq<Inputs>)
    modifies engine
    ensures engine.View() == After(old(engine.View()), ins)
  {
    var t := 0;
    while t < |ins|
      invariant 0 <= t <= |ins| && engine.View() == After(old(engine.View()), ins[..t])
    {
      assert ins[..t + 1][..t] == ins[..t];
      engine.Clock(ins[t]);
      t := t + 1;
    }
    assert ins[..t] == ins;
  }

  // Without a start the idle engine keeps everything but done, which goes low.
  lemma {:induction false} StaysIdle(s: Regs, ins: seq<Inputs>)
    requires s.ctl.phase == Idle && forall t :: 0 <= t < |ins| ==> !ins[t].start
    ensures After(s, ins) == if ins == [] then s else s.(ctl := Control(Idle, s.ctl.busy, false))
  {
    if ins != [] {
      StaysIdle(s, ins[..|ins| - 1]);
    }
  }

  // An empty count or dimension is swept as one.
  function Vecs(cfg: Config): nat {
    Max(1, cfg.vecCount)
  }

  function Dims(cfg: Config): nat {
    Max(1, cfg.dimension)
  }

  // Where the sweep is after n compute cycles.
  ghost predicate Visits(s: Regs, n: int)
  {
    s.pos.dim < Dims(s.cfg) && s.pos.vec < Vecs(s.cfg) && n == s.pos.vec * Dims(s.cfg) + s.pos.dim
  }

  // The state after t cycles of a run.
  ghost predicate OnSchedule(s: Regs, t: int) {
    var d, v := Dims(s.cfg), Vecs(s.cfg);
    match s.ctl.phase
    case LoadTarget => s.pos.vec == 0 && s.pos.dim == t < d && s.ctl.busy && !s.ctl.done && s.targetAddr == t % 4096
    case Compute => t >= d && Visits(s, t - d) && s.ctl.busy && !s.ctl.done
    case Finish => t == d + v * d && s.ctl.busy && !s.ctl.done && s.pos == Position(v - 1, 0)
    case Idle => t == d + v * d + 1 && !s.ctl.busy && s.ctl.done
  }

  lemma VisitAdvances(s: Regs, n: nat)
    requires s.ctl.phase == Compute && Visits(s, n)
    ensures if LastDim(s) && LastVec(s) then n + 1 == Vecs(s.cfg) * Dims(s.cfg) else Visits(StepCompute(s), n + 1)
  {
    var d := Dims(s.cfg);
    if LastDim(s) {
      assert s.pos.dim + 1 == d;
      assert (s.pos.vec + 1) * d == s.pos.vec * d + d;
    }
  }

  lemma LoadOnSchedule(s: Regs, t: nat)
    requires OnSchedule(s, t) && s.ctl.phase == LoadTarget
    ensures OnSchedule(StepLoadTarget(s), t + 1)
  {
    var d := Dims(s.cfg);
    assert 0 * d == 0;
    AddressStep(t);
  }

  lemma AddressStep(t: nat)
    ensures (t % 4096 + 1) % 4096 == (t + 1) % 4096
  {
  }

  lemma StepOnSchedule(s: Regs, i: Inputs, t: nat)
    requires OnSchedule(s, t) && s.ctl.phase != Idle
    ensures OnSchedule(Step(s, i), t + 1) && Step(s, i).cfg == s.cfg
  {
    if s.ctl.phase == Compute {
      VisitAdvances(s, t - Dims(s.cfg));
    } else if s.ctl.phase == LoadTarget {
      LoadOnSchedule(s, t);
    }
  }

  ghost predicate Accepted(s: Regs, i: Inputs) {
    s.ctl.phase == Idle && i.start
  }

  function RunLength(cfg: Config): nat {
    Dims(cfg) + Vecs(cfg) * Dims(cfg) + 1
  }

  // Every accepted start loads for one dimension's worth of cycles, computes in row-major
  // order over all vectors, and pulses done after exactly RunLength cycles.
  lemma {:induction false} Sweep(s: Regs, i: Inputs, ins: seq<Inputs>)
    requires Accepted(s, i) && |ins| <= RunLength(i.cfg)
    ensures After(Step(s, i), ins).cfg == i.cfg && OnSchedule(After(Step(s, i), ins), |ins|)
    decreases |ins|
  {
    if ins == [] {
    } else {
      var front := ins[..|ins| - 1];
      Sweep(s, i, front);
      StepOnSchedule(After(Step(s, i), front), ins[|ins| - 1], |front|);
    }
  }

  lemma MulGap(a: nat, b: nat, d: nat)
    requires a < b
    ensures a * d + d <= b * d
  {
    var gap := b - a - 1;
    assert (a + 1 + gap) * d == a * d + d + gap * d;
  }

  lemma DivUnique(n: nat, d: nat, v: nat, k: nat)
    requires d > 0 && k < d && n == v * d + k
    ensures n / d == v && n % d == k
  {
    var q := n / d;
    if q > v {
      MulGap(v, q, d);
    } else if q < v {
      MulGap(q, v, d);
    }
  }

  // Cycle t of a run computes vector v at dimension k.
  ghost predicate VisitsAt(s: Regs, ins: seq<Inputs>, t: nat, v: nat, k: nat)
    requires t <= |ins|
  {
    var z := After(s, ins[..t]);
    z.ctl.phase == Compute && z.pos.vec == v && z.pos.dim == k
  }

  lemma SamePosition(d: nat, v: nat, k: nat, v': nat, k': nat)
    requires d > 0 && k < d && k' < d && v * d + k == v' * d + k'
    ensures v == v' && k == k'
  {
    DivUnique(v * d + k, d, v, k);
    DivUnique(v' * d + k', d, v', k');
  }

  lemma LastCycleLater(d: nat, v: nat, k: nat, vecs: nat)
    requires v < vecs && k < d
    ensures v * d + k < vecs * d
  {
    MulGap(v, vecs, d);
  }

  lemma OtherPhase(z: Regs, t: nat, n: nat)
    requires OnSchedule(z, t) && z.ctl.phase != Compute && n < Vecs(z.cfg) * Dims(z.cfg)
    ensures t != Dims(z.cfg) + n
  {
  }

  lemma ComputePhase(z: Regs, t: nat, v: nat, k: nat)
    requires OnSchedule(z, t) && z.ctl.phase == Compute && k < Dims(z.cfg)
    ensures z.pos.vec == v && z.pos.dim == k <==> t == Dims(z.cfg) + (v * Dims(z.cfg) + k)
  {
    if t == Dims(z.cfg) + (v * Dims(z.cfg) + k) {
      SamePosition(Dims(z.cfg), v, k, z.pos.vec, z.pos.dim);
    }
  }

  lemma ScheduledVisit(z: Regs, t: nat, v: nat, k: nat)
    requires OnSchedule(z, t) && v < Vecs(z.cfg) && k < Dims(z.cfg)
    ensures z.ctl.phase == Compute && z.pos.vec == v && z.pos.dim == k <==> t == Dims(z.cfg) + (v * Dims(z.cfg) + k)
  {
    if z.ctl.phase == Compute {
      ComputePhase(z, t, v, k);
    } else {
      LastCycleLater(Dims(z.cfg), v, k, Vecs(z.cfg));
      OtherPhase(z, t, v * Dims(z.cfg) + k);
    }
  }

  lemma VisitIff(s: Regs, i: Inputs, ins: seq<Inputs>, t: nat, v: nat, k: nat)
    requires Accepted(s, i) && |ins| == RunLength(i.cfg) && v < Vecs(i.cfg) && k < Dims(i.cfg) && t <= |ins|
    ensures VisitsAt(Step(s, i), ins, t, v, k) <==> t == Dims(i.cfg) + (v * Dims(i.cfg) + k)
  {
    Sweep(s, i, ins[..t]);
    ScheduledVisit(After(Step(s, i), ins[..t]), t, v, k);
  }

  // A run visits each pair of a vector and a dimension in exactly one cycle, and in this order.
  lemma VisitedOnce(s: Regs, i: Inputs, ins: seq<Inputs>, v: nat, k: nat)
    requires Accepted(s, i) && |ins| == RunLength(i.cfg) && v < Vecs(i.cfg) && k < Dims(i.cfg)
    ensures Dims(i.cfg) + (v * Dims(i.cfg) + k) < |ins|
    ensures forall t :: 0 <= t <= |ins| ==>
      (VisitsAt(Step(s, i), ins, t, v, k) <==> t == Dims(i.cfg) + (v * Dims(i.cfg) + k))
  {
    LastCycleLater(Dims(i.cfg), v, k, Vecs(i.cfg));
    forall t | 0 <= t <= |ins|
      ensures VisitsAt(Step(s, i), ins, t, v, k) <==> t == Dims(i.cfg) + (v * Dims(i.cfg) + k)
    {
      VisitIff(s, i, ins, t, v, k);
    }
  }

  lemma ModDifference(x: int, y: int, k: int)
    requires x - y == 4096 * k
    ensures x % 4096 == y % 4096
  {
  }

  // Cutting the operands to twelve bits does not change the address.
  lemma AddressIsCycle(p: Position, dimension: U32, n: nat)
    requires n == p.vec * dimension + p.dim
    ensures VecAddress(p, dimension) == n % 4096
  {
    var a, qa := p.vec % 4096, p.vec / 4096;
    var b, qb := dimension % 4096, dimension / 4096;
    var c, qc := p.dim % 4096, p.dim / 4096;
    assert p.vec * dimension == a * b + 4096 * (qa * dimension + a * qb) by {
      assert p.vec == 4096 * qa + a && dimension == 4096 * qb + b;
      assert p.vec * dimension == 4096 * (qa * dimension) + a * dimension;
      assert a * dimension == 4096 * (a * qb) + a * b;
    }
    ModDifference(n, a * b + c, qa * dimension + a * qb + qc);
  }

  // In the n-th compute cycle of a run of vectors with dimensions the engine reads word n of
  // the vector memory, modulo its size.
  lemma NthAddress(s: Regs, i: Inputs, ins: seq<Inputs>, j: Inputs, n: nat)
    requires Accepted(s, i) && i.cfg.dimension > 0 && n < Vecs(i.cfg) * i.cfg.dimension
    requires |ins| == i.cfg.dimension + n
    ensures After(Step(s, i), ins).ctl.phase == Compute
    ensures After(Step(s, i), ins + [j]).vecAddr == n % 4096
  {
    Sweep(s, i, ins);
    var z := After(Step(s, i), ins);
    assert (ins + [j])[..|ins|] == ins;
    AddressIsCycle(z.pos, i.cfg.dimension, n);
  }

  // In load cycle t the engine reads target word t, modulo 4096, and then begins to compute.
  lemma TargetAddress(s: Regs, i: Inputs, ins: seq<Inputs>)
    requires Accepted(s, i) && |ins| < Dims(i.cfg)
    ensures After(Step(s, i), ins).ctl.phase == LoadTarget && After(Step(s, i), ins).targetAddr == |ins| % 4096
  {
    LoadsFirst(i.cfg);
    Sweep(s, i, ins);
  }

  lemma LoadsFirst(cfg: Config)
    ensures Dims(cfg) < RunLength(cfg)
  {
    assert Vecs(cfg) * Dims(cfg) >= 0;
  }

  // ---- what is reported ----

  // The accumulator never leaves zero, so the first comparison takes vector 0 with score
  // zero and no later one replaces it.
  ghost predicate Unscored(s: Regs) {
    && s.acc == 0
    && match s.ctl.phase
       case Idle => s.result == Scored(0, 0)
       case LoadTarget => s.best == Scored(0xFFFF_FFFF, 0x8000_0000)
       case Compute => s.best == Scored(0, 0)
         || (s.best == Scored(0xFFFF_FFFF, 0x8000_0000) && (s.pos.vec == 0 || s.pos == Position(1, 0)))
       case Finish => s.best == Scored(0, 0) || s.best == Scored(0xFFFF_FFFF, 0x8000_0000)
  }

  lemma StepUnscored(s: Regs, i: Inputs)
    requires Unscored(s) && s.ctl.phase != Idle
    ensures Unscored(Step(s, i))
  {
  }

  // Whatever the vectors, every run reports index 0 and score 0.
  lemma {:induction false} AlwaysReportsZero(s: Regs, i: Inputs, ins: seq<Inputs>)
    requires Accepted(s, i) && |ins| <= RunLength(i.cfg)
    ensures Unscored(After(Step(s, i), ins))
    ensures |ins| == RunLength(i.cfg) ==> After(Step(s, i), ins).result == Scored(0, 0)
    decreases |ins|
  {
    Sweep(s, i, ins);
    if ins != [] {
      var front := ins[..|ins| - 1];
      AlwaysReportsZero(s, i, front);
      Sweep(s, i, front);
      NotIdleYet(After(Step(s, i), front), i.cfg, |front|);
      StepUnscored(After(Step(s, i), front), ins[|ins| - 1]);
    }
    if |ins| == RunLength(i.cfg) {
      IdleAtEnd(After(Step(s, i), ins), i.cfg);
    }
  }

  lemma NotIdleYet(s: Regs, cfg: Config, t: nat)
    requires s.cfg == cfg && OnSchedule(s, t) && t < RunLength(cfg)
    ensures s.ctl.phase != Idle
  {
  }

  lemma IdleAtEnd(s: Regs, cfg: Config)
    requires s.cfg == cfg && OnSchedule(s, RunLength(cfg))
    ensures s.ctl.phase == Idle
  {
    var d, v := Dims(cfg), Vecs(cfg);
    if s.ctl.phase == Compute {
      MulGap(s.pos.vec, v, d);
    } else if s.ctl.phase == LoadTarget {
      MulGap(0, v, d);
    }
  }
}
