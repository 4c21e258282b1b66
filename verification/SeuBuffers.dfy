// Where the tree walker's context words and scores come from: both read paths deliver later
// than the walker stores (fpga/rtl/seu_tree.v:238-284, fpga/rtl/sppu_vecmem.v:61-63).
module SeuBuffers {
  import opened Words
  import opened Lfsr
  import opened Vecmem
  import opened SeuTree
  import opened SeuRuns

  // ---- context words ----

  // What context slot j holds after a run accepted from y in cycle e. The memory answers two
  // cycles after an address is issued, so slot j gets the word of slot j - 2, and the first
  // two slots get the word at the read address the previous run left behind.
  function ContextOf(y: System, e: Env, j: nat): Word
    requires SystemSized(y) && j < 8
  {
    if j >= 2 then Next(y, e).mem[Plus12(e.cfg.contextAddr, j - 2)]
    else if j == 1 then Next(y, e).mem[y.s.dAddr]
    else if e.cfg.contextAddr != 0 then y.mem[y.s.dAddr]
    else y.s.context[0]
  }

  ghost predicate ContextLoaded(y: System, e: Env, s: Regs, k: nat)
    requires SystemSized(y) && Sized(s)
  {
    forall j :: 0 <= j < k && j < 8 ==> s.context[j] == ContextOf(y, e, j)
  }

  ghost predicate LoadingContext(y: System, e: Env, z: System)
    requires SystemSized(y) && SystemSized(z)
  {
    var s, mem, t := z.s, Next(y, e).mem, z.s.cur.level;
    if s.ctl.phase == LoadContext then
      && z.mem == mem && !s.cPort.wen && ContextLoaded(y, e, s, t) && ContextKept(y, s, t)
      && (t == 0 ==> s.context[0] == y.s.context[0] && z.dRdata == y.mem[y.s.dAddr] && s.dAddr == y.s.dAddr)
      && (t == 1 ==> z.dRdata == mem[y.s.dAddr])
      && (t >= 1 ==> s.dAddr == Plus12(s.cfg.contextAddr, t - 1))
      && (t >= 2 ==> z.dRdata == mem[Plus12(s.cfg.contextAddr, t - 2)])
    else ContextLoaded(y, e, s, ContextCycles(s.cfg)) && ContextKept(y, s, ContextCycles(s.cfg))
  }

  // Slots from k on are those from before the run.
  ghost predicate ContextKept(y: System, s: Regs, k: int)
    requires SystemSized(y) && Sized(s)
  {
    forall j :: 0 <= j < 8 && k <= j ==> s.context[j] == y.s.context[j]
  }

  lemma {:induction false} LoadStep(y: System, e: Env, z: System, f: Env)
    requires SystemSized(y) && OnTime(z) && z.s.ctl.phase == LoadContext && z.s.cfg == e.cfg
    requires LoadingContext(y, e, z) && !f.reset && !f.dma.wen
    ensures LoadingContext(y, e, Next(z, f))
  {
    var s, s' := z.s, Next(z, f).s;
    var t := s.cur.level;
    assert s'.context[t] == ContextOf(y, e, t);
    assert ContextLoaded(y, e, s', t + 1);
    assert ContextKept(y, s', t + 1);
  }

  lemma {:induction false} NextLoads(y: System, e: Env, z: System, f: Env, z': System)
    requires SystemSized(y) && OnTime(z) && z.s.cfg == e.cfg && z' == Next(z, f)
    requires LoadingContext(y, e, z) && !f.reset && (Walks(z.s.ctl.phase) ==> !f.dma.wen)
    ensures LoadingContext(y, e, z')
  {
    if z.s.ctl.phase == LoadContext {
      LoadStep(y, e, z, f);
    } else {
      assert z'.s.context == z.s.context && z'.s.cfg == z.s.cfg;
    }
  }

  lemma {:induction false} RunLoadsContext(y: System, e: Env, env: seq<Env>)
    requires Accepted(y, e) && Calm(env) && |env| <= RunLength(Next(y, e).s)
    requires DmaIdleWhileWalking(Next(y, e), env)
    ensures LoadingContext(y, e, After(Next(y, e), env))
    decreases |env|
  {
    if env != [] {
      var front := env[..|env| - 1];
      FrontIdle(Next(y, e), env);
      RunLoadsContext(y, e, front);
      Latency(y, e, front);
      NextLoads(y, e, After(Next(y, e), front), env[|env| - 1], After(Next(y, e), env));
    }
  }

  // The whole tree in terms of what was there before the run: memory word tree_addr + i.
  lemma {:induction false} TreeFromMemory(y: System, e: Env, env: seq<Env>, i: nat)
    requires Accepted(y, e) && Calm(env) && DmaIdle(env) && Held(env, e.depth)
    requires |env| == RunLength(Next(y, e).s)
    requires i < EntryCount(e.depth, y.s.cfg.treeConfig) <= 16 && ContextLen(e.cfg.treeConfig) != 0
    ensures var level := LevelOf(i, Levels(e.depth));
      TokenIs(After(Next(y, e), env).mem[Plus12(e.cfg.treeAddr, i)],
              ContextOf(y, e, level % ContextLen(e.cfg.treeConfig)), e.cfg.offset, level)
  {
    TreeInMemory(y, e, env, i);
    RunLoadsContext(y, e, env);
    Latency(y, e, env);
  }

  // ---- scores ----

  // The score of entry i: the weight that was in the buffer before the run, and the i-th
  // state of the shift register seeded by the branch mask.
  function ScoreOf(before: seq<Word>, cfg: Config, levels: nat, i: nat): Word
    requires |before| == 16 && i < 16 && levels > 0
  {
    Diversified(before[i], HardIterate(i, HardSeed(cfg.branchMask)), LevelOf(i, levels), BranchOf(i, levels))
  }

  ghost predicate ScoredBelow(s: Regs, before: seq<Word>, levels: nat, k: nat)
    requires Sized(s) && |before| == 16 && levels > 0
  {
    forall i :: 0 <= i < k && i < 16 ==> s.scores[i] == ScoreOf(before, s.cfg, levels, i)
  }

  // Weights from k on are still those from before the run.
  ghost predicate Stale(s: Regs, before: seq<Word>, k: int)
    requires Sized(s) && |before| == 16
  {
    forall j :: 0 <= j < 16 && k <= j ==> s.weights[j] == before[j]
  }

  ghost predicate Scoring(s: Regs, before: seq<Word>, levels: nat)
    requires Sized(s) && |before| == 16 && levels > 0
  {
    match s.ctl.phase
    case LoadContext => s.lfsr == HardSeed(s.cfg.branchMask) && s.cur.idx == 0 && s.weights == before
    case LoadWeights =>
      && s.lfsr == HardIterate(s.cur.idx, HardSeed(s.cfg.branchMask))
      && Stale(s, before, s.cur.idx - 1) && ScoredBelow(s, before, levels, s.cur.idx)
    case Compute =>
      && s.lfsr == HardIterate(s.cur.idx, HardSeed(s.cfg.branchMask))
      && Stale(s, before, s.cur.idx) && ScoredBelow(s, before, levels, s.cur.idx)
    case _ => ScoredBelow(s, before, levels, Walked(s.cur)) && Stale(s, before, Walked(s.cur) - 1)
  }

  lemma {:induction false} ComputeScores(s: Regs, i: Inputs, before: seq<Word>, levels: nat)
    requires Sized(s) && s.ctl.phase == Compute && |before| == 16 && 2 <= levels <= 4
    requires Scoring(s, before, levels) && Traced(s, levels)
    ensures ScoredBelow(StepCompute(s, i), before, levels, s.cur.idx + 1)
  {
    var s', k := StepCompute(s, i), s.cur.idx;
    if k < 16 {
      assert s'.scores[k] == ScoreWord(s, i.x) == ScoreOf(before, s.cfg, levels, k);
    }
    assert forall j :: 0 <= j < k && j < 16 ==> s'.scores[j] == s.scores[j];
  }

  lemma {:induction false} ComputeKeepsScoring(s: Regs, i: Inputs, before: seq<Word>, levels: nat)
    requires Sized(s) && s.ctl.phase == Compute && |before| == 16 && levels == Levels(i.depth)
    requires Scoring(s, before, levels) && Traced(s, levels) && s.cur.idx < Walked(s.cur)
    ensures Scoring(StepCompute(s, i), before, levels)
  {
    ComputeScores(s, i, before, levels);
    CursorAdvances(s.cur, i.depth, levels);
    var s' := StepCompute(s, i);
    assert s'.weights == s.weights && s'.lfsr == HardIterate(s.cur.idx + 1, HardSeed(s.cfg.branchMask));
  }

  lemma {:induction false} WeightsKeepScoring(s: Regs, i: Inputs, before: seq<Word>, levels: nat)
    requires Sized(s) && s.ctl.phase == LoadWeights && |before| == 16 && 2 <= levels <= 4
    requires Scoring(s, before, levels)
    ensures Scoring(StepLoadWeights(s, i), before, levels)
  {
  }

  lemma {:induction false} ContextKeepsScoring(s: Regs, i: Inputs, before: seq<Word>, levels: nat)
    requires Sized(s) && s.ctl.phase == LoadContext && |before| == 16 && 2 <= levels <= 4
    requires Scoring(s, before, levels)
    ensures Scoring(StepLoadContext(s, i), before, levels)
  {
  }

  // After the walk nothing changes scores or weights.
  lemma {:induction false} TailKeepsScores(s: Regs, i: Inputs)
    requires Sized(s) && !Walks(s.ctl.phase) && s.ctl.phase != Idle && !i.reset
    ensures !Walks(Step(s, i).ctl.phase)
    ensures Step(s, i).scores == s.scores && Step(s, i).weights == s.weights && Step(s, i).cfg == s.cfg
    ensures Step(s, i).cur.total == s.cur.total
  {
    match s.ctl.phase {
      case EmbedSearch => assert Step(s, i) == StepEmbedSearch(s);
      case EmbedWait => assert Step(s, i) == StepEmbedWait(s, i);
      case ApplyWeights => assert Step(s, i) == StepApplyWeights(s, i);
      case WriteResults => assert Step(s, i) == StepWriteResults(s, i);
      case Validate => assert Step(s, i) == StepValidate(s);
      case Finish => assert Step(s, i) == StepFinish(s);
    }
  }

  lemma {:induction false} NextScoring(z: System, f: Env, before: seq<Word>, levels: nat)
    requires OnTime(z) && !f.reset && |before| == 16 && levels == Levels(f.depth)
    requires Scoring(z.s, before, levels) && Traced(z.s, levels)
    ensures Scoring(Next(z, f).s, before, levels)
  {
    if z.s.ctl.phase == Compute {
      ComputeKeepsScoring(z.s, Wire(z, f), before, levels);
    } else if z.s.ctl.phase == LoadWeights {
      WeightsKeepScoring(z.s, Wire(z, f), before, levels);
    } else if z.s.ctl.phase == LoadContext {
      ContextKeepsScoring(z.s, Wire(z, f), before, levels);
    } else {
      TailKeepsScores(z.s, Wire(z, f));
    }
  }

  // Every score of a run is built on the weight an earlier run left, never on the weight the
  // run itself fetches for the entry.
  lemma {:induction false} RunScores(y: System, e: Env, env: seq<Env>)
    requires Accepted(y, e) && Calm(env) && Held(env, e.depth) && |env| <= RunLength(Next(y, e).s)
    ensures Scoring(After(Next(y, e), env).s, y.s.weights, Levels(e.depth))
    decreases |env|
  {
    if env != [] {
      var front := env[..|env| - 1];
      RunScores(y, e, front);
      RunTraced(y, e, front);
      Latency(y, e, front);
      NextScoring(After(Next(y, e), front), env[|env| - 1], y.s.weights, Levels(e.depth));
    }
  }
}
