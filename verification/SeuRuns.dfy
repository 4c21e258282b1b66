// Whole runs of the tree walker with the vector memory and the top level's embedding-search
// responder (fpga/rtl/seu_tree.v, sppu_vecmem.v, sppu_top.v).
module SeuRuns {
  import opened Words
  import opened Vecmem
  import opened SeuTree

  // embed_done_reg, embed_idx_reg, embed_score_reg of the top level
  datatype Responder = Responder(done: bool, idx: U32, score: Word)

  datatype System = System(s: Regs, mem: seq<Word>, dRdata: Word, emb: Responder)

  // What the walker does not drive: its control and configuration inputs, the DMA's write
  // port, and unknown values.
  datatype Env = Env(start: bool, reset: bool, depth: U32, cfg: Config, dma: WritePort, x: Word)

  ghost predicate SystemSized(y: System) {
    Sized(y.s) && |y.mem| == DEPTH
  }

  function Wire(y: System, e: Env): Inputs {
    Inputs(e.start, e.reset, e.depth, e.cfg, y.dRdata, y.emb.done, y.emb.idx, y.emb.score, e.x)
  }

  // The responder answers one cycle after the pulse, always with index 0 and score 1.0.
  function Respond(r: Responder, start: bool): Responder {
    if start then Responder(true, 0, 0x3F80_0000) else r.(done := false)
  }

  function Next(y: System, e: Env): (y': System)
    requires SystemSized(y)
    ensures SystemSized(y')
  {
    System(Step(y.s, Wire(y, e)), MemStep(y.mem, e.dma, y.s.cPort), y.mem[y.s.dAddr],
           Respond(y.emb, y.s.emb.start))
  }

  function After(y: System, env: seq<Env>): (y': System)
    requires SystemSized(y)
    ensures SystemSized(y')
  {
    if env == [] then y else Next(After(y, env[..|env| - 1]), env[|env| - 1])
  }

  // No reset during the run.
  ghost predicate Calm(env: seq<Env>) {
    forall t :: 0 <= t < |env| ==> !env[t].reset
  }

  // ---- latency ----

  // Entries walked: none at all is walked as one.
  function Walked(cur: Cursor): nat {
    Max(1, cur.total)
  }

  function ContextCycles(cfg: Config): nat {
    Max(1, ContextLen(cfg.treeConfig))
  }

  function EmbedCycles(cfg: Config): nat {
    if Embeds(cfg) then 4 else 0
  }

  function RunLength(s: Regs): nat {
    ContextCycles(s.cfg) + 3 * Walked(s.cur) + EmbedCycles(s.cfg) + 2
  }

  // Cycles from here until done.
  function Left(y: System): int {
    var s, n := y.s, Walked(y.s.cur);
    match s.ctl.phase
    case Idle => 0
    case LoadContext => ContextCycles(s.cfg) - s.cur.level + 3 * n + EmbedCycles(s.cfg) + 2
    case LoadWeights => 2 * (n - s.cur.idx) + n + EmbedCycles(s.cfg) + 2
    case Compute => 2 * (n - s.cur.idx) - 1 + n + EmbedCycles(s.cfg) + 2
    case EmbedSearch => 4 + n + 2
    case EmbedWait => (if y.emb.done then 2 else 3) + n + 2
    case ApplyWeights => 1 + n + 2
    case WriteResults => n - s.cur.idx + 2
    case Validate => 2
    case Finish => 1
  }

  // What keeps a run on schedule: counters in range, and the search pulse and its answer
  // one cycle apart.
  ghost predicate OnTime(y: System) {
    var s := y.s;
    && SystemSized(y) && s.ctl.busy && !s.ctl.done && !s.ctl.irq && s.st.status == 1
    && (s.ctl.phase != EmbedWait ==> !s.emb.start)
    && (!Walks(s.ctl.phase) ==> s.cur.variant == 0 && s.cur.level == 0)
    && match s.ctl.phase
       case Idle => false
       case LoadContext => s.cur.level < ContextCycles(s.cfg) && s.cur.idx == 0
       case LoadWeights => s.cur.idx < Walked(s.cur)
       case Compute => s.cur.idx < Walked(s.cur)
       case EmbedSearch => s.cur.idx == 0 && Embeds(s.cfg)
       case EmbedWait => s.cur.idx == 0 && s.emb.start == !y.emb.done && Embeds(s.cfg) && Searches(s.emb, s.cfg)
       case ApplyWeights => s.cur.idx == 0 && Embeds(s.cfg)
       case WriteResults => s.cur.idx < Walked(s.cur)
       case Validate => true
       case Finish => true
  }

  // A search for the configured branches, from the configured address
  ghost predicate Searches(emb: EmbedPort, cfg: Config) {
    emb.queryAddr == cfg.embedAddr && emb.vecCount == MaxBranches(cfg.treeConfig)
  }

  // Idle with nothing pending
  ghost predicate AtRest(s: Regs) {
    Sized(s) && s.ctl.phase == Idle && !s.ctl.busy && !s.cPort.wen && !s.emb.start
  }

  lemma FrontOnTime(y: System, e: Env)
    requires OnTime(y) && !e.reset
    requires y.s.ctl.phase == LoadContext || y.s.ctl.phase == LoadWeights || y.s.ctl.phase == Compute
    ensures OnTime(Next(y, e)) && Left(Next(y, e)) == Left(y) - 1
    ensures Next(y, e).s.cfg == y.s.cfg && Next(y, e).s.cur.total == y.s.cur.total
  {
  }

  lemma NextOnTime(y: System, e: Env)
    requires OnTime(y) && !e.reset && y.s.ctl.phase != Finish
    ensures OnTime(Next(y, e)) && Left(Next(y, e)) == Left(y) - 1
    ensures Next(y, e).s.cfg == y.s.cfg && Next(y, e).s.cur.total == y.s.cur.total
  {
    if y.s.ctl.phase == LoadContext || y.s.ctl.phase == LoadWeights || y.s.ctl.phase == Compute {
      FrontOnTime(y, e);
    }
  }

  // A start taken while idle.
  ghost predicate Accepted(y: System, e: Env) {
    SystemSized(y) && y.s.ctl.phase == Idle && e.start && !e.reset
  }

  // Every accepted start, in every configuration, is busy for exactly RunLength cycles and
  // then pulses done, if it is not reset; inputs that change meanwhile make no difference.
  lemma {:induction false} Latency(y: System, e: Env, env: seq<Env>)
    requires Accepted(y, e) && Calm(env) && |env| <= RunLength(Next(y, e).s)
    ensures var z := After(Next(y, e), env);
      if |env| == RunLength(Next(y, e).s)
      then z.s.ctl == Control(Idle, false, true, true) && AtRest(z.s)
           && z.s.st == Status(2, z.s.cur.total, z.s.cur.total)
      else OnTime(z) && Left(z) == RunLength(Next(y, e).s) - |env|
    ensures After(Next(y, e), env).s.cfg == e.cfg
    ensures After(Next(y, e), env).s.cur.total == EntryCount(e.depth, y.s.cfg.treeConfig)
    decreases |env|
  {
    if env != [] {
      var front := env[..|env| - 1];
      Latency(y, e, front);
      var z := After(Next(y, e), front);
      LeftOne(z);
      if z.s.ctl.phase != Finish {
        NextOnTime(z, env[|env| - 1]);
      }
    }
  }

  // How long that is, field by field of the two configurations: the new context length and
  // addresses, the old number of branches.
  lemma RunLengthIs(y: System, e: Env)
    requires Accepted(y, e)
    ensures var o, n := y.s.cfg.treeConfig, e.cfg.treeConfig;
      var context := if n / 16 % 16 == 0 then 1 else n / 16 % 16 % 8;
      var levels := if e.depth <= 2 then 2 else if e.depth == 3 then 3 else 4;
      var entries := levels * (if o % 16 == 0 then 16 else o % 16) % 32;
      RunLength(Next(y, e).s) == (if context == 0 then 1 else context) + 3 * (if entries == 0 then 1 else entries)
        + (if n / 256 % 2 == 1 && e.cfg.embedAddr != 0 then 4 else 0) + 2
  {
    CountIs(e.depth, y.s.cfg.treeConfig);
  }

  // The one search of a run that embeds starts this many cycles into it; no other run starts
  // one.
  lemma SearchesOnce(y: System, e: Env, env: seq<Env>)
    requires Accepted(y, e) && Calm(env) && |env| <= RunLength(Next(y, e).s)
    ensures var z, s := After(Next(y, e), env), Next(y, e).s;
      && (z.s.emb.start <==> Embeds(e.cfg) && |env| == ContextCycles(s.cfg) + 3 * Walked(s.cur) - Walked(s.cur) + 1)
      && (z.s.emb.start ==> Searches(z.s.emb, e.cfg))
  {
    Latency(y, e, env);
  }

  // The last busy cycle is the finishing one.
  lemma LeftOne(y: System)
    requires OnTime(y)
    ensures Left(y) >= 1 && (Left(y) == 1 <==> y.s.ctl.phase == Finish)
  {
  }

  // ---- between runs ----

  // Without a start the walker stays at rest: done and the interrupt go low, nothing else
  // moves, and memory keeps every word.
  lemma {:induction false} StaysAtRest(y: System, env: seq<Env>)
    requires SystemSized(y) && AtRest(y.s) && Calm(env)
    requires forall t :: 0 <= t < |env| ==> !env[t].start && !env[t].dma.wen
    ensures After(y, env).mem == y.mem
    ensures After(y, env).s == if env == [] then y.s else y.s.(ctl := Control(Idle, false, false, false))
  {
    if env != [] {
      StaysAtRest(y, env[..|env| - 1]);
    }
  }

  // A reset in any cycle, also in the middle of a run, ends at rest with nothing reported; the
  // latched configuration stays, so the next run counts its entries from it.
  lemma ResetRests(y: System, env: seq<Env>, e: Env)
    requires SystemSized(y) && e.reset
    ensures (env + [e])[..|env|] == env
    ensures var z, z' := After(y, env).s, After(y, env + [e]).s;
      && AtRest(z') && !z'.ctl.done && !z'.ctl.irq && z'.res == Results({}, 0, 0) && z'.pathValid == {}
      && z'.st.status == 0 && z'.st.count == 0
      && z'.cfg == z.cfg && z'.context == z.context && z'.weights == z.weights
      && z'.tokens == z.tokens && z'.scores == z.scores
  {
    assert (env + [e])[..|env|] == env;
  }

  // ---- what a run computes ----

  function LevelOf(i: nat, levels: nat): nat
    requires levels > 0
  {
    i % levels
  }

  function BranchOf(i: nat, levels: nat): nat
    requires levels > 0
  {
    i / levels
  }

  // Two to four levels: the level wraps, and the branch then moves on.
  ghost predicate Successive(i: nat, levels: nat)
    requires levels > 0
  {
    && LevelOf(i, levels) < levels
    && (if LevelOf(i, levels) + 1 == levels
        then LevelOf(i + 1, levels) == 0 && BranchOf(i + 1, levels) == BranchOf(i, levels) + 1
        else LevelOf(i + 1, levels) == LevelOf(i, levels) + 1 && BranchOf(i + 1, levels) == BranchOf(i, levels))
    && (i < 32 ==> BranchOf(i, levels) < 16)
  }

  lemma NextPosition2(i: nat)
    ensures Successive(i, 2)
  {
  }

  lemma NextPosition3(i: nat)
    ensures Successive(i, 3)
  {
  }

  lemma NextPosition4(i: nat)
    ensures Successive(i, 4)
  {
  }

  lemma NextPosition(i: nat, levels: nat)
    requires 2 <= levels <= 4
    ensures Successive(i, levels)
  {
    if levels == 2 {
      NextPosition2(i);
    } else if levels == 3 {
      NextPosition3(i);
    } else {
      NextPosition4(i);
    }
  }

  // The token of entry i: a context word, cycled through by level, xored with the offset
  // shifted by the level.
  function TokenOf(context: seq<Word>, cfg: Config, levels: nat, i: nat): Word
    requires |context| == 8 && levels > 0 && ContextLen(cfg.treeConfig) != 0
  {
    context[LevelOf(i, levels) % ContextLen(cfg.treeConfig)] ^ Shl(cfg.offset, LevelOf(i, levels))
  }

  // Entries below k hold their tokens, and are valid as their branch is masked in. A context
  // length of eight reads as zero, and leaves the tokens unknown.
  ghost predicate Entries(s: Regs, levels: nat, k: nat)
    requires Sized(s) && levels > 0
  {
    forall i :: 0 <= i < k && i < 16 ==>
      && (i in s.pathValid <==> BranchOf(i, levels) in s.cfg.branchMask)
      && (ContextLen(s.cfg.treeConfig) != 0 ==> s.tokens[i] == TokenOf(s.context, s.cfg, levels, i))
  }

  // cur_idx = cur_variant * levels + cur_level while the entries are computed.
  ghost predicate Traced(s: Regs, levels: nat)
    requires Sized(s) && levels > 0
  {
    match s.ctl.phase
    case LoadContext => s.cur.variant == 0 && s.cur.idx == 0
    case LoadWeights =>
      s.cur.level == LevelOf(s.cur.idx, levels) && s.cur.variant == BranchOf(s.cur.idx, levels)
      && Entries(s, levels, s.cur.idx)
    case Compute =>
      s.cur.level == LevelOf(s.cur.idx, levels) && s.cur.variant == BranchOf(s.cur.idx, levels)
      && Entries(s, levels, s.cur.idx)
    case _ => Entries(s, levels, Walked(s.cur))
  }

  // The entry being computed gets its own token and validity.
  lemma EntryComputed(s: Regs, i: Inputs, levels: nat)
    requires Sized(s) && s.ctl.phase == Compute && levels == Levels(i.depth) && Traced(s, levels)
    requires s.cur.idx < 16
    ensures var s', k := StepCompute(s, i), s.cur.idx;
      && (k in s'.pathValid <==> BranchOf(k, levels) in s.cfg.branchMask)
      && (ContextLen(s.cfg.treeConfig) != 0 ==> s'.tokens[k] == TokenOf(s.context, s.cfg, levels, k))
  {
  }

  lemma ComputeTraced(s: Regs, i: Inputs, levels: nat)
    requires Sized(s) && s.ctl.phase == Compute && levels == Levels(i.depth) && Traced(s, levels)
    ensures Entries(StepCompute(s, i), levels, s.cur.idx + 1)
  {
    if s.cur.idx < 16 {
      EntryComputed(s, i, levels);
    }
    var s' := StepCompute(s, i);
    assert s'.context == s.context && s'.cfg == s.cfg;
    assert forall k :: 0 <= k < s.cur.idx && k < 16 ==> s'.tokens[k] == s.tokens[k];
  }

  lemma CursorAdvances(cur: Cursor, depth: U32, levels: nat)
    requires levels == Levels(depth) && cur.idx < Walked(cur)
    requires cur.level == LevelOf(cur.idx, levels) && cur.variant == BranchOf(cur.idx, levels)
    ensures LastEntry(cur) <==> cur.idx + 1 == Walked(cur)
    ensures !LastEntry(cur) ==> var c := NextCursor(cur, depth);
      c.idx == cur.idx + 1 && c.level == LevelOf(c.idx, levels) && c.variant == BranchOf(c.idx, levels)
  {
    NextPosition(cur.idx, levels);
    NextPosition(cur.idx + 1, levels);
  }

  lemma ComputeKeepsTraced(s: Regs, i: Inputs, levels: nat)
    requires Sized(s) && s.ctl.phase == Compute && levels == Levels(i.depth) && Traced(s, levels)
    requires s.cur.idx < Walked(s.cur)
    ensures Traced(StepCompute(s, i), levels)
  {
    ComputeTraced(s, i, levels);
    CursorAdvances(s.cur, i.depth, levels);
  }

  lemma NextTraced(y: System, e: Env, levels: nat)
    requires OnTime(y) && !e.reset && levels == Levels(e.depth) && Traced(y.s, levels)
    ensures Traced(Next(y, e).s, levels)
  {
    var s, s' := y.s, Next(y, e).s;
    if s.ctl.phase == Compute {
      ComputeKeepsTraced(s, Wire(y, e), levels);
    } else if s.ctl.phase == LoadContext {
      NextPosition(0, levels);
    } else {
      assert s'.tokens == s.tokens && s'.pathValid == s.pathValid && s'.context == s.context;
    }
  }

  // The depth input does not move during the run.
  ghost predicate Held(env: seq<Env>, depth: U32) {
    forall t :: 0 <= t < |env| ==> env[t].depth == depth
  }

  // In every cycle of a run with the depth held, the cursor is where the entry index says,
  // and every finished entry below 16 holds its token and validity.
  lemma {:induction false} RunTraced(y: System, e: Env, env: seq<Env>)
    requires Accepted(y, e) && Calm(env) && Held(env, e.depth) && |env| <= RunLength(Next(y, e).s)
    ensures Traced(After(Next(y, e), env).s, Levels(e.depth))
    decreases |env|
  {
    if env != [] {
      var front := env[..|env| - 1];
      RunTraced(y, e, front);
      Latency(y, e, front);
      NextTraced(After(Next(y, e), front), env[|env| - 1], Levels(e.depth));
    }
  }

  // ---- the weight pipeline ----

  // Weights below k hold the memory words from the node base on.
  ghost predicate Fetched(s: Regs, mem: seq<Word>, k: int)
    requires Sized(s) && |mem| == DEPTH
  {
    forall j :: 0 <= j < k && j < 16 ==> s.weights[j] == mem[Plus12(s.cfg.nodeBase, j)]
  }

  // The read issued in one weights state arrives in the next, two cycles later.
  ghost predicate Aligned(y: System, mem: seq<Word>)
    requires SystemSized(y) && |mem| == DEPTH
  {
    var s := y.s;
    match s.ctl.phase
    case LoadContext => s.cur.idx == 0 && y.mem == mem && !s.cPort.wen
    case LoadWeights =>
      && y.mem == mem && !s.cPort.wen && Fetched(s, mem, s.cur.idx - 1)
      && (s.cur.idx > 0 ==> y.dRdata == mem[Plus12(s.cfg.nodeBase, s.cur.idx - 1)])
    case Compute =>
      && y.mem == mem && !s.cPort.wen && Fetched(s, mem, s.cur.idx)
      && s.dAddr == Plus12(s.cfg.nodeBase, s.cur.idx)
    case _ => Fetched(s, mem, Walked(s.cur) - 1)
  }

  lemma WeightsAligned(y: System, e: Env, mem: seq<Word>)
    requires OnTime(y) && !e.reset && |mem| == DEPTH && Aligned(y, mem) && !e.dma.wen
    requires y.s.ctl.phase == LoadWeights
    ensures Aligned(Next(y, e), mem)
  {
  }

  lemma ComputeAligned(y: System, e: Env, mem: seq<Word>)
    requires OnTime(y) && !e.reset && |mem| == DEPTH && Aligned(y, mem) && !e.dma.wen
    requires y.s.ctl.phase == Compute
    ensures Aligned(Next(y, e), mem)
  {
    assert Next(y, e).s.weights == y.s.weights;
  }

  predicate Walks(phase: Phase) {
    phase == LoadContext || phase == LoadWeights || phase == Compute
  }

  lemma NextAligned(y: System, e: Env, mem: seq<Word>)
    requires OnTime(y) && !e.reset && |mem| == DEPTH && Aligned(y, mem)
    requires Walks(y.s.ctl.phase) ==> !e.dma.wen
    ensures Aligned(Next(y, e), mem)
  {
    if y.s.ctl.phase == LoadWeights {
      WeightsAligned(y, e, mem);
    } else if y.s.ctl.phase == Compute {
      ComputeAligned(y, e, mem);
    } else if y.s.ctl.phase != LoadContext {
      assert Next(y, e).s.weights == y.s.weights;
    }
  }

  // The DMA writes nothing while the tree is walked.
  ghost predicate DmaIdleWhileWalking(y: System, env: seq<Env>)
    requires SystemSized(y)
  {
    forall t :: 0 <= t < |env| && Walks(After(y, env[..t]).s.ctl.phase) ==> !env[t].dma.wen
  }

  lemma FrontIdle(y: System, env: seq<Env>)
    requires SystemSized(y) && env != [] && DmaIdleWhileWalking(y, env)
    ensures DmaIdleWhileWalking(y, env[..|env| - 1])
  {
    var front := env[..|env| - 1];
    forall t | 0 <= t < |front| && Walks(After(y, front[..t]).s.ctl.phase) ensures !front[t].dma.wen {
      assert front[..t] == env[..t];
    }
  }

  lemma {:induction false} RunAligned(y: System, e: Env, env: seq<Env>)
    requires Accepted(y, e) && Calm(env) && |env| <= RunLength(Next(y, e).s)
    requires DmaIdleWhileWalking(Next(y, e), env)
    ensures Aligned(After(Next(y, e), env), Next(y, e).mem)
    decreases |env|
  {
    if env != [] {
      var front := env[..|env| - 1];
      FrontIdle(Next(y, e), env);
      RunAligned(y, e, front);
      Latency(y, e, front);
      NextAligned(After(Next(y, e), front), env[|env| - 1], Next(y, e).mem);
    }
  }

  // After a run the weight buffer holds the memory words from the node base on, except for
  // the last entry, whose word is never stored.
  lemma WeightsAfterRun(y: System, e: Env, env: seq<Env>)
    requires Accepted(y, e) && Calm(env) && |env| == RunLength(Next(y, e).s)
    requires DmaIdleWhileWalking(Next(y, e), env)
    ensures Fetched(After(Next(y, e), env).s, Next(y, e).mem, EntryCount(e.depth, y.s.cfg.treeConfig) - 1)
  {
    Latency(y, e, env);
    RunAligned(y, e, env);
  }

  // The DMA writes nothing.
  ghost predicate DmaIdle(env: seq<Env>) {
    forall t :: 0 <= t < |env| ==> !env[t].dma.wen
  }

  // ---- what a run reports ----

  // The responder always answers index 0 and score 1.0; without a search the initial values
  // stay.
  function Reported(cfg: Config): Results {
    if AutoValidate(cfg.treeConfig) && cfg.embedAddr != 0 then Results({0}, 0, 0x3F80_0000)
    else Results({}, 0, 0x8000_0000)
  }

  ghost predicate Reporting(y: System) {
    match y.s.ctl.phase
    case EmbedWait =>
      y.s.res == Results({}, 0, 0x8000_0000) && (y.emb.done ==> y.emb == Responder(true, 0, 0x3F80_0000))
    case ApplyWeights => y.s.res == Results({}, 0, 0x3F80_0000) && y.emb.idx == 0
    case WriteResults => y.s.res == Reported(y.s.cfg)
    case Validate => y.s.res == Reported(y.s.cfg)
    case Finish => y.s.res == Reported(y.s.cfg)
    case Idle => y.s.res == Reported(y.s.cfg)
    case _ => y.s.res == Results({}, 0, 0x8000_0000)
  }

  lemma NextReports(y: System, e: Env)
    requires OnTime(y) && !e.reset && Reporting(y)
    ensures Reporting(Next(y, e))
  {
  }

  // The valid branches, the best one and its score after a run
  lemma {:induction false} RunReports(y: System, e: Env, env: seq<Env>)
    requires Accepted(y, e) && Calm(env) && |env| <= RunLength(Next(y, e).s)
    ensures Reporting(After(Next(y, e), env))
    ensures |env| == RunLength(Next(y, e).s) ==> (After(Next(y, e), env).s.res ==
      if e.cfg.treeConfig / 256 % 2 == 1 && e.cfg.embedAddr != 0 then Results({0}, 0, 0x3F80_0000)
      else Results({}, 0, 0x8000_0000))
    decreases |env|
  {
    Latency(y, e, env);
    if env != [] {
      var front := env[..|env| - 1];
      RunReports(y, e, front);
      Latency(y, e, front);
      NextReports(After(Next(y, e), front), env[|env| - 1]);
    }
  }

  // ---- write-back ----

  // Memory once the first k tokens are laid out from base on.
  function Laid(mem: seq<Word>, base: U32, tokens: seq<Word>, k: nat): (m: seq<Word>)
    requires |mem| == DEPTH && |tokens| == 16 && k <= 16
    ensures |m| == DEPTH
  {
    if k == 0 then mem else Laid(mem, base, tokens, k - 1)[Plus12(base, k - 1) := tokens[k - 1]]
  }

  function LaidOut(mem: seq<Word>, s: Regs): (m: seq<Word>)
    requires |mem| == DEPTH && |s.tokens| == 16 && s.cur.total <= 16
    ensures |m| == DEPTH
  {
    Laid(mem, s.cfg.treeAddr, s.tokens, Walked(s.cur))[Plus12(s.cfg.treeAddr, s.cur.total) := MaskWord(s.res.valid)]
  }

  // Memory with the walker's pending write is what has been laid out so far.
  ghost predicate WritingBack(y: System, mem: seq<Word>)
    requires SystemSized(y) && |mem| == DEPTH && y.s.cur.total <= 16
  {
    var s := y.s;
    match s.ctl.phase
    case Idle => y.mem == LaidOut(mem, s) && !s.cPort.wen
    case WriteResults =>
      s.cur.idx <= 16 && Written(y.mem, s.cPort) == Laid(mem, s.cfg.treeAddr, s.tokens, s.cur.idx)
    case Validate => Written(y.mem, s.cPort) == Laid(mem, s.cfg.treeAddr, s.tokens, Walked(s.cur))
    case Finish => Written(y.mem, s.cPort) == LaidOut(mem, s)
    case _ => y.mem == mem && !s.cPort.wen
  }

  lemma WalkingKeepsMemory(y: System, e: Env, mem: seq<Word>)
    requires OnTime(y) && !e.reset && !e.dma.wen && |mem| == DEPTH && y.s.cur.total <= 16 && WritingBack(y, mem)
    requires y.s.ctl.phase == LoadContext || y.s.ctl.phase == LoadWeights || y.s.ctl.phase == Compute
    ensures WritingBack(Next(y, e), mem)
  {
    if y.s.ctl.phase == Compute && Next(y, e).s.ctl.phase == WriteResults {
      assert Next(y, e).s.cur.idx == 0;
    }
  }

  lemma EmbeddingKeepsMemory(y: System, e: Env, mem: seq<Word>)
    requires OnTime(y) && !e.reset && !e.dma.wen && |mem| == DEPTH && y.s.cur.total <= 16 && WritingBack(y, mem)
    requires y.s.ctl.phase == EmbedSearch || y.s.ctl.phase == EmbedWait || y.s.ctl.phase == ApplyWeights
    ensures WritingBack(Next(y, e), mem)
  {
    if y.s.ctl.phase == ApplyWeights {
      assert {} + {0} == {0};
    }
  }

  lemma LayingKeepsBack(y: System, e: Env, mem: seq<Word>)
    requires OnTime(y) && !e.reset && !e.dma.wen && |mem| == DEPTH && y.s.cur.total <= 16 && WritingBack(y, mem)
    requires y.s.ctl.phase == WriteResults || y.s.ctl.phase == Validate || y.s.ctl.phase == Finish
    ensures WritingBack(Next(y, e), mem)
  {
    assert Next(y, e).mem == Written(y.mem, y.s.cPort);
  }

  lemma NextWritesBack(y: System, e: Env, mem: seq<Word>)
    requires OnTime(y) && !e.reset && !e.dma.wen && |mem| == DEPTH && y.s.cur.total <= 16 && WritingBack(y, mem)
    ensures WritingBack(Next(y, e), mem)
  {
    match y.s.ctl.phase {
      case LoadContext => WalkingKeepsMemory(y, e, mem);
      case LoadWeights => WalkingKeepsMemory(y, e, mem);
      case Compute => WalkingKeepsMemory(y, e, mem);
      case EmbedSearch => EmbeddingKeepsMemory(y, e, mem);
      case EmbedWait => EmbeddingKeepsMemory(y, e, mem);
      case ApplyWeights => EmbeddingKeepsMemory(y, e, mem);
      case WriteResults => LayingKeepsBack(y, e, mem);
      case Validate => LayingKeepsBack(y, e, mem);
      case Finish => LayingKeepsBack(y, e, mem);
    }
  }

  // A run with the DMA idle ends with the tokens laid out, the validity word behind them,
  // and the rest of memory as the accepting cycle left it.
  lemma {:induction false} RunWritesBack(y: System, e: Env, env: seq<Env>)
    requires Accepted(y, e) && Calm(env) && DmaIdle(env) && |env| <= RunLength(Next(y, e).s)
    requires EntryCount(e.depth, y.s.cfg.treeConfig) <= 16
    ensures After(Next(y, e), env).s.cur.total <= 16
    ensures WritingBack(After(Next(y, e), env), Next(y, e).mem)
    decreases |env|
  {
    Latency(y, e, env);
    if env != [] {
      var front := env[..|env| - 1];
      RunWritesBack(y, e, front);
      Latency(y, e, front);
      NextWritesBack(After(Next(y, e), front), env[|env| - 1], Next(y, e).mem);
    }
  }

  // Word by word: at most 17 successive addresses are distinct modulo 4096.
  lemma {:induction false} LaidAt(mem: seq<Word>, base: U32, tokens: seq<Word>, k: nat, a: U12)
    requires |mem| == DEPTH && |tokens| == 16 && k <= 16
    ensures forall i :: 0 <= i < k && a == Plus12(base, i) ==> Laid(mem, base, tokens, k)[a] == tokens[i]
    ensures (forall i :: 0 <= i < k ==> a != Plus12(base, i)) ==> Laid(mem, base, tokens, k)[a] == mem[a]
  {
    if k > 0 {
      LaidAt(mem, base, tokens, k - 1, a);
    }
  }

  lemma Distinct(base: U32, i: U5, j: U5)
    requires i != j
    ensures Plus12(base, i) != Plus12(base, j)
  {
  }

  // Word a of a memory with 1 to 16 tokens and the validity word laid out.
  ghost predicate WordLaid(mem: seq<Word>, s: Regs, m: seq<Word>, a: U12)
    requires |mem| == |m| == DEPTH && |s.tokens| == 16 && s.cur.total <= 16
  {
    var base, total := s.cfg.treeAddr, s.cur.total;
    && (forall i :: 0 <= i < total && a == Plus12(base, i) ==> m[a] == s.tokens[i])
    && (a == Plus12(base, total) ==> m[a] == MaskWord(s.res.valid))
    && ((forall i :: 0 <= i <= total ==> a != Plus12(base, i)) ==> m[a] == mem[a])
  }

  lemma LaidOutAt(mem: seq<Word>, s: Regs, a: U12)
    requires |mem| == DEPTH && |s.tokens| == 16 && 1 <= s.cur.total <= 16
    ensures WordLaid(mem, s, LaidOut(mem, s), a)
  {
    var base, total := s.cfg.treeAddr, s.cur.total;
    LaidAt(mem, base, s.tokens, total, a);
    forall i | 0 <= i < total ensures Plus12(base, i) != Plus12(base, total) {
      Distinct(base, i, total);
    }
  }

  // Bit 0 when the embedding search runs
  function ValidWord(cfg: Config): Word {
    if cfg.treeConfig / 256 % 2 == 1 && cfg.embedAddr != 0 then 1 else 0
  }

  lemma FirstBranchWord()
    ensures MaskWord({0}) == 1 && MaskWord({}) == 0
  {
  }

  lemma ReportedWord(y: System, e: Env, env: seq<Env>)
    requires Accepted(y, e) && Calm(env) && |env| == RunLength(Next(y, e).s)
    ensures MaskWord(After(Next(y, e), env).s.res.valid) == ValidWord(e.cfg)
  {
    RunReports(y, e, env);
    FirstBranchWord();
  }

  // With 1 to 16 entries and the DMA idle, after the run token i is at the tree address plus
  // i, the validity word follows, and no other word changed. The validity word names branch 0
  // when the embedding search runs and no branch otherwise, whatever the branch mask.
  lemma MemoryAfterRun(y: System, e: Env, env: seq<Env>, a: U12)
    requires Accepted(y, e) && Calm(env) && DmaIdle(env) && |env| == RunLength(Next(y, e).s)
    requires 1 <= EntryCount(e.depth, y.s.cfg.treeConfig) <= 16
    ensures var z := After(Next(y, e), env);
      && z.s.cfg == e.cfg && z.s.cur.total == EntryCount(e.depth, y.s.cfg.treeConfig)
      && WordLaid(Next(y, e).mem, z.s, z.mem, a)
      && (a == Plus12(e.cfg.treeAddr, z.s.cur.total) ==> z.mem[a] == ValidWord(e.cfg))
  {
    ReportedWord(y, e, env);
    Latency(y, e, env);
    RunWritesBack(y, e, env);
    LaidOutAt(Next(y, e).mem, After(Next(y, e), env).s, a);
  }

  // The tree a run leaves in memory, when the depth is held and the context length is not
  // eight: every entry's token, in terms of the context the walker holds.
  lemma TreeInMemory(y: System, e: Env, env: seq<Env>, i: nat)
    requires Accepted(y, e) && Calm(env) && DmaIdle(env) && Held(env, e.depth)
    requires |env| == RunLength(Next(y, e).s)
    requires i < EntryCount(e.depth, y.s.cfg.treeConfig) <= 16 && ContextLen(e.cfg.treeConfig) != 0
    ensures var z, level := After(Next(y, e), env), LevelOf(i, Levels(e.depth));
      && z.mem[Plus12(e.cfg.treeAddr, i)] == TokenOf(z.s.context, e.cfg, Levels(e.depth), i)
      && TokenIs(z.mem[Plus12(e.cfg.treeAddr, i)], z.s.context[level % ContextLen(e.cfg.treeConfig)],
                 e.cfg.offset, level)
  {
    var context, level := After(Next(y, e), env).s.context, LevelOf(i, Levels(e.depth));
    TokenTable(context[level % ContextLen(e.cfg.treeConfig)], e.cfg.offset, level);
    MemoryAfterRun(y, e, env, Plus12(e.cfg.treeAddr, i));
    RunTraced(y, e, env);
    Latency(y, e, env);
  }

  // ---- how many entries a run walks ----

  // The entries of the tree a start asks for
  function Asked(e: Env): nat {
    Levels(e.depth) * MaxBranches(e.cfg.treeConfig)
  }

  // Old branches o stand in for new ones n.
  predicate SameCount(levels: nat, o: nat, n: nat) {
    levels * n < 32 && (o == n || (levels == 4 && o == n + 8))
  }

  lemma CountIff(depth: U32, oldConfig: U32, newConfig: U32)
    ensures var l, o, n := Levels(depth), MaxBranches(oldConfig), MaxBranches(newConfig);
      EntryCount(depth, oldConfig) == l * n <==> SameCount(l, o, n)
  {
    var l := Levels(depth);
    if l == 2 {
    } else if l == 3 {
    } else {
    }
  }

  // The count comes from the configuration of the start before. So a run walks and reports
  // exactly the entries it is configured for iff they are below 32 and the start before had as
  // many branches, or, at four levels, eight more.
  lemma WalksItsTreeIff(y: System, e: Env, env: seq<Env>)
    requires Accepted(y, e) && Calm(env) && |env| == RunLength(Next(y, e).s)
    ensures After(Next(y, e), env).s.cur.total == Asked(e)
       <==> SameCount(Levels(e.depth), MaxBranches(y.s.cfg.treeConfig), MaxBranches(e.cfg.treeConfig))
    ensures After(Next(y, e), env).s.st.entries == After(Next(y, e), env).s.cur.total
  {
    Latency(y, e, env);
    CountIff(e.depth, y.s.cfg.treeConfig, e.cfg.treeConfig);
    EndsCounted(y, e, env);
  }

  // The last cycle publishes the count.
  lemma EndsCounted(y: System, e: Env, env: seq<Env>)
    requires Accepted(y, e) && Calm(env) && |env| == RunLength(Next(y, e).s)
    ensures After(Next(y, e), env).s.st.entries == After(Next(y, e), env).s.cur.total
  {
    var front := env[..|env| - 1];
    Latency(y, e, front);
    LeftOne(After(Next(y, e), front));
  }

  // The first run after reset, where the old configuration is zero, walks 16 entries at three
  // levels and a single one otherwise, and so never the tree it is configured for.
  lemma FirstRunWalksAnother(y: System, e: Env, env: seq<Env>)
    requires Accepted(y, e) && Calm(env) && |env| == RunLength(Next(y, e).s) && y.s.cfg.treeConfig == 0
    ensures After(Next(y, e), env).s.cur.total == if Levels(e.depth) == 3 then 16 else 0
    ensures Walked(After(Next(y, e), env).s.cur) != Asked(e)
  {
    Latency(y, e, env);
    FirstCount(e.depth, e.cfg.treeConfig);
  }

  lemma FirstCount(depth: U32, config: U32)
    ensures EntryCount(depth, 0) == if Levels(depth) == 3 then 16 else 0
    ensures Max(1, EntryCount(depth, 0)) != Levels(depth) * MaxBranches(config)
  {
    CountIff(depth, 0, config);
    assert Levels(depth) * MaxBranches(config) >= 2 * MaxBranches(config);
  }
}
