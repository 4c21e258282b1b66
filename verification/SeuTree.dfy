// The speculative tree walker (fpga/rtl/seu_tree.v), one Step per clock with reset released.
// Every right-hand side reads the registers as they were before the edge. A value the
// simulator leaves unknown (a read outside an array, a remainder by zero) is the input x.
module SeuTree {
  import opened Words
  import opened Lfsr
  import opened Vecmem

  datatype Phase =
    Idle | LoadContext | LoadWeights | Compute | EmbedSearch | EmbedWait | ApplyWeights
    | WriteResults | Validate | Finish

  datatype Control = Control(phase: Phase, busy: bool, done: bool, irq: bool)

  // The latched configuration
  datatype Config = Config(
    offset: Word, treeAddr: U32, treeConfig: U32, nodeBase: U32, branchMask: Mask,
    contextAddr: U32, embedAddr: U32)

  // cur_variant, cur_level, cur_idx, total_entries
  datatype Cursor = Cursor(variant: U4, level: U3, idx: U5, total: U5)

  // branch_valid, branch_best_idx, branch_best_score
  datatype Results = Results(valid: Mask, bestIdx: U32, bestScore: Word)

  // tree_status, tree_count, entries_total
  datatype Status = Status(status: U32, count: U5, entries: U5)

  datatype EmbedPort = EmbedPort(start: bool, queryAddr: U32, vecCount: U5)

  datatype Regs = Regs(
    ctl: Control, cfg: Config, cur: Cursor, lfsr: Word, res: Results, st: Status,
    cPort: WritePort, dAddr: U12, emb: EmbedPort, pathValid: Mask,
    context: seq<Word>, weights: seq<Word>, tokens: seq<Word>, scores: seq<Word>)

  datatype Inputs = Inputs(
    start: bool, reset: bool, depth: U32, cfg: Config,
    dRdata: Word, embedDone: bool, embedIdx: U32, embedScore: Word, x: Word)

  ghost predicate Sized(s: Regs) {
    |s.context| == 8 && |s.weights| == |s.tokens| == |s.scores| == 16
  }

  // ---- configuration fields ----

  // cfg_max_branches: zero means 16
  function MaxBranches(config: U32): (n: nat)
    ensures 1 <= n <= 16
  {
    if config % 16 == 0 then 16 else config % 16
  }

  // cfg_context_len[2:0]: a raw length of zero means one, and of eight is zero here
  function ContextLen(config: U32): U3 {
    var raw := config / 16 % 16;
    if raw == 0 then 1 else raw % 8
  }

  function AutoValidate(config: U32): bool {
    config / 256 % 2 == 1
  }

  // clamped_depth + 1
  function Levels(depth: U32): (n: nat)
    ensures 2 <= n <= 4
  {
    if depth < 2 then 2 else if depth > 4 then 4 else depth
  }

  // entry_count, cut to five bits
  function EntryCount(depth: U32, config: U32): U5 {
    var product := Levels(depth) * MaxBranches(config);
    if product >= 64 then product - 64 else if product >= 32 then product - 32 else product
  }

  // Counters wrap at their width.
  function Inc3(n: U3): U3 {
    if n == 7 then 0 else n + 1
  }

  function Inc4(n: U4): U4 {
    if n == 15 then 0 else n + 1
  }

  function Inc5(n: U5): U5 {
    if n == 31 then 0 else n + 1
  }

  function Plus12(base: U32, n: U5): U12 {
    (base % 4096 + n) % 4096
  }

  // ---- arrays of 16 words addressed with five bits ----

  function ReadWord(a: seq<Word>, i: nat, x: Word): Word {
    if i < |a| then a[i] else x
  }

  function WriteWord(a: seq<Word>, i: nat, w: Word): (r: seq<Word>)
    ensures |r| == |a|
  {
    if i < |a| then a[i := w] else a
  }

  // ---- what these are ----

  lemma Plus12Is(base: U32, n: U5)
    ensures Plus12(base, n) == (base + n) % 4096
  {
  }

  lemma CountersWrap(l: U3, v: U4, i: U5)
    ensures Inc3(l) == (l + 1) % 8 && Inc4(v) == (v + 1) % 16 && Inc5(i) == (i + 1) % 32
  {
  }

  // A configuration from its fields: branches in bits 3..0, context length in 7..4, bit 8
  function Fields(branches: U4, context: U4, auto: bool, rest: nat): nat {
    branches + 16 * context + (if auto then 256 else 0) + 512 * rest
  }

  lemma FieldsRead(branches: U4, context: U4, auto: bool, rest: nat)
    requires Fields(branches, context, auto, rest) < TWO32
    ensures var config := Fields(branches, context, auto, rest);
      && MaxBranches(config) == (if branches == 0 then 16 else branches)
      && ContextLen(config) == (if context == 0 then 1 else if context >= 8 then context - 8 else context)
      && AutoValidate(config) == auto
  {
    var config, high := Fields(branches, context, auto, rest), (if auto then 1 else 0) + 2 * rest;
    assert config == 16 * (context + 16 * high) + branches;
    assert config / 16 == context + 16 * high;
    assert config / 256 == high;
  }

  // Two to four levels, and branches times levels in five bits
  lemma CountIs(depth: U32, config: U32)
    ensures (depth <= 2 ==> Levels(depth) == 2) && (depth == 3 ==> Levels(depth) == 3)
    ensures depth >= 4 ==> Levels(depth) == 4
    ensures EntryCount(depth, config) == Levels(depth) * MaxBranches(config) % 32
  {
  }

  // w is c ^ (offset << level), for the levels there are.
  ghost predicate TokenIs(w: Word, c: Word, offset: Word, level: nat) {
    level < 4 && ShiftIs(offset, level, w ^ c)
  }

  lemma Unmixed(w: Word, c: Word, a: Word)
    requires w == c ^ a
    ensures w ^ c == a
  {
  }

  lemma TokenTable(c: Word, offset: Word, level: nat)
    requires level < 4
    ensures TokenIs(c ^ Shl(offset, level), c, offset, level)
  {
    ShiftTable(offset, level);
    Unmixed(c ^ Shl(offset, level), c, Shl(offset, level));
  }

  // a is the level with the two low bits of the variant below it, as a word.
  lemma DiversifiedIs(weight: Word, lfsr: Word, level: nat, variant: nat, a: Word)
    requires level < 4 && a == ToWord(4 * level + variant % 4)
    ensures Diversified(weight, lfsr, level, variant) == weight ^ (lfsr + a)
  {
    AddThenMix(weight, lfsr, a, Diversified(weight, lfsr, level, variant));
  }

  lemma AddThenMix(weight: Word, lfsr: Word, a: Word, w: Word)
    requires w == Mixed(weight, Sum(lfsr, a))
    ensures w == weight ^ (lfsr + a)
  {
  }

  function SetBit(m: Mask, i: nat, on: bool): Mask {
    if i >= 16 then m else if on then m + {i} else m - {i}
  }

  // context_buf[cur_level % cfg_context_len]
  function ContextWord(s: Regs, x: Word): Word {
    var n := ContextLen(s.cfg.treeConfig);
    if n == 0 then x else ReadWord(s.context, s.cur.level % n, x)
  }

  // ---- the clocked block ----

  // done, irq, write enable and the search pulse default to zero each cycle.
  function At(s: Regs, phase: Phase): Control {
    Control(phase, s.ctl.busy, false, false)
  }

  function NoWrite(s: Regs): WritePort {
    s.cPort.(wen := false)
  }

  function NoSearch(s: Regs): EmbedPort {
    s.emb.(start := false)
  }

  function StepReset(s: Regs): Regs {
    s.(ctl := Control(Idle, false, false, false), res := Results({}, 0, 0), st := s.st.(status := 0, count := 0),
       cPort := NoWrite(s), emb := NoSearch(s), pathValid := {})
  }

  // The entry count is taken from the configuration latched by the previous start.
  function Accept(s: Regs, i: Inputs): Regs {
    s.(ctl := Control(LoadContext, true, false, false), cfg := i.cfg,
       cur := Cursor(0, 0, 0, EntryCount(i.depth, s.cfg.treeConfig)), lfsr := HardSeed(i.cfg.branchMask),
       res := Results({}, 0, 0x8000_0000), st := s.st.(status := 1), cPort := NoWrite(s), emb := NoSearch(s))
  }

  function StepIdle(s: Regs, i: Inputs): Regs {
    if i.start then Accept(s, i) else s.(ctl := At(s, Idle), cPort := NoWrite(s), emb := NoSearch(s))
  }

  // The last context cycle: cur_level + 1 >= cfg_context_len, in three bits
  predicate ContextDone(cur: Cursor, cfg: Config) {
    Inc3(cur.level) >= ContextLen(cfg.treeConfig)
  }

  function NextContextCursor(cur: Cursor, cfg: Config): Cursor {
    if ContextDone(cur, cfg) then cur.(level := 0, idx := 0) else cur.(level := Inc3(cur.level))
  }

  function StepLoadContext(s: Regs, i: Inputs): Regs {
    s.(ctl := At(s, if ContextDone(s.cur, s.cfg) then LoadWeights else LoadContext),
       cur := NextContextCursor(s.cur, s.cfg),
       dAddr := Plus12(s.cfg.contextAddr, s.cur.level),
       context := if s.cur.level != 0 || s.cfg.contextAddr != 0 then WriteWord(s.context, s.cur.level, i.dRdata)
                  else s.context,
       cPort := NoWrite(s), emb := NoSearch(s))
  }

  function StepLoadWeights(s: Regs, i: Inputs): Regs {
    s.(ctl := At(s, Compute), dAddr := Plus12(s.cfg.nodeBase, s.cur.idx),
       weights := if s.cur.idx != 0 then WriteWord(s.weights, s.cur.idx - 1, i.dRdata) else s.weights,
       cPort := NoWrite(s), emb := NoSearch(s))
  }

  // cur_idx + 1 >= total_entries, in five bits
  predicate LastEntry(cur: Cursor) {
    Inc5(cur.idx) >= cur.total
  }

  predicate Embeds(cfg: Config) {
    AutoValidate(cfg.treeConfig) && cfg.embedAddr != 0
  }

  function NextCursor(cur: Cursor, depth: U32): Cursor {
    if LastEntry(cur) then Cursor(0, 0, 0, cur.total)
    else if Inc3(cur.level) > Levels(depth) - 1 then Cursor(Inc4(cur.variant), 0, Inc5(cur.idx), cur.total)
    else Cursor(cur.variant, Inc3(cur.level), Inc5(cur.idx), cur.total)
  }

  function AfterCompute(cur: Cursor, cfg: Config): Phase {
    if !LastEntry(cur) then LoadWeights else if Embeds(cfg) then EmbedSearch else WriteResults
  }

  // The context token, xored with the branch offset shifted by the level
  function TokenWord(s: Regs, x: Word): Word {
    ContextWord(s, x) ^ Shl(s.cfg.offset, s.cur.level)
  }

  // weight ^ lfsr + {level, variant[1:0]}, where Verilog adds before it xors
  function Diversified(weight: Word, lfsr: Word, level: nat, variant: nat): Word {
    Mixed(weight, Sum(lfsr, ToWord(4 * level + variant % 4)))
  }

  function ScoreWord(s: Regs, x: Word): Word {
    Diversified(ReadWord(s.weights, s.cur.idx, x), s.lfsr, s.cur.level, s.cur.variant)
  }

  function StepCompute(s: Regs, i: Inputs): Regs {
    s.(ctl := At(s, AfterCompute(s.cur, s.cfg)), cur := NextCursor(s.cur, i.depth), lfsr := HardStep(s.lfsr),
       pathValid := SetBit(s.pathValid, s.cur.idx, s.cur.variant in s.cfg.branchMask),
       tokens := WriteWord(s.tokens, s.cur.idx, TokenWord(s, i.x)),
       scores := WriteWord(s.scores, s.cur.idx, ScoreWord(s, i.x)),
       cPort := NoWrite(s), emb := NoSearch(s))
  }

  function StepEmbedSearch(s: Regs): Regs {
    s.(ctl := At(s, EmbedWait), cPort := NoWrite(s),
       emb := EmbedPort(true, s.cfg.embedAddr, MaxBranches(s.cfg.treeConfig)))
  }

  function StepEmbedWait(s: Regs, i: Inputs): Regs {
    s.(ctl := At(s, if i.embedDone then ApplyWeights else EmbedWait),
       res := if i.embedDone then s.res.(bestIdx := i.embedIdx, bestScore := i.embedScore) else s.res,
       cPort := NoWrite(s), emb := NoSearch(s))
  }

  // embed_result_idx[4:0] < cfg_max_branches sets branch_valid[embed_result_idx[3:0]]
  function StepApplyWeights(s: Regs, i: Inputs): Regs {
    var valid := if i.embedIdx % 32 < MaxBranches(s.cfg.treeConfig) then SetBit(s.res.valid, i.embedIdx % 16, true)
                 else s.res.valid;
    s.(ctl := At(s, WriteResults), res := s.res.(valid := valid), cPort := NoWrite(s), emb := NoSearch(s))
  }

  function StepWriteResults(s: Regs, i: Inputs): Regs {
    s.(ctl := At(s, if LastEntry(s.cur) then Validate else WriteResults),
       cur := s.cur.(idx := Inc5(s.cur.idx)),
       cPort := WritePort(Plus12(s.cfg.treeAddr, s.cur.idx), ReadWord(s.tokens, s.cur.idx, i.x), true),
       emb := NoSearch(s))
  }

  function StepValidate(s: Regs): Regs {
    s.(ctl := At(s, Finish), emb := NoSearch(s),
       cPort := WritePort(Plus12(s.cfg.treeAddr, s.cur.total), MaskWord(s.res.valid), true))
  }

  function StepFinish(s: Regs): Regs {
    s.(ctl := Control(Idle, false, true, true), st := Status(2, s.cur.total, s.cur.total),
       cPort := NoWrite(s), emb := NoSearch(s))
  }

  function Step(s: Regs, i: Inputs): (s': Regs)
    ensures Sized(s) ==> Sized(s')
  {
    if i.reset then StepReset(s)
    else
      match s.ctl.phase
      case Idle => StepIdle(s, i)
      case LoadContext => StepLoadContext(s, i)
      case LoadWeights => StepLoadWeights(s, i)
      case Compute => StepCompute(s, i)
      case EmbedSearch => StepEmbedSearch(s)
      case EmbedWait => StepEmbedWait(s, i)
      case ApplyWeights => StepApplyWeights(s, i)
      case WriteResults => StepWriteResults(s, i)
      case Validate => StepValidate(s)
      case Finish => StepFinish(s)
  }

  // Whatever the responder answers: its index and score are taken, and its branch is reported
  // valid if it is one of the configured ones.
  lemma AnswerTaken(s: Regs, i: Inputs)
    requires s.ctl.phase == EmbedWait && !i.reset && i.embedDone
    ensures Step(s, i).res == Results(s.res.valid, i.embedIdx, i.embedScore)
    ensures Step(s, i).ctl.phase == ApplyWeights
  {
  }

  lemma AnswerApplied(s: Regs, i: Inputs, b: nat)
    requires s.ctl.phase == ApplyWeights && !i.reset
    ensures b in Step(s, i).res.valid <==>
      b in s.res.valid || (b == i.embedIdx % 16 && i.embedIdx % 32 < MaxBranches(s.cfg.treeConfig))
    ensures Step(s, i).res.bestIdx == s.res.bestIdx && Step(s, i).res.bestScore == s.res.bestScore
  {
  }
}
