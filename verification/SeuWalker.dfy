// The tree walker as clocked hardware: every register a field, every buffer an array.
module SeuWalker {
  import opened Words
  import opened Lfsr
  import opened Vecmem
  import opened SeuTree

  class Walker {
    var ctl: Control
    var cfg: Config
    var cur: Cursor
    var lfsr: Word
    var res: Results
    var st: Status
    var cPort: WritePort
    var dAddr: U12
    var emb: EmbedPort
    var pathValid: Mask
    const contextBuf: array<Word>
    const nodeWeights: array<Word>
    const pathTokens: array<Word>
    const scoreBuf: array<Word>

    ghost predicate Valid()
      reads this
    {
      && contextBuf.Length == 8 && nodeWeights.Length == pathTokens.Length == scoreBuf.Length == 16
      && nodeWeights != pathTokens && pathTokens != scoreBuf && scoreBuf != nodeWeights
      && contextBuf != nodeWeights && contextBuf != pathTokens && contextBuf != scoreBuf
    }

    ghost function View(): (s: Regs)
      requires Valid()
      reads this, contextBuf, nodeWeights, pathTokens, scoreBuf
      ensures Sized(s)
    {
      Regs(ctl, cfg, cur, lfsr, res, st, cPort, dAddr, emb, pathValid,
           contextBuf[..], nodeWeights[..], pathTokens[..], scoreBuf[..])
    }

    // Registers after reset; the buffers are not reset.
    constructor ()
      ensures Valid() && fresh(contextBuf) && fresh(nodeWeights) && fresh(pathTokens) && fresh(scoreBuf)
      ensures ctl == Control(Idle, false, false, false) && !cPort.wen && !emb.start && cfg.treeConfig == 0
    {
      ctl, cfg, cur := Control(Idle, false, false, false), Config(0, 0, 0, 0, {}, 0, 0), Cursor(0, 0, 0, 0);
      lfsr, res, st := 0xABCD_1234, Results({}, 0, 0), Status(0, 0, 0);
      cPort, dAddr, emb, pathValid := WritePort(0, 0, false), 0, EmbedPort(false, 0, 0), {};
      contextBuf := new Word[8];
      nodeWeights := new Word[16];
      pathTokens := new Word[16];
      scoreBuf := new Word[16];
    }

    method Clock(i: Inputs)
      requires Valid()
      modifies this, contextBuf, nodeWeights, pathTokens, scoreBuf
      ensures Valid() && View() == Step(old(View()), i)
    {
      if i.reset {
        ClockReset();
        return;
      }
      match ctl.phase {
        case Idle => ClockIdle(i);
        case LoadContext => ClockLoadContext(i);
        case LoadWeights => ClockLoadWeights(i);
        case Compute => ClockCompute(i);
        case EmbedSearch => ClockEmbedSearch();
        case EmbedWait => ClockEmbedWait(i);
        case ApplyWeights => ClockApplyWeights(i);
        case WriteResults => ClockWriteResults(i);
        case Validate => ClockValidate();
        case Finish => ClockFinish();
      }
    }

    method ClockReset()
      requires Valid()
      modifies this
      ensures Valid() && View() == StepReset(old(View()))
    {
      ctl, res := Control(Idle, false, false, false), Results({}, 0, 0);
      st := st.(status := 0, count := 0);
      cPort, emb, pathValid := cPort.(wen := false), emb.(start := false), {};
    }

    method ClockIdle(i: Inputs)
      requires Valid() && ctl.phase == Idle
      modifies this
      ensures Valid() && View() == StepIdle(old(View()), i)
    {
      if i.start {
        AcceptStart(i);
      } else {
        ctl := Control(Idle, ctl.busy, false, false);
        cPort, emb := cPort.(wen := false), emb.(start := false);
      }
    }

    method AcceptStart(i: Inputs)
      requires Valid()
      modifies this
      ensures Valid() && View() == Accept(old(View()), i)
    {
      LatchConfig(i);
      res := Results({}, 0, 0x8000_0000);
      ctl, st := Control(LoadContext, true, false, false), st.(status := 1);
      cPort, emb := cPort.(wen := false), emb.(start := false);
    }

    method LatchConfig(i: Inputs)
      modifies this`cur, this`cfg, this`lfsr
      ensures cur == Cursor(0, 0, 0, EntryCount(i.depth, old(cfg).treeConfig))
      ensures cfg == i.cfg && lfsr == HardSeed(i.cfg.branchMask)
    {
      cur := Cursor(0, 0, 0, EntryCount(i.depth, cfg.treeConfig));
      cfg, lfsr := i.cfg, HardSeed(i.cfg.branchMask);
    }

    method ClockLoadContext(i: Inputs)
      requires Valid() && ctl.phase == LoadContext
      modifies this, contextBuf
      ensures Valid() && View() == StepLoadContext(old(View()), i)
    {
      var last := ContextDone(cur, cfg);
      if cur.level != 0 || cfg.contextAddr != 0 {
        Store(contextBuf, cur.level, i.dRdata);
      }
      dAddr := Plus12(cfg.contextAddr, cur.level);
      ctl := Control(if last then LoadWeights else LoadContext, ctl.busy, false, false);
      cur := NextContextCursor(cur, cfg);
      cPort, emb := cPort.(wen := false), emb.(start := false);
    }

    method ClockLoadWeights(i: Inputs)
      requires Valid() && ctl.phase == LoadWeights
      modifies this, nodeWeights
      ensures Valid() && View() == StepLoadWeights(old(View()), i)
    {
      if cur.idx != 0 {
        Store(nodeWeights, cur.idx - 1, i.dRdata);
      }
      dAddr := Plus12(cfg.nodeBase, cur.idx);
      ctl := Control(Compute, ctl.busy, false, false);
      cPort, emb := cPort.(wen := false), emb.(start := false);
    }

    // The buffers first, then the registers they are computed from.
    method ClockCompute(i: Inputs)
      requires Valid() && ctl.phase == Compute
      modifies this, pathTokens, scoreBuf
      ensures Valid() && View() == StepCompute(old(View()), i)
    {
      ghost var s := View();
      var token := Token(i.x);
      var score := ScoreValue(i.x);
      Store(pathTokens, cur.idx, token);
      Store(scoreBuf, cur.idx, score);
      Advance(i.depth, s);
    }

    // context_buf[cur_level % cfg_context_len] ^ (r_offset << cur_level)
    method Token(x: Word) returns (w: Word)
      requires Valid()
      ensures w == TokenWord(View(), x)
    {
      var n := ContextLen(cfg.treeConfig);
      w := (if n == 0 then x else contextBuf[cur.level % n]) ^ Shl(cfg.offset, cur.level);
    }

    method ScoreValue(x: Word) returns (w: Word)
      requires Valid()
      ensures w == ScoreWord(View(), x)
    {
      var weight := if cur.idx < 16 then nodeWeights[cur.idx] else x;
      w := Diversified(weight, lfsr, cur.level, cur.variant);
    }

    method Advance(depth: U32, ghost s: Regs)
      requires Valid() && s.ctl == ctl && s.cfg == cfg && s.cur == cur && s.lfsr == lfsr
      requires s.pathValid == pathValid && s.cPort == cPort && s.emb == emb
      modifies this`ctl, this`cur, this`lfsr, this`pathValid, this`cPort, this`emb
      ensures ctl == At(s, AfterCompute(s.cur, s.cfg)) && cur == NextCursor(s.cur, depth) && lfsr == HardStep(s.lfsr)
      ensures pathValid == SetBit(s.pathValid, s.cur.idx, s.cur.variant in s.cfg.branchMask)
      ensures cPort == NoWrite(s) && emb == NoSearch(s)
    {
      pathValid := SetBit(pathValid, cur.idx, cur.variant in cfg.branchMask);
      lfsr := HardStep(lfsr);
      ctl := Control(AfterCompute(cur, cfg), ctl.busy, false, false);
      cur := NextCursor(cur, depth);
      cPort, emb := cPort.(wen := false), emb.(start := false);
    }

    // A write outside the array is dropped.
    method Store(a: array<Word>, k: nat, w: Word)
      modifies a
      ensures a[..] == WriteWord(old(a[..]), k, w)
    {
      if k < a.Length {
        a[k] := w;
      }
    }

    method ClockEmbedSearch()
      requires Valid() && ctl.phase == EmbedSearch
      modifies this
      ensures Valid() && View() == StepEmbedSearch(old(View()))
    {
      emb := EmbedPort(true, cfg.embedAddr, MaxBranches(cfg.treeConfig));
      ctl, cPort := Control(EmbedWait, ctl.busy, false, false), cPort.(wen := false);
    }

    method ClockEmbedWait(i: Inputs)
      requires Valid() && ctl.phase == EmbedWait
      modifies this
      ensures Valid() && View() == StepEmbedWait(old(View()), i)
    {
      if i.embedDone {
        res := res.(bestIdx := i.embedIdx, bestScore := i.embedScore);
      }
      ctl := Control(if i.embedDone then ApplyWeights else EmbedWait, ctl.busy, false, false);
      cPort, emb := cPort.(wen := false), emb.(start := false);
    }

    method ClockApplyWeights(i: Inputs)
      requires Valid() && ctl.phase == ApplyWeights
      modifies this
      ensures Valid() && View() == StepApplyWeights(old(View()), i)
    {
      if i.embedIdx % 32 < MaxBranches(cfg.treeConfig) {
        res := res.(valid := SetBit(res.valid, i.embedIdx % 16, true));
      }
      ctl := Control(WriteResults, ctl.busy, false, false);
      cPort, emb := cPort.(wen := false), emb.(start := false);
    }

    method ClockWriteResults(i: Inputs)
      requires Valid() && ctl.phase == WriteResults
      modifies this
      ensures Valid() && View() == StepWriteResults(old(View()), i)
    {
      var last := LastEntry(cur);
      cPort := WritePort(Plus12(cfg.treeAddr, cur.idx), if cur.idx < 16 then pathTokens[cur.idx] else i.x, true);
      cur := cur.(idx := Inc5(cur.idx));
      ctl := Control(if last then Validate else WriteResults, ctl.busy, false, false);
      emb := emb.(start := false);
    }

    method ClockValidate()
      requires Valid() && ctl.phase == Validate
      modifies this
      ensures Valid() && View() == StepValidate(old(View()))
    {
      cPort := WritePort(Plus12(cfg.treeAddr, cur.total), MaskWord(res.valid), true);
      ctl, emb := Control(Finish, ctl.busy, false, false), emb.(start := false);
    }

    method ClockFinish()
      requires Valid() && ctl.phase == Finish
      modifies this
      ensures Valid() && View() == StepFinish(old(View()))
    {
      st := Status(2, cur.total, cur.total);
      ctl := Control(Idle, false, true, true);
      cPort, emb := cPort.(wen := false), emb.(start := false);
    }
  }
}
