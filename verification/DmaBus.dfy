// What a DMA transfer does on the bus and to vector memory (fpga/rtl/sppu_dma.v,
// fpga/rtl/sppu_vecmem.v). Section numbers are those of Arm IHI 0022.
module DmaBus {
  import opened Words
  import opened Vecmem
  import opened Dma
  import opened DmaRuns

  // A transfer over whose cycles the waits and the work add up is a finished one.
  ghost predicate Completes(r0: Run, req: Inputs, ins: seq<Inputs>)
    requires |r0.s.buf| == 16 && req.len % 4 == 0
  {
    |ins| - After(Next(r0, req), ins).stalls == Work(req.len)
  }

  // ---- the read address handshake ----

  // A slave gives data only once the address is accepted (section A3.3.1).
  ghost predicate Obeys(s: Regs, i: Inputs) {
    i.rvalid ==> !s.axi.arvalid || i.arready
  }

  ghost predicate AlwaysObeys(r: Run, ins: seq<Inputs>)
    requires |r.s.buf| == 16
  {
    ins == [] || (AlwaysObeys(r, ins[..|ins| - 1]) && Obeys(After(r, ins[..|ins| - 1]).s, ins[|ins| - 1]))
  }

  // The addresses a slave has accepted, in order
  function Handshakes(r: Run, ins: seq<Inputs>): seq<Burst>
    requires |r.s.buf| == 16
  {
    if ins == [] then []
    else
      Accepting(After(r, ins[..|ins| - 1]).s, ins[|ins| - 1], Handshakes(r, ins[..|ins| - 1]))
  }

  function Accepting(s: Regs, i: Inputs, before: seq<Burst>): seq<Burst> {
    if s.axi.arvalid && i.arready then before + [Waiting(s)] else before
  }

  function Waiting(s: Regs): Burst {
    Burst(s.axi.araddr, s.axi.arlen + 1)
  }

  function Outstanding(s: Regs): seq<Burst> {
    if s.axi.arvalid then [Waiting(s)] else []
  }

  // Every burst issued was accepted, except the one that waits in the read state.
  ghost predicate Announced(r: Run, accepted: seq<Burst>) {
    (r.s.axi.arvalid ==> r.s.ctl.phase == Read) && r.bursts == accepted + Outstanding(r.s)
  }

  lemma NextAnnounced(r: Run, i: Inputs, accepted: seq<Burst>, r': Run, accepted': seq<Burst>)
    requires |r.s.buf| == 16 && Announced(r, accepted) && Obeys(r.s, i)
    requires r' == Next(r, i) && accepted' == Accepting(r.s, i, accepted)
    ensures Announced(r', accepted')
  {
    if r.s.axi.arvalid {
      assert r'.bursts == r.bursts;
    }
  }

  lemma {:induction false} FrontObeys(r: Run, ins: seq<Inputs>, k: nat)
    requires |r.s.buf| == 16 && AlwaysObeys(r, ins) && k <= |ins|
    ensures AlwaysObeys(r, ins[..k])
  {
    if k < |ins| {
      FrontObeys(r, ins[..|ins| - 1], k);
      assert ins[..|ins| - 1][..k] == ins[..k];
    } else {
      assert ins[..k] == ins;
    }
  }

  lemma {:induction false} AllAnnounced(r: Run, ins: seq<Inputs>)
    requires |r.s.buf| == 16 && !r.s.axi.arvalid && r.bursts == [] && AlwaysObeys(r, ins)
    ensures Announced(After(r, ins), Handshakes(r, ins))
    decreases |ins|
  {
    if ins != [] {
      AllAnnounced(r, ins[..|ins| - 1]);
      var before, accepted := After(r, ins[..|ins| - 1]), Handshakes(r, ins[..|ins| - 1]);
      NextAnnounced(before, ins[|ins| - 1], accepted, After(r, ins), Handshakes(r, ins));
    }
  }

  // An address that is not accepted in this cycle is there unchanged in the next.
  ghost predicate Keeps(s: Regs, i: Inputs, s': Regs) {
    s.axi.arvalid && !i.arready ==> s'.axi.arvalid && Waiting(s') == Waiting(s)
  }

  lemma StepKeeps(s: Regs, i: Inputs, s': Regs)
    requires |s.buf| == 16 && (s.axi.arvalid ==> s.ctl.phase == Read) && s' == Step(s, i)
    ensures Keeps(s, i, s')
  {
  }

  lemma HeldFrom(r: Run, ins: seq<Inputs>, t: nat)
    requires |r.s.buf| == 16 && !r.s.axi.arvalid && r.bursts == [] && t < |ins| && AlwaysObeys(r, ins)
    ensures Keeps(After(r, ins[..t]).s, ins[t], After(r, ins[..t + 1]).s)
  {
    FrontObeys(r, ins, t);
    AllAnnounced(r, ins[..t]);
    assert ins[..t + 1] == ins[..t] + [ins[t]];
    AfterOne(r, ins[..t], ins[t]);
    StepKeeps(After(r, ins[..t]).s, ins[t], After(r, ins[..t + 1]).s);
  }

  // Against such a slave an address waits unchanged until it is accepted (section A3.2.1), in
  // every cycle of every transfer, of any length.
  lemma AddressHeld(r0: Run, req: Inputs, ins: seq<Inputs>, t: nat)
    requires Accepted(r0, req) && !r0.s.axi.arvalid && t < |ins| && AlwaysObeys(Next(r0, req), ins)
    ensures Keeps(After(Next(r0, req), ins[..t]).s, ins[t], After(Next(r0, req), ins[..t + 1]).s)
  {
    HeldFrom(Next(r0, req), ins, t);
  }

  // A finished transfer has had each planned burst accepted exactly once, in order, and leaves
  // no address waiting.
  lemma EachBurstAccepted(r0: Run, req: Inputs, ins: seq<Inputs>)
    requires Accepted(r0, req) && !r0.s.axi.arvalid && req.len % 4 == 0 && AlwaysObeys(Next(r0, req), ins)
    requires Completes(r0, req, ins)
    ensures Handshakes(Next(r0, req), ins) == Plan(req.srcAddr, req.len)
    ensures !After(Next(r0, req), ins).s.axi.arvalid
  {
    AllAnnounced(Next(r0, req), ins);
    TransferProgress(r0, req, ins);
    BurstsOnPlan(r0, req, ins);
  }

  // A burst must not cross a 4 KB boundary (section A3.4.1).
  predicate InPage(b: Burst) {
    b.addr % 4096 + 4 * b.beats <= 4096
  }

  lemma PlanInPageIff(src: U32, len: U32)
    requires len % 4 == 0
    ensures (forall n :: 0 <= n < |Plan(src, len)| ==> InPage(Plan(src, len)[n]))
       <==> len == 0 || src % 4096 + Min(64, len) <= 4096
  {
    PlanShape(src, len);
    if len > 0 {
      assert Plan(src, len)[0] == Burst(src, Min(16, len / 4));
    }
  }

  // Nothing splits bursts there: all bursts of a transfer are legal exactly when the first is.
  lemma InPageIff(r0: Run, req: Inputs, ins: seq<Inputs>)
    requires Accepted(r0, req) && req.len % 4 == 0 && Completes(r0, req, ins)
    ensures var bursts := After(Next(r0, req), ins).bursts;
      (forall n :: 0 <= n < |bursts| ==> InPage(bursts[n]))
      <==> req.len == 0 || req.srcAddr % 4096 + Min(64, req.len) <= 4096
  {
    BurstsOnPlan(r0, req, ins);
    PlanInPageIff(req.srcAddr, req.len);
  }

  // ---- what is copied ----

  // The source register never moves, so beat n comes from word n mod 16 of the source.
  ghost predicate Wrapped(r: Run, host: nat -> Word, src: U32) {
    forall n :: 0 <= n < |r.beats| ==> r.beats[n] == host(src + 4 * (n % 16))
  }

  lemma {:induction false} BeatsWrap(r0: Run, req: Inputs, ins: seq<Inputs>, host: nat -> Word)
    requires Accepted(r0, req) && req.len % 4 == 0
    requires |ins| - After(Next(r0, req), ins).stalls <= Work(req.len)
    requires AlwaysServes(host, Next(r0, req), ins)
    ensures Wrapped(After(Next(r0, req), ins), host, req.srcAddr)
    decreases |ins|
  {
    if ins != [] {
      var front := ins[..|ins| - 1];
      var before := After(Next(r0, req), front);
      forall t | 0 <= t < |front| ensures Serves(host, After(Next(r0, req), front[..t]).s, front[t]) {
        assert front[..t] == ins[..t];
      }
      BeatsWrap(r0, req, front, host);
      assert Serves(host, before.s, ins[|ins| - 1]);
      TransferProgress(r0, req, front);
      if TakesBeat(before.s, ins[|ins| - 1]) {
        BeatWraps(before, ins[|ins| - 1], host, req.srcAddr, req.dstAddr, req.len);
      }
    }
  }

  lemma BeatWraps(r: Run, i: Inputs, host: nat -> Word, src: U32, dst: U32, len: U32)
    requires InTransfer(r, src, dst, len) && Wrapped(r, host, src) && TakesBeat(r.s, i) && Serves(host, r.s, i)
    ensures Wrapped(Next(r, i), host, src)
  {
    assert Reading(r);
    assert |r.beats| % 16 == r.s.cnt.beats;
    assert i.rdata == host(src + 4 * (|r.beats| % 16));
  }

  // Written word n is host word n mod 16 from src on.
  ghost predicate Repeats(r: Run, host: nat -> Word, src: U32, len: U32) {
    && |r.writes| == |r.beats| == len / 4
    && forall n :: 0 <= n < len / 4 ==> r.writes[n].data == r.beats[n] == host(src + 4 * (n % 16))
  }

  lemma HostWords(r0: Run, req: Inputs, ins: seq<Inputs>, host: nat -> Word)
    requires Accepted(r0, req) && req.len % 4 == 0 && Completes(r0, req, ins)
    requires AlwaysServes(host, Next(r0, req), ins)
    ensures Repeats(After(Next(r0, req), ins), host, req.srcAddr, req.len)
  {
    TransferProgress(r0, req, ins);
    BeatsWrap(r0, req, ins, host);
  }

  // The words written are the len / 4 host words from src on.
  ghost predicate Copies(r: Run, host: nat -> Word, src: U32, len: U32) {
    |r.writes| == len / 4 && forall n :: 0 <= n < len / 4 ==> r.writes[n].data == host(src + 4 * n)
  }

  lemma OneBurstCopies(r: Run, host: nat -> Word, src: U32, len: U32)
    requires len <= 64 && Repeats(r, host, src, len)
    ensures Copies(r, host, src, len)
  {
  }

  lemma Word16Repeats(r: Run, host: nat -> Word, src: U32, len: U32)
    requires len > 64 && len % 4 == 0 && Repeats(r, host, src, len) && host(src) != host(src + 4 * 16)
    ensures |r.writes| > 16 && r.writes[16].data == host(src) && !Copies(r, host, src, len)
  {
  }

  // Over 64 bytes the 17th word written is the first word of the source again: a host memory
  // and a whole run that show it.
  lemma CopyRepeats(r0: Run, req: Inputs) returns (host: nat -> Word, ins: seq<Inputs>)
    requires Accepted(r0, req) && req.len % 4 == 0 && req.len > 64
    ensures Completes(r0, req, ins) && AlwaysServes(host, Next(r0, req), ins)
    ensures var r := After(Next(r0, req), ins);
      |r.writes| > 16 && r.writes[16].data == host(req.srcAddr) != host(req.srcAddr + 4 * 16)
      && !Copies(r, host, req.srcAddr, req.len)
  {
    host := a => if a == req.srcAddr then 1 else 0;
    ins := ReadyRun(r0, req, Work(req.len), host);
    HostWords(r0, req, ins, host);
    Word16Repeats(After(Next(r0, req), ins), host, req.srcAddr, req.len);
  }

  // Every finished transfer, from every host memory, copies a contiguous range.
  ghost predicate AlwaysCopies(r0: Run, req: Inputs)
    requires |r0.s.buf| == 16 && req.len % 4 == 0
  {
    forall host: nat -> Word, ins: seq<Inputs> ::
      Completes(r0, req, ins) && AlwaysServes(host, Next(r0, req), ins) ==>
      Copies(After(Next(r0, req), ins), host, req.srcAddr, req.len)
  }

  // That is so exactly for the lengths that fit in one burst.
  lemma ContiguousIff(r0: Run, req: Inputs)
    requires Accepted(r0, req) && req.len % 4 == 0
    ensures AlwaysCopies(r0, req) <==> req.len <= 64
  {
    if req.len <= 64 {
      forall host: nat -> Word, ins: seq<Inputs> |
        Completes(r0, req, ins) && AlwaysServes(host, Next(r0, req), ins)
        ensures Copies(After(Next(r0, req), ins), host, req.srcAddr, req.len)
      {
        HostWords(r0, req, ins, host);
        OneBurstCopies(After(Next(r0, req), ins), host, req.srcAddr, req.len);
      }
    } else {
      var host, ins := CopyRepeats(r0, req);
    }
  }

  // ---- vector memory ----

  // Memory while the engine runs on port A and the tree walker drives port C.
  function MemoryAfter(r: Run, mem: seq<Word>, ins: seq<Inputs>, tree: seq<WritePort>): (m: seq<Word>)
    requires |r.s.buf| == 16 && |mem| == DEPTH && |tree| == |ins|
    ensures |m| == DEPTH
    decreases |ins|
  {
    if ins == [] then mem
    else
      var k := |ins| - 1;
      MemStep(MemoryAfter(r, mem, ins[..k], tree[..k]), After(r, ins[..k]).s.port, tree[k])
  }

  // Word a after these writes
  function LastWritten(w: Word, writes: seq<MemWrite>, a: U12): Word {
    if writes == [] then w
    else
      var last := writes[|writes| - 1];
      if last.addr == a then last.data else LastWritten(w, writes[..|writes| - 1], a)
  }

  // The walker never writes word a.
  ghost predicate Leaves(tree: seq<WritePort>, a: U12) {
    forall t :: 0 <= t < |tree| ==> tree[t].wen ==> tree[t].addr != a
  }

  lemma NextReachesMemory(r: Run, i: Inputs, r': Run, w: Word, m: seq<Word>, c: WritePort, a: U12)
    requires |r.s.buf| == 16 && |m| == DEPTH && r' == Next(r, i) && (c.wen ==> c.addr != a)
    requires m[a] == LastWritten(w, r.writes, a)
    ensures MemStep(m, r.s.port, c)[a] == LastWritten(w, r'.writes, a)
  {
    if r.s.port.wen {
      assert r'.writes[..|r.writes|] == r.writes;
    }
  }

  lemma {:induction false} WritesReachMemory(r: Run, mem: seq<Word>, ins: seq<Inputs>, tree: seq<WritePort>, a: U12)
    requires |r.s.buf| == 16 && |mem| == DEPTH && |tree| == |ins| && r.writes == [] && Leaves(tree, a)
    ensures MemoryAfter(r, mem, ins, tree)[a] == LastWritten(mem[a], After(r, ins).writes, a)
    decreases |ins|
  {
    if ins != [] {
      var k := |ins| - 1;
      WritesReachMemory(r, mem, ins[..k], tree[..k], a);
      var before, m := After(r, ins[..k]), MemoryAfter(r, mem, ins[..k], tree[..k]);
      NextReachesMemory(before, ins[k], After(r, ins), mem[a], m, tree[k], a);
    }
  }

  // The words of a transfer go to every fourth address, and start over after 1024 of them:
  // word a holds the last of them that went there, or what it held before.
  ghost predicate WordCopied(w: Word, beats: seq<Word>, dst: U32, a: U12, w': Word) {
    && (forall n :: 0 <= n < |beats| <= n + 1024 && (dst + 4 * n) % 4096 == a ==> w' == beats[n])
    && ((forall n :: 0 <= n < |beats| ==> (dst + 4 * n) % 4096 != a) ==> w' == w)
  }

  lemma Distinct(dst: U32, n: nat, m: nat)
    requires n < m < n + 1024
    ensures (dst + 4 * n) % 4096 != (dst + 4 * m) % 4096
  {
  }

  lemma {:induction false} LastIsCopied(w: Word, writes: seq<MemWrite>, beats: seq<Word>, dst: U32, a: U12)
    requires |writes| == |beats| && forall n :: 0 <= n < |writes| ==> writes[n] == WriteOf(dst, n, beats[n])
    ensures WordCopied(w, beats, dst, a, LastWritten(w, writes, a))
  {
    if writes != [] {
      var k := |writes| - 1;
      LastIsCopied(w, writes[..k], beats[..k], dst, a);
      assert writes[k] == WriteOf(dst, k, beats[k]);
      if writes[k].addr == a {
        forall n | 0 <= n < k && |beats| <= n + 1024 ensures (dst + 4 * n) % 4096 != a {
          Distinct(dst, n, k);
        }
      } else {
        forall n | 0 <= n < k && |beats| <= n + 1024 && (dst + 4 * n) % 4096 == a
          ensures LastWritten(w, writes, a) == beats[n]
        {
          assert beats[..k][n] == beats[n];
        }
      }
    }
  }

  // Vector memory after a finished transfer, for any slave and whatever the walker writes
  // elsewhere meanwhile.
  lemma MemoryAfterTransfer(r0: Run, req: Inputs, mem: seq<Word>, ins: seq<Inputs>, tree: seq<WritePort>, a: U12)
    requires Accepted(r0, req) && req.len % 4 == 0 && |mem| == DEPTH && |tree| == |ins| && Leaves(tree, a)
    requires Completes(r0, req, ins)
    ensures |After(Next(r0, req), ins).beats| == req.len / 4
    ensures WordCopied(mem[a], After(Next(r0, req), ins).beats, req.dstAddr, a,
                       MemoryAfter(Next(r0, req), mem, ins, tree)[a])
  {
    var r := After(Next(r0, req), ins);
    TransferProgress(r0, req, ins);
    WritesReachMemory(Next(r0, req), mem, ins, tree, a);
    LastIsCopied(mem[a], r.writes, r.beats, req.dstAddr, a);
  }

  // From a host memory: of the last 1024 words, word n lands at a = dst + 4 n and is source
  // word n mod 16.
  lemma HostToMemory(r0: Run, req: Inputs, mem: seq<Word>, ins: seq<Inputs>, tree: seq<WritePort>,
                     host: nat -> Word, n: nat, a: U12)
    requires Accepted(r0, req) && req.len % 4 == 0 && |mem| == DEPTH && |tree| == |ins| && Leaves(tree, a)
    requires Completes(r0, req, ins) && AlwaysServes(host, Next(r0, req), ins)
    requires n < req.len / 4 <= n + 1024 && a == (req.dstAddr + 4 * n) % 4096
    ensures MemoryAfter(Next(r0, req), mem, ins, tree)[a] == host(req.srcAddr + 4 * (n % 16))
  {
    var r := After(Next(r0, req), ins);
    MemoryAfterTransfer(r0, req, mem, ins, tree, a);
    HostWords(r0, req, ins, host);
    CopiedWord(r, mem[a], req, host, a, MemoryAfter(Next(r0, req), mem, ins, tree)[a], n);
  }

  lemma CopiedWord(r: Run, w: Word, req: Inputs, host: nat -> Word, a: U12, w': Word, n: nat)
    requires WordCopied(w, r.beats, req.dstAddr, a, w') && Repeats(r, host, req.srcAddr, req.len)
    requires n < |r.beats| <= n + 1024 && (req.dstAddr + 4 * n) % 4096 == a
    ensures w' == host(req.srcAddr + 4 * (n % 16))
  {
    assert w' == r.beats[n];
  }

  // The engine and the memory clocked together: what the theorems say of After and MemoryAfter
  // they say of these two objects.
  method ClockTogether(dma: Controller, vm: VectorMemory, ins: seq<Inputs>, tree: seq<WritePort>, ghost r: Run)
    requires dma.burstBuf.Length == 16 && vm.mem.Length == DEPTH && |tree| == |ins| && dma.burstBuf != vm.mem
    requires r.s == dma.View()
    modifies dma, dma.burstBuf, vm, vm.mem
    ensures dma.View() == After(r, ins).s
    ensures vm.mem[..] == MemoryAfter(r, old(vm.mem[..]), ins, tree)
  {
    var t := 0;
    while t < |ins|
      invariant 0 <= t <= |ins|
      invariant dma.View() == After(r, ins[..t]).s
      invariant vm.mem[..] == MemoryAfter(r, old(vm.mem[..]), ins[..t], tree[..t])
    {
      assert ins[..t + 1][..t] == ins[..t] && tree[..t + 1][..t] == tree[..t];
      vm.Clock(dma.port, tree[t], 0, 0);
      dma.Clock(ins[t]);
      t := t + 1;
    }
    assert ins[..t] == ins && tree[..t] == tree;
  }
}
