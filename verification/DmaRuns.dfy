// Whole transfers of the DMA controller, for any length, timing and data.
module DmaRuns {
  import opened Words
  import opened Dma

  datatype MemWrite = MemWrite(addr: U12, data: Word)
  datatype Burst = Burst(addr: U32, beats: nat)

  // The registers with what has crossed the interfaces: read beats accepted, writes the
  // memory has taken, bursts issued, and cycles spent waiting for a beat.
  datatype Run = Run(s: Regs, beats: seq<Word>, writes: seq<MemWrite>, bursts: seq<Burst>, stalls: nat)

  predicate IssuesBurst(s: Regs) {
    s.ctl.phase == IssueAddress && s.job.remaining != 0
  }

  predicate Stalls(s: Regs, i: Inputs) {
    s.ctl.phase == Read && !TakesBeat(s, i)
  }

  function Next(r: Run, i: Inputs): (r': Run)
    requires |r.s.buf| == 16
    ensures |r'.s.buf| == 16
  {
    var s := r.s;
    Run(Step(s, i),
        if TakesBeat(s, i) then r.beats + [i.rdata] else r.beats,
        Issued(r),
        if IssuesBurst(s) then r.bursts + [Burst(s.job.src, BurstLength(s.job.remaining) + 1)] else r.bursts,
        if Stalls(s, i) then r.stalls + 1 else r.stalls)
  }

  function After(r: Run, ins: seq<Inputs>): (r': Run)
    requires |r.s.buf| == 16
    ensures |r'.s.buf| == 16
  {
    if ins == [] then r else Next(After(r, ins[..|ins| - 1]), ins[|ins| - 1])
  }

  // Every write so far, the one still on the memory port included.
  function Issued(r: Run): seq<MemWrite> {
    if r.s.port.wen then r.writes + [MemWrite(r.s.port.addr, r.s.port.data)] else r.writes
  }

  // Waiting for a request with no write or beat in flight, as after reset and after a transfer.
  ghost predicate Quiet(s: Regs) {
    s.ctl.phase == Idle && |s.buf| == 16 && !s.port.wen && !s.axi.rready
  }

  // ---- what every cycle of a word-multiple transfer keeps ----

  // Word n of a transfer to dst.
  function WriteOf(dst: U32, n: nat, data: Word): MemWrite {
    MemWrite((dst + 4 * n) % 4096, data)
  }

  // The writes issued are the first beats received, in order, at successive word addresses.
  ghost predicate WritesMatch(r: Run, dst: U32) {
    |Issued(r)| <= |r.beats| && forall n :: 0 <= n < |Issued(r)| ==> Issued(r)[n] == WriteOf(dst, n, r.beats[n])
  }

  // Bytes written and bytes remaining add up to the request.
  ghost predicate Conserved(r: Run, src: U32, dst: U32, len: U32) {
    && len % 4 == 0 && |r.s.buf| == 16 && r.s.job.src == src && r.s.ctl.busy && !r.s.ctl.done
    && 4 * |Issued(r)| + r.s.job.remaining == len
    && r.s.job.dst == (dst + 4 * |Issued(r)|) % TWO32
    && (r.s.axi.rready <==> r.s.ctl.phase == Read)
  }

  ghost predicate Issuing(r: Run) {
    && r.s.ctl.phase == IssueAddress && |r.beats| == |Issued(r)|
    && (r.s.job.remaining != 0 ==> |r.beats| % 16 == 0)
  }

  // left more words belong to this burst; it is full unless it ends the transfer.
  ghost predicate BurstOf(r: Run, left: int) {
    r.s.cnt.len < 16 && 0 < left && 4 * left <= r.s.job.remaining
    && (4 * left == r.s.job.remaining || r.s.cnt.len == 15)
  }

  // The beats received so far are in the buffer.
  ghost predicate Reading(r: Run) {
    var c, w := r.s.cnt, |Issued(r)|;
    && r.s.ctl.phase == Read && |r.s.buf| == 16 && w % 16 == 0 && BurstOf(r, c.len + 1)
    && r.s.axi.araddr == r.s.job.src && r.s.axi.arlen == c.len
    && c.beats == c.idx <= c.len && |r.beats| == w + c.beats
    && forall k :: 0 <= k < c.beats ==> r.s.buf[k] == r.beats[w + k]
  }

  // The buffer holds the whole burst, of which the first idx words are written.
  ghost predicate Writing(r: Run) {
    var c, w := r.s.cnt, |Issued(r)|;
    && r.s.ctl.phase == Write && |r.s.buf| == 16 && c.idx <= c.len && BurstOf(r, c.len + 1 - c.idx)
    && w >= c.idx && (w - c.idx) % 16 == 0
    && |r.beats| == w + (c.len + 1 - c.idx)
    && forall k :: c.idx <= k <= c.len ==> r.s.buf[k] == r.beats[w - c.idx + k]
  }

  ghost predicate Finishing(r: Run) {
    r.s.ctl.phase == Finish && r.s.job.remaining == 0 && |r.beats| == |Issued(r)|
  }

  ghost predicate InTransfer(r: Run, src: U32, dst: U32, len: U32) {
    && Conserved(r, src, dst, len) && WritesMatch(r, dst)
    && (Issuing(r) || Reading(r) || Writing(r) || Finishing(r))
  }

  // The 32-bit destination register addresses a 4096-word memory.
  lemma LowAddress(x: nat)
    ensures (x % TWO32) % 4096 == x % 4096
    ensures Add32(x % TWO32, 4) == (x + 4) % TWO32
  {
    var q := x / TWO32;
    assert x == TWO32 * q + x % TWO32;
    assert TWO32 * q == 4096 * (0x10_0000 * q);
  }

  lemma IssueStep(r: Run, i: Inputs, src: U32, dst: U32, len: U32)
    requires Conserved(r, src, dst, len) && Issuing(r)
    ensures Issued(Next(r, i)) == Issued(r) && Next(r, i).beats == r.beats
    ensures Conserved(Next(r, i), src, dst, len) && (Reading(Next(r, i)) || Finishing(Next(r, i)))
  {
  }

  lemma ReadStep(r: Run, i: Inputs, src: U32, dst: U32, len: U32)
    requires Conserved(r, src, dst, len) && Reading(r)
    ensures Issued(Next(r, i)) == Issued(r)
    ensures Next(r, i).beats == if i.rvalid then r.beats + [i.rdata] else r.beats
    ensures Conserved(Next(r, i), src, dst, len) && (Reading(Next(r, i)) || Writing(Next(r, i)))
  {
  }

  lemma WriteIssues(r: Run, i: Inputs, src: U32, dst: U32, len: U32)
    requires Conserved(r, src, dst, len) && Writing(r)
    ensures Next(r, i).beats == r.beats && |Issued(r)| < |r.beats|
    ensures Issued(Next(r, i)) == Issued(r) + [WriteOf(dst, |Issued(r)|, r.beats[|Issued(r)|])]
    ensures Conserved(Next(r, i), src, dst, len)
  {
    LowAddress(dst + 4 * |Issued(r)|);
  }

  lemma WriteStep(r: Run, i: Inputs, src: U32, dst: U32, len: U32)
    requires Conserved(r, src, dst, len) && Writing(r)
    ensures Writing(Next(r, i)) || Issuing(Next(r, i))
  {
    WriteIssues(r, i, src, dst, len);
    WriteRegs(r.s);
    if r.s.cnt.idx == r.s.cnt.len {
      assert Issuing(Next(r, i));
    } else {
      assert Writing(Next(r, i));
    }
  }

  lemma NextKeepsTransfer(r: Run, i: Inputs, src: U32, dst: U32, len: U32)
    requires InTransfer(r, src, dst, len) && r.s.ctl.phase != Finish
    ensures InTransfer(Next(r, i), src, dst, len)
  {
    if Issuing(r) {
      IssueStep(r, i, src, dst, len);
    } else if Reading(r) {
      ReadStep(r, i, src, dst, len);
    } else {
      WriteIssues(r, i, src, dst, len);
      WriteStep(r, i, src, dst, len);
    }
  }

  // ---- how long a transfer takes ----

  // Cycles from issuing the first burst to done, without waiting for beats.
  function Work(remaining: nat): nat
    requires remaining % 4 == 0
  {
    if remaining == 0 then 2
    else var n := BurstWords(remaining); 1 + 2 * n + Work(remaining - 4 * n)
  }

  function BurstWords(remaining: nat): (n: nat)
    requires remaining % 4 == 0 && remaining > 0
    ensures 0 < n <= 16 && 4 * n <= remaining
  {
    Min(16, remaining / 4)
  }

  lemma {:induction false} WorkClosedForm(remaining: nat)
    requires remaining % 4 == 0
    ensures Work(remaining) == 2 + 2 * (remaining / 4) + (remaining + 63) / 64
  {
    if remaining > 0 {
      WorkClosedForm(remaining - 4 * BurstWords(remaining));
    }
  }

  // Cycles left, not counting waits.
  function Left(s: Regs): nat {
    match s.ctl.phase
    case Idle => 0
    case IssueAddress => WorkOf(s.job.remaining)
    case Read => MinusTo0(s.cnt.len + 1, s.cnt.beats) + (s.cnt.len + 1)
      + WorkOf(MinusTo0(s.job.remaining, 4 * (s.cnt.len + 1)))
    case Write =>
      var left := MinusTo0(s.cnt.len + 1, s.cnt.idx);
      left + WorkOf(MinusTo0(s.job.remaining, 4 * left))
    case Finish => 1
  }

  function MinusTo0(a: nat, b: nat): nat {
    if a < b then 0 else a - b
  }

  function WorkOf(remaining: nat): nat {
    if remaining % 4 == 0 then Work(remaining) else 0
  }

  // Each cycle of a transfer is a wait or brings the end one closer.
  ghost predicate Counts(r: Run, i: Inputs)
    requires |r.s.buf| == 16
  {
    Left(Next(r, i).s) + (if Stalls(r.s, i) then 0 else 1) == Left(r.s)
  }

  lemma IssueCounts(r: Run, i: Inputs)
    requires |r.s.buf| == 16 && Issuing(r) && r.s.job.remaining % 4 == 0
    ensures Counts(r, i)
  {
  }

  lemma ReadCounts(r: Run, i: Inputs)
    requires Reading(r) && r.s.axi.rready
    ensures Counts(r, i)
  {
  }

  lemma WriteCounts(r: Run, i: Inputs)
    requires Writing(r)
    ensures Counts(r, i)
  {
    var s, s' := r.s, StepWrite(r.s);
    WriteRegs(s);
    assert Next(r, i).s == s';
    if s.cnt.idx == s.cnt.len {
      assert Left(s) == 1 + WorkOf(s'.job.remaining);
    } else {
      var left := s.cnt.len - s.cnt.idx;
      assert Left(s') == left + WorkOf(s.job.remaining - 4 * (left + 1));
    }
  }

  // The registers a write-out cycle of a burst leaves.
  lemma WriteRegs(s: Regs)
    requires |s.buf| == 16 && s.ctl.phase == Write && s.cnt.idx <= s.cnt.len < 16 && s.job.remaining >= 4
    ensures StepWrite(s).job.remaining == s.job.remaining - 4
    ensures s.cnt.idx < s.cnt.len ==>
      StepWrite(s).ctl.phase == Write && StepWrite(s).cnt == s.cnt.(idx := s.cnt.idx + 1)
    ensures s.cnt.idx == s.cnt.len ==> StepWrite(s).ctl.phase == IssueAddress
  {
  }

  lemma EachCycleCounts(r: Run, i: Inputs, src: U32, dst: U32, len: U32)
    requires InTransfer(r, src, dst, len)
    ensures Counts(r, i)
  {
    if Issuing(r) {
      IssueCounts(r, i);
    } else if Reading(r) {
      ReadCounts(r, i);
    } else if Writing(r) {
      WriteCounts(r, i);
    } else {
      FinishCounts(r, i);
    }
  }

  lemma FinishCounts(r: Run, i: Inputs)
    requires |r.s.buf| == 16 && r.s.ctl.phase == Finish
    ensures Counts(r, i)
  {
  }

  // Done was pulsed, every word is in memory, and the controller is idle.
  ghost predicate Finished(r: Run, src: U32, dst: U32, len: U32) {
    && r.s.ctl == Control(Idle, false, true) && Quiet(r.s) && r.s.job.remaining == 0
    && len % 4 == 0 && |r.beats| == |r.writes| == len / 4
    && forall n :: 0 <= n < len / 4 ==> r.writes[n] == WriteOf(dst, n, r.beats[n])
  }

  lemma FinishStep(r: Run, i: Inputs, src: U32, dst: U32, len: U32)
    requires InTransfer(r, src, dst, len) && Finishing(r)
    ensures Finished(Next(r, i), src, dst, len)
  {
  }

  // A request accepted while quiet.
  ghost predicate Accepted(r0: Run, req: Inputs) {
    && Quiet(r0.s) && r0 == Run(r0.s, [], [], [], 0) && req.start
  }

  // For any length that is a multiple of four, any slave timing and any data: after t cycles,
  // of which k waited for a beat, the transfer is over exactly when t - k reaches Work(len);
  // before that it is running and keeps its invariant.
  lemma {:induction false} TransferProgress(r0: Run, req: Inputs, ins: seq<Inputs>)
    requires Accepted(r0, req) && req.len % 4 == 0
    requires |ins| - After(Next(r0, req), ins).stalls <= Work(req.len)
    ensures var r, spent := After(Next(r0, req), ins), |ins| - After(Next(r0, req), ins).stalls;
      if spent == Work(req.len) then Finished(r, req.srcAddr, req.dstAddr, req.len)
      else InTransfer(r, req.srcAddr, req.dstAddr, req.len) && Left(r.s) == Work(req.len) - spent
    decreases |ins|
  {
    var src, dst, len := req.srcAddr, req.dstAddr, req.len;
    if ins == [] {
      assert Issuing(Next(r0, req));
      assert Conserved(Next(r0, req), src, dst, len);
    } else {
      var before := After(Next(r0, req), ins[..|ins| - 1]);
      var i := ins[|ins| - 1];
      TransferProgress(r0, req, ins[..|ins| - 1]);
      var spent := |ins| - 1 - before.stalls;
      if spent < Work(len) {
        EachCycleCounts(before, i, src, dst, len);
        if before.s.ctl.phase == Finish {
          FinishStep(before, i, src, dst, len);
        } else {
          NextKeepsTransfer(before, i, src, dst, len);
          LeftPositive(Next(before, i), src, dst, len);
        }
      }
    }
  }

  lemma LeftPositive(r: Run, src: U32, dst: U32, len: U32)
    requires InTransfer(r, src, dst, len)
    ensures Left(r.s) > 0
  {
  }

  // ---- between transfers ----

  ghost predicate AtRest(s: Regs) {
    Quiet(s) && !s.ctl.busy
  }

  lemma RestsAfterReset(buf: seq<Word>)
    requires |buf| == 16
    ensures AtRest(Reset(buf)) && !Reset(buf).ctl.done && Reset(buf).buf == buf
    ensures Reset(buf).job == Job(0, 0, 0) && Reset(buf).cnt == Counters(0, 0, 0)
    ensures Reset(buf).axi == ReadChannel(0, 0, false, false) && Reset(buf).port.addr == 0 && Reset(buf).port.data == 0
  {
  }

  lemma RestsWhenFinished(r: Run, src: U32, dst: U32, len: U32)
    requires Finished(r, src, dst, len)
    ensures AtRest(r.s)
  {
  }

  // Without a start the engine stays at rest: done goes low, and nothing else moves.
  lemma {:induction false} StaysAtRest(r: Run, ins: seq<Inputs>)
    requires AtRest(r.s) && forall t :: 0 <= t < |ins| ==> !ins[t].start
    ensures After(r, ins) == if ins == [] then r else r.(s := r.s.(ctl := Control(Idle, false, false)))
  {
    if ins != [] {
      StaysAtRest(r, ins[..|ins| - 1]);
    }
  }

  // So after any such wait the next request is accepted.
  lemma NextIsAccepted(r: Run, ins: seq<Inputs>, req: Inputs)
    requires AtRest(r.s) && (forall t :: 0 <= t < |ins| ==> !ins[t].start) && req.start
    ensures Accepted(Run(After(r, ins).s, [], [], [], 0), req) && After(r, ins).writes == r.writes
    ensures ins != [] ==> !After(r, ins).s.ctl.done
    ensures After(r, ins).s.axi == r.s.axi
  {
    StaysAtRest(r, ins);
  }

  // ---- which lengths terminate ----

  // A request that is not a whole number of words never ends: the remaining byte count is
  // never zero, whatever the slave does.
  ghost predicate Endless(s: Regs) {
    |s.buf| == 16 && s.job.remaining % 4 != 0 && s.ctl.phase != Idle && s.ctl.phase != Finish && !s.ctl.done
  }

  lemma {:induction false} EndlessForever(r: Run, ins: seq<Inputs>)
    requires Endless(r.s)
    ensures Endless(After(r, ins).s)
  {
    if ins != [] {
      EndlessForever(r, ins[..|ins| - 1]);
      var s := After(r, ins[..|ins| - 1]).s;
      assert Sub32(s.job.remaining, 4) % 4 == s.job.remaining % 4;
    }
  }

  // Fewer than four bytes left, but some: the next burst asks for 256 beats.
  lemma LastBytesAskFor256(r: Run, i: Inputs)
    requires |r.s.buf| == 16 && r.s.ctl.phase == IssueAddress && 0 < r.s.job.remaining < 4
    ensures Next(r, i).bursts == r.bursts + [Burst(r.s.job.src, 256)] && Next(r, i).s.axi.arlen == 255
  {
  }

  // n beats of that burst are read.
  ghost predicate Taken(r: Run, z: Run, n: nat) {
    && |z.s.buf| == 16 && z.s.job == r.s.job && z.writes == r.writes && !z.s.port.wen && |z.beats| == |r.beats| + n
    && if n < 256 then z.s.ctl.phase == Read && z.s.cnt == Counters(255, n, n % 16) && z.s.axi.rready
       else z.s.ctl.phase == Write && z.s.cnt == Counters(255, 0, 0)
  }

  lemma TakeOne(r: Run, z: Run, i: Inputs, z': Run, n: nat)
    requires Taken(r, z, n) && n < 256 && i.rvalid && z' == Next(z, i)
    ensures Taken(r, z', n + 1)
  {
  }

  // With a beat ready in every cycle all 256 are.
  lemma {:induction false} Takes256(r: Run, ins: seq<Inputs>)
    requires Taken(r, r, 0) && |ins| <= 256 && forall t :: 0 <= t < |ins| ==> ins[t].rvalid
    ensures Taken(r, After(r, ins), |ins|)
  {
    if ins != [] {
      var n := |ins| - 1;
      Takes256(r, ins[..n]);
      TakeOne(r, After(r, ins[..n]), ins[n], After(r, ins), n);
    }
  }

  // n words of it are written.
  ghost predicate WrittenOut(r: Run, z: Run, n: nat) {
    && |z.s.buf| == 16 && z.beats == r.beats && |Issued(z)| == |Issued(r)| + n
    && z.s.job == Job(r.s.job.src, (r.s.job.dst + 4 * n) % TWO32, (r.s.job.remaining - 4 * n) % TWO32)
    && if n < 16 then z.s.ctl.phase == Write && z.s.cnt == Counters(255, 0, n) else z.s.ctl.phase == IssueAddress
  }

  lemma WriteOne(r: Run, z: Run, i: Inputs, z': Run, n: nat)
    requires WrittenOut(r, z, n) && n < 16 && z' == Next(z, i)
    ensures WrittenOut(r, z', n + 1)
  {
    LowAddress(r.s.job.dst + 4 * n);
    FourLess(r.s.job.remaining - 4 * n);
  }

  lemma FourLess(x: int)
    ensures Sub32(x % TWO32, 4) == (x - 4) % TWO32
  {
  }

  // The buffer holds the last 16 beats, and they are all that is written.
  lemma {:induction false} Writes16(r: Run, ins: seq<Inputs>)
    requires WrittenOut(r, r, 0) && |ins| <= 16
    ensures WrittenOut(r, After(r, ins), |ins|)
  {
    if ins != [] {
      var n := |ins| - 1;
      Writes16(r, ins[..n]);
      WriteOne(r, After(r, ins[..n]), ins[n], After(r, ins), n);
    }
  }

  // The slave answers each burst with successive host words from the burst's address.
  ghost predicate Serves(host: nat -> Word, s: Regs, i: Inputs) {
    TakesBeat(s, i) ==> i.rdata == host(s.axi.araddr + 4 * s.cnt.beats)
  }

  ghost predicate AlwaysServes(host: nat -> Word, r: Run, ins: seq<Inputs>)
    requires |r.s.buf| == 16
  {
    forall t :: 0 <= t < |ins| ==> Serves(host, After(r, ins[..t]).s, ins[t])
  }

  // A cycle in which the slave accepts the address and has the next beat ready
  function NextBeatOf(host: nat -> Word, s: Regs): Inputs {
    Inputs(false, 0, 0, 0, true, host(s.axi.araddr + 4 * s.cnt.beats), true)
  }

  lemma ServesMore(host: nat -> Word, r: Run, ins: seq<Inputs>)
    requires |r.s.buf| == 16 && AlwaysServes(host, r, ins)
    ensures AlwaysServes(host, r, ins + [NextBeatOf(host, After(r, ins).s)])
  {
    var i := NextBeatOf(host, After(r, ins).s);
    forall t | 0 <= t < |ins + [i]| ensures Serves(host, After(r, (ins + [i])[..t]).s, (ins + [i])[t]) {
      assert (ins + [i])[..t] == if t < |ins| then ins[..t] else ins;
    }
  }

  // In a transfer the engine takes every beat it is offered.
  lemma NoStall(r: Run, i: Inputs, r': Run, src: U32, dst: U32, len: U32)
    requires InTransfer(r, src, dst, len) && i.rvalid && r' == Next(r, i)
    ensures r'.stalls == r.stalls
  {
  }

  lemma {:induction false} ReadyStep(r0: Run, req: Inputs, ins: seq<Inputs>, i: Inputs)
    requires Accepted(r0, req) && req.len % 4 == 0 && After(Next(r0, req), ins).stalls == 0
    requires |ins| < Work(req.len) && i.rvalid
    ensures After(Next(r0, req), ins + [i]).stalls == 0
  {
    TransferProgress(r0, req, ins);
    AfterOne(Next(r0, req), ins, i);
    NoStall(After(Next(r0, req), ins), i, After(Next(r0, req), ins + [i]), req.srcAddr, req.dstAddr, req.len);
  }

  lemma AfterOne(r: Run, ins: seq<Inputs>, i: Inputs)
    requires |r.s.buf| == 16
    ensures After(r, ins + [i]) == Next(After(r, ins), i)
  {
    assert (ins + [i])[..|ins|] == ins;
  }

  // n such cycles
  lemma {:induction false} ReadyRun(r0: Run, req: Inputs, n: nat, host: nat -> Word) returns (ins: seq<Inputs>)
    requires Accepted(r0, req) && req.len % 4 == 0 && n <= Work(req.len)
    ensures |ins| == n && After(Next(r0, req), ins).stalls == 0
    ensures AlwaysServes(host, Next(r0, req), ins)
  {
    if n == 0 {
      ins := [];
    } else {
      var front := ReadyRun(r0, req, n - 1, host);
      var i := NextBeatOf(host, After(Next(r0, req), front).s);
      ReadyStep(r0, req, front, i);
      ServesMore(host, Next(r0, req), front);
      ins := front + [i];
    }
  }

  // Done is ever pulsed exactly when the length is a multiple of four.
  lemma TerminatesIff(r0: Run, req: Inputs)
    requires Accepted(r0, req)
    ensures (exists ins :: After(Next(r0, req), ins).s.ctl.done) <==> req.len % 4 == 0
  {
    if req.len % 4 == 0 {
      var ins := ReadyRun(r0, req, Work(req.len), _ => 0);
      TransferProgress(r0, req, ins);
      assert After(Next(r0, req), ins).s.ctl.done;
    } else {
      forall ins ensures !After(Next(r0, req), ins).s.ctl.done {
        EndlessForever(Next(r0, req), ins);
      }
    }
  }

  // The top level asks for dimension * 4 bytes in 32-bit arithmetic, always a multiple of four.
  lemma TopLevelLengthTerminates(dimension: U32)
    ensures (dimension * 4) % TWO32 % 4 == 0
  {
  }

  // ---- bursts ----

  // The bursts a transfer issues: 16 beats each, the last one what is left, all from src.
  function Plan(src: U32, remaining: nat): seq<Burst>
    requires remaining % 4 == 0
  {
    if remaining == 0 then []
    else [Burst(src, BurstWords(remaining))] + Plan(src, remaining - 4 * BurstWords(remaining))
  }

  lemma {:induction false} PlanShape(src: U32, remaining: nat)
    requires remaining % 4 == 0
    ensures |Plan(src, remaining)| == (remaining + 63) / 64
    ensures forall n :: 0 <= n < |Plan(src, remaining)| ==>
      Plan(src, remaining)[n] == Burst(src, Min(16, remaining / 4 - 16 * n))
  {
    if remaining > 0 {
      var rest := remaining - 4 * BurstWords(remaining);
      PlanShape(src, rest);
      forall n | 0 <= n < |Plan(src, remaining)|
        ensures Plan(src, remaining)[n] == Burst(src, Min(16, remaining / 4 - 16 * n))
      {
        if n > 0 {
          assert Plan(src, remaining)[n] == Plan(src, rest)[n - 1];
        }
      }
    }
  }

  // Bytes still to be asked for.
  function Unasked(s: Regs): nat {
    match s.ctl.phase
    case Read => MinusTo0(s.job.remaining, 4 * (s.cnt.len + 1))
    case Write => MinusTo0(s.job.remaining, 4 * MinusTo0(s.cnt.len + 1, s.cnt.idx))
    case _ => s.job.remaining
  }

  ghost predicate OnPlan(r: Run, src: U32, len: U32) {
    len % 4 == 0 && Unasked(r.s) % 4 == 0 && r.bursts + Plan(src, Unasked(r.s)) == Plan(src, len)
  }

  lemma IssueKeepsPlan(r: Run, i: Inputs, src: U32, dst: U32, len: U32)
    requires Conserved(r, src, dst, len) && Issuing(r) && OnPlan(r, src, len)
    ensures OnPlan(Next(r, i), src, len)
  {
    var rest := r.s.job.remaining;
    if rest != 0 {
      var n := BurstWords(rest);
      assert Plan(src, rest) == [Burst(src, n)] + Plan(src, rest - 4 * n);
      assert Next(r, i).bursts == r.bursts + [Burst(src, n)];
      assert Unasked(Next(r, i).s) == rest - 4 * n;
    }
  }

  lemma WriteKeepsUnasked(r: Run)
    requires Writing(r)
    ensures Unasked(StepWrite(r.s)) == Unasked(r.s)
  {
    WriteRegs(r.s);
  }

  lemma NextKeepsPlan(r: Run, i: Inputs, src: U32, dst: U32, len: U32)
    requires InTransfer(r, src, dst, len) && OnPlan(r, src, len)
    ensures OnPlan(Next(r, i), src, len)
  {
    if Issuing(r) {
      IssueKeepsPlan(r, i, src, dst, len);
    } else if Writing(r) {
      WriteKeepsUnasked(r);
    }
  }

  // A finished transfer has issued exactly the planned bursts.
  lemma {:induction false} BurstsOnPlan(r0: Run, req: Inputs, ins: seq<Inputs>)
    requires Accepted(r0, req) && req.len % 4 == 0
    requires |ins| - After(Next(r0, req), ins).stalls <= Work(req.len)
    ensures OnPlan(After(Next(r0, req), ins), req.srcAddr, req.len)
    ensures |ins| - After(Next(r0, req), ins).stalls == Work(req.len) ==>
      After(Next(r0, req), ins).bursts == Plan(req.srcAddr, req.len)
    decreases |ins|
  {
    TransferProgress(r0, req, ins);
    if ins != [] {
      var before := After(Next(r0, req), ins[..|ins| - 1]);
      TransferProgress(r0, req, ins[..|ins| - 1]);
      BurstsOnPlan(r0, req, ins[..|ins| - 1]);
      if |ins| - 1 - before.stalls < Work(req.len) {
        NextKeepsPlan(before, ins[|ins| - 1], req.srcAddr, req.dstAddr, req.len);
      }
    }
  }
}
