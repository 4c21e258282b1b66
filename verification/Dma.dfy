// The DMA controller (fpga/rtl/sppu_dma.v), one Step per clock with reset released.
// Every right-hand side reads the registers as they were before the edge. Registers are
// grouped as the source's port and register sections group them.
module Dma {
  import opened Words
  import opened Vecmem

  const BURST_MAX: U8 := 15

  datatype Phase = Idle | IssueAddress | Read | Write | Finish

  datatype Control = Control(phase: Phase, busy: bool, done: bool)

  // r_src, r_dst, r_remaining
  datatype Job = Job(src: U32, dst: U32, remaining: U32)

  // r_burst_len, r_beat_cnt, burst_idx
  datatype Counters = Counters(len: U8, beats: U8, idx: U4)

  // m_axi_araddr, m_axi_arlen, m_axi_arvalid, m_axi_rready
  datatype ReadChannel = ReadChannel(araddr: U32, arlen: U8, arvalid: bool, rready: bool)

  datatype Regs =
    Regs(ctl: Control, job: Job, cnt: Counters, axi: ReadChannel, port: WritePort, buf: seq<Word>)

  datatype Inputs = Inputs(
    start: bool, srcAddr: U32, dstAddr: U32, len: U32,
    arready: bool, rdata: Word, rvalid: bool)

  // (remaining > 64) ? 15 : remaining / 4 - 1, truncated to eight bits
  function BurstLength(remaining: U32): U8 {
    if remaining > 64 then BURST_MAX
    else if remaining < 4 then 255
    else remaining / 4 - 1
  }

  function StepIdle(s: Regs, i: Inputs): Regs {
    if i.start then
      s.(ctl := Control(IssueAddress, true, false), job := Job(i.srcAddr, i.dstAddr, i.len),
         port := s.port.(wen := false))
    else
      s.(ctl := s.ctl.(done := false), port := s.port.(wen := false))
  }

  function StepIssueAddress(s: Regs): Regs {
    if s.job.remaining == 0 then
      s.(ctl := Control(Finish, s.ctl.busy, false), port := s.port.(wen := false))
    else
      var len := BurstLength(s.job.remaining);
      s.(ctl := Control(Read, s.ctl.busy, false), cnt := Counters(len, 0, 0),
         axi := ReadChannel(s.job.src, len, true, true), port := s.port.(wen := false))
  }

  predicate TakesBeat(s: Regs, i: Inputs) {
    s.ctl.phase == Read && i.rvalid && s.axi.rready
  }

  function StepRead(s: Regs, i: Inputs): Regs
    requires |s.buf| == 16 && s.ctl.phase == Read
  {
    var beat := TakesBeat(s, i);
    var last := beat && s.cnt.beats == s.cnt.len;
    s.(ctl := Control(if last then Write else Read, s.ctl.busy, false),
       cnt := if beat then NextBeat(s.cnt) else s.cnt,
       axi := s.axi.(arvalid := s.axi.arvalid && !i.arready, rready := s.axi.rready && !last),
       port := s.port.(wen := false),
       buf := if beat then s.buf[s.cnt.idx := i.rdata] else s.buf)
  }

  // After the last beat the index starts over, for the write-out.
  function NextBeat(c: Counters): Counters {
    c.(beats := (c.beats + 1) % 256, idx := if c.beats == c.len then 0 else (c.idx + 1) % 16)
  }

  function StepWrite(s: Regs): Regs
    requires |s.buf| == 16
  {
    s.(ctl := Control(if s.cnt.idx + 1 > s.cnt.len % 16 then IssueAddress else Write, s.ctl.busy, false),
       job := Job(s.job.src, Add32(s.job.dst, 4), Sub32(s.job.remaining, 4)),
       cnt := s.cnt.(idx := (s.cnt.idx + 1) % 16),
       port := WritePort(s.job.dst % 4096, s.buf[s.cnt.idx], true))
  }

  function StepFinish(s: Regs): Regs {
    s.(ctl := Control(Idle, false, true), port := s.port.(wen := false))
  }

  function Step(s: Regs, i: Inputs): (s': Regs)
    requires |s.buf| == 16
    ensures |s'.buf| == 16
  {
    match s.ctl.phase
    case Idle => StepIdle(s, i)
    case IssueAddress => StepIssueAddress(s)
    case Read => StepRead(s, i)
    case Write => StepWrite(s)
    case Finish => StepFinish(s)
  }

  // The registers after reset; the burst buffer is not reset.
  function Reset(buf: seq<Word>): Regs {
    Regs(Control(Idle, false, false), Job(0, 0, 0), Counters(0, 0, 0),
         ReadChannel(0, 0, false, false), WritePort(0, 0, false), buf)
  }

  // The clocked block itself.
  class Controller {
    var ctl: Control
    var job: Job
    var cnt: Counters
    var axi: ReadChannel
    var port: WritePort
    const burstBuf: array<Word>

    ghost function View(): (s: Regs)
      reads this, burstBuf
      ensures |s.buf| == burstBuf.Length
    {
      Regs(ctl, job, cnt, axi, port, burstBuf[..])
    }

    constructor ()
      ensures burstBuf.Length == 16 && fresh(burstBuf) && View() == Reset(burstBuf[..])
    {
      ctl, job, cnt := Control(Idle, false, false), Job(0, 0, 0), Counters(0, 0, 0);
      axi, port := ReadChannel(0, 0, false, false), WritePort(0, 0, false);
      burstBuf := new Word[16];
    }

    method Clock(i: Inputs)
      requires burstBuf.Length == 16
      modifies this, burstBuf
      ensures View() == Step(old(View()), i)
    {
      match ctl.phase {
        case Idle => ClockIdle(i);
        case IssueAddress => ClockIssueAddress();
        case Read => ClockRead(i);
        case Write => ClockWrite();
        case Finish => ClockFinish();
      }
    }

    method ClockIdle(i: Inputs)
      requires burstBuf.Length == 16
      modifies this
      ensures View() == StepIdle(old(View()), i)
    {
      ctl, port := ctl.(done := false), port.(wen := false);
      if i.start {
        ctl := ctl.(busy := true, phase := IssueAddress);
        job := Job(i.srcAddr, i.dstAddr, i.len);
      }
    }

    method ClockIssueAddress()
      requires burstBuf.Length == 16
      modifies this
      ensures View() == StepIssueAddress(old(View()))
    {
      ctl, port := ctl.(done := false), port.(wen := false);
      if job.remaining == 0 {
        ctl := ctl.(phase := Finish);
      } else {
        cnt := Counters(BurstLength(job.remaining), 0, 0);
        axi := ReadChannel(job.src, BurstLength(job.remaining), true, true);
        ctl := ctl.(phase := Read);
      }
    }

    method ClockRead(i: Inputs)
      requires burstBuf.Length == 16 && ctl.phase == Read
      modifies this, burstBuf
      ensures View() == StepRead(old(View()), i)
    {
      var beat := i.rvalid && axi.rready;
      var last := beat && cnt.beats == cnt.len;
      if beat {
        Store(i.rdata);
      }
      ctl, port := Control(if last then Write else Read, ctl.busy, false), port.(wen := false);
      cnt := if beat then NextBeat(cnt) else cnt;
      axi := axi.(arvalid := axi.arvalid && !i.arready, rready := axi.rready && !last);
    }

    method Store(data: Word)
      requires burstBuf.Length == 16
      modifies burstBuf
      ensures burstBuf[..] == old(burstBuf[..])[cnt.idx := data]
    {
      burstBuf[cnt.idx] := data;
    }

    method ClockWrite()
      requires burstBuf.Length == 16 && ctl.phase == Write
      modifies this
      ensures View() == StepWrite(old(View()))
    {
      ctl := ctl.(done := false);
      port := WritePort(job.dst % 4096, burstBuf[cnt.idx], true);
      job := job.(dst := Add32(job.dst, 4), remaining := Sub32(job.remaining, 4));
      if cnt.idx + 1 > cnt.len % 16 {
        ctl := ctl.(phase := IssueAddress);
      }
      cnt := cnt.(idx := (cnt.idx + 1) % 16);
    }

    method ClockFinish()
      requires burstBuf.Length == 16
      modifies this
      ensures View() == StepFinish(old(View()))
    {
      port := port.(wen := false);
      ctl := Control(Idle, false, true);
    }
  }
}
