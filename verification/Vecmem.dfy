// The shared vector memory (fpga/rtl/sppu_vecmem.v): 4096 words, two write ports with the
// DMA ahead of the tree walker, and registered reads.
module Vecmem {
  import opened Words

  const DEPTH: nat := 4096

  datatype WritePort = WritePort(addr: U12, data: Word, wen: bool)

  function Written(mem: seq<Word>, p: WritePort): (m: seq<Word>)
    requires |mem| == DEPTH
    ensures |m| == DEPTH
  {
    if p.wen then mem[p.addr := p.data] else mem
  }

  // One clock of the array: port A wins, and port C's write is then lost.
  function MemStep(mem: seq<Word>, a: WritePort, c: WritePort): (m: seq<Word>)
    requires |mem| == DEPTH
    ensures |m| == DEPTH
  {
    if a.wen then Written(mem, a) else Written(mem, c)
  }

  class VectorMemory {
    const mem: array<Word>
    var bRdata: Word
    var dRdata: Word

    constructor ()
      ensures mem.Length == DEPTH && fresh(mem)
    {
      mem := new Word[DEPTH];
      bRdata, dRdata := 0, 0;
    }

    // Reads return the word stored before this edge.
    method Clock(a: WritePort, c: WritePort, bAddr: U12, dAddr: U12)
      requires mem.Length == DEPTH
      modifies this, mem
      ensures mem[..] == MemStep(old(mem[..]), a, c)
      ensures mem[..] == if a.wen then old(mem[..])[a.addr := a.data]
                         else if c.wen then old(mem[..])[c.addr := c.data] else old(mem[..])
      ensures bRdata == old(mem[bAddr]) && dRdata == old(mem[dAddr])
    {
      bRdata, dRdata := mem[bAddr], mem[dAddr];
      if a.wen {
        mem[a.addr] := a.data;
      } else if c.wen {
        mem[c.addr] := c.data;
      }
    }
  }
}
