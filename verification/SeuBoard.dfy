// The clocked tree walker wired to the vector memory and the embedding-search responder, as
// the top level does (fpga/rtl/sppu_top.v).
module SeuBoard {
  import opened Words
  import opened Vecmem
  import opened SeuTree
  import opened SeuWalker
  import opened SeuRuns

  class Board {
    const walker: Walker
    const memory: VectorMemory
    var emb: Responder

    ghost predicate Valid()
      reads this, walker
    {
      && walker.Valid() && memory.mem.Length == DEPTH
      && memory.mem != walker.contextBuf && memory.mem != walker.nodeWeights
      && memory.mem != walker.pathTokens && memory.mem != walker.scoreBuf
    }

    ghost function Parts(): set<object> {
      {walker, walker.contextBuf, walker.nodeWeights, walker.pathTokens, walker.scoreBuf, memory, memory.mem}
    }

    ghost function View(): (y: System)
      requires Valid()
      reads this, walker, Parts()
      ensures SystemSized(y)
    {
      System(walker.View(), memory.mem[..], memory.dRdata, emb)
    }

    constructor ()
      ensures Valid() && fresh(Parts())
      ensures walker.ctl.phase == Idle && walker.cfg.treeConfig == 0
    {
      walker := new Walker();
      memory := new VectorMemory();
      emb := Responder(false, 0, 0);
    }

    // One clock edge: every part sees the others' registers from before it.
    method Clock(e: Env)
      requires Valid()
      modifies this, Parts()
      ensures Valid() && View() == Next(old(View()), e)
    {
      var i := Inputs(e.start, e.reset, e.depth, e.cfg, memory.dRdata, emb.done, emb.idx, emb.score, e.x);
      memory.Clock(e.dma, walker.cPort, 0, walker.dAddr);
      emb := Respond(emb, walker.emb.start);
      walker.Clock(i);
    }

    // The theorems about After are about this object.
    method Run(env: seq<Env>)
      requires Valid()
      modifies this, Parts()
      ensures Valid() && View() == After(old(View()), env)
    {
      var t := 0;
      while t < |env|
        invariant 0 <= t <= |env| && Valid() && View() == After(old(View()), env[..t])
      {
        assert env[..t + 1][..t] == env[..t];
        Clock(env[t]);
        t := t + 1;
      }
      assert env[..t] == env;
    }
  }
}
