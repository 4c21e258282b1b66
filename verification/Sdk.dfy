// The SDK calls a search makes, in order (sdk/src/libsppu.c), on the emulated driver.
//
// Any system call may fail for reasons outside the model (no memory, a bad copy, a
// time-out). A handle therefore carries the number of calls that still go through;
// every later call returns -1.
module Sdk {
  import opened Words
  import opened DotProduct
  import opened TopK
  import opened Database
  import opened EmuDevice

  class Handle {
    const dev: Device
    var callsLeft: nat

    constructor (dev: Device, calls: nat)
      ensures this.dev == dev && callsLeft == calls
    {
      this.dev, callsLeft := dev, calls;
    }

    // One system call.
    method Call() returns (ok: bool)
      modifies this
      ensures ok == (old(callsLeft) > 0)
      ensures callsLeft == if ok then old(callsLeft) - 1 else 0
    {
      ok := callsLeft > 0;
      if ok {
        callsLeft := callsLeft - 1;
      }
    }

    // sppu_load_vector
    method LoadVector(index: U32, data: seq<real>) returns (ok: bool)
      requires dev.Valid()
      modifies this, dev.mem
      ensures ok == (0 < |data| <= 768 && index < 25 && old(callsLeft) > 0)
      ensures callsLeft == old(callsLeft) - if 0 < |data| <= MAX_DIMENSION && old(callsLeft) > 0 then 1 else 0
      ensures forall i, d :: 0 <= i < MAX_VECTORS && 0 <= d < MAX_DIMENSION ==>
        dev.mem[i, d] == if ok && i == index && d < |data| then data[d] else old(dev.mem[i, d])
    {
      if |data| == 0 || |data| > MAX_DIMENSION {
        return false;
      }
      ok := Call();
      if ok {
        ok := dev.LoadVec(index, data);
      }
    }

    // sppu_set_target
    method SetTarget(data: seq<real>) returns (ok: bool)
      requires dev.Valid()
      modifies this, dev.target
      ensures ok == (0 < |data| <= 768 && old(callsLeft) > 0)
      ensures callsLeft == old(callsLeft) - if ok then 1 else 0
      ensures ok ==> dev.target[..] == data + old(dev.target[|data|..])
      ensures !ok ==> dev.target[..] == old(dev.target[..])
    {
      if |data| == 0 || |data| > MAX_DIMENSION {
        return false;
      }
      ok := Call();
      if ok {
        ok := dev.SetTarget(data);
      }
    }

    // sppu_wait_result: poll the status, then fetch the result.
    method WaitResult() returns (r: Option<Entry>)
      modifies this
      ensures dev.status == STATUS_DONE ==> r.Some? == (old(callsLeft) >= 2)
      ensures r.Some? ==> r.value == Entry(dev.resultIdx, dev.resultScore)
      ensures dev.status == STATUS_DONE && r.Some? ==> callsLeft == old(callsLeft) - 2
    {
      while true
        invariant dev.status == STATUS_DONE ==> callsLeft == old(callsLeft)
        decreases callsLeft
      {
        var ok := Call();
        if !ok {
          return None;
        }
        if dev.status == STATUS_DONE {
          break;
        }
      }
      var ok := Call();
      return if ok then Some(Entry(dev.resultIdx, dev.resultScore)) else None;
    }

    // The loading loop of both batch functions
    method LoadBatch(db: Db, offset: nat, n: nat) returns (ok: bool)
      requires dev.Valid() && db.Valid() && n <= MAX_VECTORS && offset + n <= db.count
      modifies this, dev.mem
      ensures ok == (old(callsLeft) >= n)
      ensures ok ==> callsLeft == old(callsLeft) - n && Loaded(dev, db, offset, n)
    {
      var i := 0;
      while i < n
        invariant 0 <= i <= n && i <= old(callsLeft)
        invariant callsLeft == old(callsLeft) - i
        invariant Loaded(dev, db, offset, i)
      {
        label before:
        ok := LoadVector(i, db.Row(offset + i));
        if !ok {
          return;
        }
        assert Loaded(dev, db, offset, i + 1) by {
          forall j, d | 0 <= j <= i && 0 <= d < db.dim ensures dev.mem[j, d] == db.Row(offset + j)[d] {
            assert j != i ==> old@before(dev.mem[j, d]) == db.Row(offset + j)[d];
          }
        }
        i := i + 1;
      }
      ok := true;
    }

    // Start the configured search and shift its index to the whole database.
    method StartAndWait(offset: nat) returns (r: Option<Entry>)
      requires dev.Valid() && dev.vecCount <= MAX_VECTORS
      modifies this, dev`ctrl, dev`status, dev`resultIdx, dev`resultScore
      ensures dev.Valid()
      ensures r.Some? == (old(callsLeft) >= 3)
      ensures r.Some? ==> callsLeft == old(callsLeft) - 3
      ensures r.Some? ==>
        r.value == Shifted(FirstMax(old(RowScores(dev.mem, dev.target, dev.vecCount, dev.dimension))), offset)
    {
      r := None;
      var ok := Call();
      if ok {
        dev.Start();
        r := WaitResult();
        if r.Some? {
          r := Some(r.value.(idx := ToU32(offset + r.value.idx)));
        }
      }
    }

    // search_batch and sppu_search_batch: whatever the device was left with, the answer is
    // the slice's own, and it arrives exactly when every call goes through.
    method SearchBatch(db: Db, offset: nat, n: nat, query: seq<real>) returns (r: Option<Entry>)
      requires dev.Valid() && db.Valid() && |query| == db.dim
      requires 0 < n <= MAX_VECTORS && offset + n <= db.count
      modifies this, dev, dev.mem, dev.target
      ensures dev.Valid()
      ensures r.Some? == (old(callsLeft) >= n + 6)
      ensures r.Some? ==> callsLeft == old(callsLeft) - (n + 6)
      ensures r.Some? ==> r.value == BatchWinner(db, query, offset, n)
    {
      r := None;
      var ok := Call();
      if ok {
        dev.Reset();
        ok := Call();
      }
      if ok {
        ok := dev.SetParam(n, db.dim);
        ok := LoadBatch(db, offset, n);
      }
      if ok {
        ok := SetTarget(query);
      }
      if ok {
        SameScores(dev, db, offset, n, query);
        r := StartAndWait(offset);
      }
    }
  }

  // The first n device rows start with these database rows.
  ghost predicate Loaded(dev: Device, db: Db, offset: nat, n: nat)
    requires dev.Valid() && db.Valid() && n <= MAX_VECTORS && offset + n <= db.count
    reads dev, dev.mem
  {
    forall j, d :: 0 <= j < n && 0 <= d < db.dim ==> dev.mem[j, d] == db.Row(offset + j)[d]
  }

  lemma SameScores(dev: Device, db: Db, offset: nat, n: nat, query: seq<real>)
    requires dev.Valid() && db.Valid() && |query| == db.dim
    requires n <= MAX_VECTORS && offset + n <= db.count
    requires dev.target[..db.dim] == query
    requires Loaded(dev, db, offset, n)
    ensures RowScores(dev.mem, dev.target, n, db.dim) == BatchScores(db, query, offset, n)
  {
    forall j | 0 <= j < n ensures EmuDevice.Row(dev.mem, j, db.dim) == db.Row(offset + j) {
    }
  }
}
