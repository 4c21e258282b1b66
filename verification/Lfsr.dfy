// The two 32-bit shift registers: taps 31 and 5 in the driver and QEMU, taps 31, 5 and 1
// in the hardware.
module Lfsr {
  import opened Words

  function SoftStep(seed: Word): Word {
    var feedback := (seed >> 31) ^ (seed >> 5);
    (seed << 1) | (feedback & 1)
  }

  // {state[30:0], state[31] ^ state[5] ^ state[1]}
  function HardStep(state: Word): Word {
    (state << 1) | (((state >> 31) ^ (state >> 5) ^ (state >> 1)) & 1)
  }

  function SoftBack(next: Word): Word {
    (next >> 1) | (((next ^ (next >> 6)) & 1) << 31)
  }

  function HardBack(next: Word): Word {
    (next >> 1) | (((next ^ (next >> 6) ^ (next >> 2)) & 1) << 31)
  }

  // Each step can be undone from either side, and zero is its own successor.
  lemma StepsAreBijections(s: Word)
    ensures SoftBack(SoftStep(s)) == s && SoftStep(SoftBack(s)) == s
    ensures HardBack(HardStep(s)) == s && HardStep(HardBack(s)) == s
    ensures SoftStep(0) == 0 && HardStep(0) == 0
  {
  }

  // Every bit moves up one place; the new low bit is on when exactly an odd number of the tapped
  // bits is.
  lemma Taps(s: Word)
    ensures SoftStep(s) >> 1 == s & 0x7FFF_FFFF && HardStep(s) >> 1 == s & 0x7FFF_FFFF
    ensures SoftStep(s) & 1 == 1 <==> ((s >> 31) & 1 == 1 <==> (s >> 5) & 1 != 1)
    ensures HardStep(s) & 1 == 1 <==> ((s >> 31) & 1 == 1 <==> ((s >> 5) & 1 == 1 <==> (s >> 1) & 1 == 1))
  {
  }

  function SoftIterate(n: nat, seed: Word): Word {
    if n == 0 then seed else SoftStep(SoftIterate(n - 1, seed))
  }

  function HardIterate(n: nat, seed: Word): Word {
    if n == 0 then seed else HardStep(HardIterate(n - 1, seed))
  }

  // From a seed other than zero no later state is zero, and the seed is recoverable:
  // different seeds never meet.
  lemma {:induction false} NeverZero(n: nat, seed: Word)
    requires seed != 0
    ensures SoftIterate(n, seed) != 0 && HardIterate(n, seed) != 0
  {
    if n > 0 {
      NeverZero(n - 1, seed);
      StepsAreBijections(SoftIterate(n - 1, seed));
      StepsAreBijections(HardIterate(n - 1, seed));
      assert SoftBack(0) == 0 && HardBack(0) == 0;
    }
  }

  lemma {:induction false} NeverMeet(n: nat, s: Word, t: Word)
    ensures SoftIterate(n, s) == SoftIterate(n, t) <==> s == t
    ensures HardIterate(n, s) == HardIterate(n, t) <==> s == t
  {
    if n > 0 {
      NeverMeet(n - 1, s, t);
      StepsAreBijections(SoftIterate(n - 1, s));
      StepsAreBijections(SoftIterate(n - 1, t));
      StepsAreBijections(HardIterate(n - 1, s));
      StepsAreBijections(HardIterate(n - 1, t));
    }
  }

  // The hardware's seed: the branch mask above 0x1234, or a constant when no branch is on.
  function HardSeed(mask: Mask): Word {
    if mask != {} then (MaskWord(mask) << 16) | 0x1234 else 0xABCD_1234
  }

  // The mask above, the constant below.
  lemma SeedParts(mask: Mask)
    ensures mask != {} ==> HardSeed(mask) >> 16 == MaskWord(mask) && HardSeed(mask) & 0xFFFF == 0x1234
    ensures mask == {} ==> HardSeed(mask) == 0xABCD_1234
  {
    MaskBits(mask, 0);
  }

  lemma SeedsAreNotZero(mask: Mask)
    ensures HardSeed(mask) != 0 && (1 as Word) != 0
  {
    if mask != {} {
      assert HardSeed(mask) & 0x1234 == 0x1234;
    }
  }
}
