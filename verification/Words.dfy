// Machine words shared by the models.
//
// Counters, lengths and addresses are integers with their width written out;
// words that are combined bit by bit are bit-vectors.
module Words {
  datatype Option<+T> = None | Some(value: T)

  // SPPU_MAX_VECTORS and SPPU_MAX_DIMENSION
  const MAX_VECTORS: nat := 25
  const MAX_DIMENSION: nat := 768

  const TWO32: nat := 0x1_0000_0000

  // Registers of this many bits
  type U3 = n: nat | n < 8
  type U4 = n: nat | n < 16
  type U5 = n: nat | n < 32
  type U8 = n: nat | n < 256
  type U12 = n: nat | n < 4096
  type U32 = n: nat | n < TWO32

  type Word = bv32

  // The C conversion of an int to uint32_t.
  function ToU32(i: int): U32 {
    i % TWO32
  }

  function Add32(a: U32, b: U32): U32 {
    if a + b < TWO32 then a + b else a + b - TWO32
  }

  function Sub32(a: U32, b: U32): U32 {
    if a >= b then a - b else a + TWO32 - b
  }

  function Twice(w: Word): Word {
    w << 1
  }

  // w << k, one place at a time
  function Shl(w: Word, k: nat): Word {
    if k == 0 then w else Twice(Shl(w, k - 1))
  }

  // Modulo 2^32
  function Sum(a: Word, b: Word): Word {
    a + b
  }

  function Mixed(a: Word, b: Word): Word {
    a ^ b
  }

  function Successor(w: Word): Word {
    w + 1
  }

  // n modulo 2^32
  function ToWord(n: nat): Word {
    if n == 0 then 0 else Successor(ToWord(n - 1))
  }

  // A 16-bit branch mask, as the positions of its one bits.
  type Mask = m: set<nat> | forall b :: b in m ==> b < 16

  // (1 << n) - 1
  function LowBits(n: nat): (m: Mask)
    requires n <= 16
    ensures forall b :: b in m <==> 0 <= b < n
  {
    if n == 0 then {} else LowBits(n - 1) + {n - 1}
  }

  // The 16-bit word with these bits set, zero-extended
  function MaskWord(m: Mask): Word {
    LowByte(m) | HighByte(m)
  }

  function LowByte(m: Mask): Word {
    Bit(m, 0, 0x01) | Bit(m, 1, 0x02) | Bit(m, 2, 0x04) | Bit(m, 3, 0x08)
    | Bit(m, 4, 0x10) | Bit(m, 5, 0x20) | Bit(m, 6, 0x40) | Bit(m, 7, 0x80)
  }

  function HighByte(m: Mask): Word {
    Bit(m, 8, 0x0100) | Bit(m, 9, 0x0200) | Bit(m, 10, 0x0400) | Bit(m, 11, 0x0800)
    | Bit(m, 12, 0x1000) | Bit(m, 13, 0x2000) | Bit(m, 14, 0x4000) | Bit(m, 15, 0x8000)
  }

  function Bit(m: Mask, k: nat, w: Word): Word {
    if k in m then w else 0
  }

  function Min(a: nat, b: nat): nat {
    if a < b then a else b
  }

  function Max(a: nat, b: nat): nat {
    if a < b then b else a
  }

  // ---- what these are in the machine's own operations ----

  lemma WrapsAround(a: U32, b: U32)
    ensures Add32(a, b) == (a + b) % TWO32 && Sub32(a, b) == (a - b) % TWO32
  {
  }

  lemma MinAndMax(a: nat, b: nat)
    ensures Min(a, b) <= a && Min(a, b) <= b && Min(a, b) in {a, b}
    ensures Max(a, b) >= a && Max(a, b) >= b && Max(a, b) in {a, b}
  {
  }

  lemma ShlUnfolds(w: Word)
    ensures Shl(w, 0) == w && Shl(w, 1) == Twice(w) && Shl(w, 2) == Twice(Twice(w))
    ensures Shl(w, 3) == Twice(Twice(Twice(w))) && Shl(w, 4) == Twice(Twice(Twice(Twice(w))))
    ensures Shl(w, 5) == Twice(Shl(w, 4)) && Shl(w, 6) == Twice(Shl(w, 5)) && Shl(w, 7) == Twice(Shl(w, 6))
  {
    assert Shl(w, 0) == w;
    assert Shl(w, 1) == Twice(w);
    assert Shl(w, 2) == Twice(Twice(w));
  }

  lemma TwiceShifts(w: Word)
    ensures w == w << 0 && Twice(w) == w << 1 && Twice(Twice(w)) == w << 2 && Twice(Twice(Twice(w))) == w << 3
    ensures Twice(Twice(Twice(Twice(w)))) == w << 4
    ensures Twice(w << 4) == w << 5 && Twice(w << 5) == w << 6 && Twice(w << 6) == w << 7
  {
  }

  lemma ShlConstants(w: Word)
    ensures Shl(w, 0) == w << 0 && Shl(w, 1) == w << 1 && Shl(w, 2) == w << 2 && Shl(w, 3) == w << 3
    ensures Shl(w, 4) == w << 4 && Shl(w, 5) == w << 5 && Shl(w, 6) == w << 6 && Shl(w, 7) == w << 7
  {
    ShlUnfolds(w);
    TwiceShifts(w);
  }

  // a is w << k, for shifts of up to three places.
  ghost predicate ShiftIs(w: Word, k: nat, a: Word) {
    (k == 0 ==> a == w) && (k == 1 ==> a == w << 1) && (k == 2 ==> a == w << 2) && (k == 3 ==> a == w << 3)
  }

  lemma ShiftTable(w: Word, k: nat)
    ensures ShiftIs(w, k, Shl(w, k))
  {
    ShlConstants(w);
  }

  lemma ShiftCases(w: Word, k: nat, r: Word)
    requires k < 8
    requires (k == 0 ==> r == w << 0) && (k == 1 ==> r == w << 1) && (k == 2 ==> r == w << 2)
    requires (k == 3 ==> r == w << 3) && (k == 4 ==> r == w << 4) && (k == 5 ==> r == w << 5)
    requires (k == 6 ==> r == w << 6) && (k == 7 ==> r == w << 7)
    ensures r == w << k
  {
    if k == 0 {
    } else if k == 1 {
    } else if k == 2 {
    } else if k == 3 {
    } else if k == 4 {
    } else if k == 5 {
    } else if k == 6 {
    } else {
    }
  }

  lemma ShlIs(w: Word, k: nat)
    requires k < 8
    ensures Shl(w, k) == w << k
  {
    ShlConstants(w);
    ShiftCases(w, k, Shl(w, k));
  }

  // Four numbers more
  lemma NextWords(n: nat, w: Word)
    requires ToWord(n) == w
    ensures ToWord(n + 1) == Successor(w) && ToWord(n + 2) == Successor(Successor(w))
    ensures ToWord(n + 3) == Successor(Successor(Successor(w)))
    ensures ToWord(n + 4) == Successor(Successor(Successor(Successor(w))))
  {
    assert ToWord(n + 1) == Successor(w);
    assert ToWord(n + 2) == Successor(Successor(w));
    assert ToWord(n + 3) == Successor(Successor(Successor(w)));
  }

  lemma ToWordConstants()
    ensures ToWord(0) == 0 && ToWord(1) == 1 && ToWord(2) == 2 && ToWord(3) == 3
    ensures ToWord(4) == 4 && ToWord(5) == 5 && ToWord(6) == 6 && ToWord(7) == 7
    ensures ToWord(8) == 8 && ToWord(9) == 9 && ToWord(10) == 10 && ToWord(11) == 11
    ensures ToWord(12) == 12 && ToWord(13) == 13 && ToWord(14) == 14 && ToWord(15) == 15
  {
    NextWords(0, 0);
    NextWords(4, 4);
    NextWords(8, 8);
    NextWords(12, 12);
  }

  lemma Cast0(n: nat, r: Word)
    requires 0 <= n < 8
    requires n == 0 ==> r == 0
    requires n == 1 ==> r == 1
    requires n == 2 ==> r == 2
    requires n == 3 ==> r == 3
    requires n == 4 ==> r == 4
    requires n == 5 ==> r == 5
    requires n == 6 ==> r == 6
    requires n == 7 ==> r == 7
    ensures r == n as bv32
  {
    if n == 0 {
    } else if n == 1 {
    } else if n == 2 {
    } else if n == 3 {
    } else if n == 4 {
    } else if n == 5 {
    } else if n == 6 {
    } else {
    }
  }

  lemma Cast8(n: nat, r: Word)
    requires 8 <= n < 16
    requires n == 8 ==> r == 8
    requires n == 9 ==> r == 9
    requires n == 10 ==> r == 10
    requires n == 11 ==> r == 11
    requires n == 12 ==> r == 12
    requires n == 13 ==> r == 13
    requires n == 14 ==> r == 14
    requires n == 15 ==> r == 15
    ensures r == n as bv32
  {
    if n == 8 {
    } else if n == 9 {
    } else if n == 10 {
    } else if n == 11 {
    } else if n == 12 {
    } else if n == 13 {
    } else if n == 14 {
    } else {
    }
  }

  lemma ToWordIs(n: nat)
    requires n < 16
    ensures ToWord(n) == n as bv32
  {
    ToWordConstants();
    if n < 8 {
      Cast0(n, ToWord(n));
    } else {
      Cast8(n, ToWord(n));
    }
  }

  lemma MaskLow(m: Mask)
    ensures MaskWord(m) >> 16 == 0
    ensures (MaskWord(m) >> 0) & 1 == 1 <==> 0 in m
    ensures (MaskWord(m) >> 1) & 1 == 1 <==> 1 in m
    ensures (MaskWord(m) >> 2) & 1 == 1 <==> 2 in m
    ensures (MaskWord(m) >> 3) & 1 == 1 <==> 3 in m
    ensures (MaskWord(m) >> 4) & 1 == 1 <==> 4 in m
    ensures (MaskWord(m) >> 5) & 1 == 1 <==> 5 in m
    ensures (MaskWord(m) >> 6) & 1 == 1 <==> 6 in m
    ensures (MaskWord(m) >> 7) & 1 == 1 <==> 7 in m
  {
  }

  lemma MaskHigh(m: Mask)
    ensures (MaskWord(m) >> 8) & 1 == 1 <==> 8 in m
    ensures (MaskWord(m) >> 9) & 1 == 1 <==> 9 in m
    ensures (MaskWord(m) >> 10) & 1 == 1 <==> 10 in m
    ensures (MaskWord(m) >> 11) & 1 == 1 <==> 11 in m
    ensures (MaskWord(m) >> 12) & 1 == 1 <==> 12 in m
    ensures (MaskWord(m) >> 13) & 1 == 1 <==> 13 in m
    ensures (MaskWord(m) >> 14) & 1 == 1 <==> 14 in m
    ensures (MaskWord(m) >> 15) & 1 == 1 <==> 15 in m
  {
  }

  lemma BitCasesLow(w: Word, k: nat, on: bool)
    requires k < 8
    requires k == 0 ==> ((w >> 0) & 1 == 1 <==> on)
    requires k == 1 ==> ((w >> 1) & 1 == 1 <==> on)
    requires k == 2 ==> ((w >> 2) & 1 == 1 <==> on)
    requires k == 3 ==> ((w >> 3) & 1 == 1 <==> on)
    requires k == 4 ==> ((w >> 4) & 1 == 1 <==> on)
    requires k == 5 ==> ((w >> 5) & 1 == 1 <==> on)
    requires k == 6 ==> ((w >> 6) & 1 == 1 <==> on)
    requires k == 7 ==> ((w >> 7) & 1 == 1 <==> on)
    ensures (w >> k) & 1 == 1 <==> on
  {
    if k == 0 {
    } else if k == 1 {
    } else if k == 2 {
    } else if k == 3 {
    } else if k == 4 {
    } else if k == 5 {
    } else if k == 6 {
    } else {
    }
  }

  lemma BitCasesHigh(w: Word, k: nat, on: bool)
    requires 8 <= k < 16
    requires k == 8 ==> ((w >> 8) & 1 == 1 <==> on)
    requires k == 9 ==> ((w >> 9) & 1 == 1 <==> on)
    requires k == 10 ==> ((w >> 10) & 1 == 1 <==> on)
    requires k == 11 ==> ((w >> 11) & 1 == 1 <==> on)
    requires k == 12 ==> ((w >> 12) & 1 == 1 <==> on)
    requires k == 13 ==> ((w >> 13) & 1 == 1 <==> on)
    requires k == 14 ==> ((w >> 14) & 1 == 1 <==> on)
    requires k == 15 ==> ((w >> 15) & 1 == 1 <==> on)
    ensures (w >> k) & 1 == 1 <==> on
  {
    if k == 8 {
    } else if k == 9 {
    } else if k == 10 {
    } else if k == 11 {
    } else if k == 12 {
    } else if k == 13 {
    } else if k == 14 {
    } else {
    }
  }

  lemma LowBit(m: Mask, k: nat)
    requires k < 8
    ensures (MaskWord(m) >> k) & 1 == 1 <==> k in m
  {
    MaskLow(m);
    BitCasesLow(MaskWord(m), k, k in m);
  }

  lemma HighBit(m: Mask, k: nat)
    requires 8 <= k < 16
    ensures (MaskWord(m) >> k) & 1 == 1 <==> k in m
  {
    MaskHigh(m);
    BitCasesHigh(MaskWord(m), k, k in m);
  }

  // Bit k of the word is on exactly when k is in the mask, and there are no others.
  lemma MaskBits(m: Mask, k: nat)
    requires k < 16
    ensures (MaskWord(m) >> k) & 1 == 1 <==> k in m
    ensures MaskWord(m) >> 16 == 0
  {
    if k < 8 {
      LowBit(m, k);
    } else {
      HighBit(m, k);
    }
    MaskLow(m);
  }
}
