// The tree generators: the SEU half of the kernel driver's emulation
// (kernel_module/sppu_driver.c) and the QEMU device (qemu/sppu_qemu.c).
// A float entry is its raw bit pattern; a branch score is an exact number.
module EmuSeu {
  import opened Words
  import opened Lfsr
  import opened DotProduct

  const VARIANTS: nat := 16
  const MAX_DEPTH: nat := 8
  const ENTRIES: nat := 128

  const READY: U32 := 0
  const BUSY: U32 := 1
  const DONE: U32 := 2

  const SEU_IRQ_EN: Word := 4
  const INT_SEU_DONE: Word := 4

  function ClampDepth(depth: U32): (d: nat)
    ensures 5 <= d <= MAX_DEPTH
    ensures (depth <= 5 ==> d == 5) && (depth >= 8 ==> d == 8) && (5 <= depth <= 8 ==> d == depth)
  {
    if depth < 5 then 5 else if depth > 8 then 8 else depth
  }

  // Bit 2 is set when interrupts are enabled, and otherwise left alone.
  function Raised(ctrl: Word, bits: Word): Word {
    if ctrl & 0x4 != 0 then bits | 0x4 else bits
  }

  // ---- the closed form of one entry ----

  // The branch and the level of entry i in a tree of depth d.
  function Variant(i: nat, d: nat): nat
    requires d > 0
  {
    i / d
  }

  // total entries are n branches of depth d, and fit the buffer.
  ghost predicate Fits(d: nat, n: nat, total: nat) {
    && 5 <= d <= MAX_DEPTH && 0 < n <= VARIANTS && 0 < total <= ENTRIES
    && forall i :: 0 <= i < total ==> Variant(i, d) < n
  }

  // (offset << (level & 3)) + (level << 1)
  function LevelWord(offset: Word, level: nat): Word {
    Sum(Shl(offset, level % 4), ToWord(2 * level))
  }

  // C adds before it xors.
  function EntryBits(seed: Word, offset: Word, level: nat): Word
    requires level < MAX_DEPTH
  {
    Mixed(seed, LevelWord(offset, level))
  }

  // Entry i of a tree of clamped depth d.
  function Entry(d: nat, offset: Word, i: nat): Word
    requires 0 < d <= MAX_DEPTH
  {
    EntryBits(SoftIterate(i, 1), offset, i % d)
  }

  // The tree buffer after count entries were generated over old contents.
  function Filled(before: seq<Word>, d: nat, offset: Word, count: nat): (tree: seq<Word>)
    requires 0 < d <= MAX_DEPTH && |before| == ENTRIES && count <= ENTRIES
    ensures |tree| == ENTRIES
  {
    if count == 0 then before
    else Filled(before, d, offset, count - 1)[count - 1 := Entry(d, offset, count - 1)]
  }

  lemma {:induction false} FilledAt(before: seq<Word>, d: nat, offset: Word, count: nat, i: nat)
    requires 0 < d <= MAX_DEPTH && |before| == ENTRIES && count <= ENTRIES && i < ENTRIES
    ensures Filled(before, d, offset, count)[i] == if i < count then Entry(d, offset, i) else before[i]
  {
    if count > 0 {
      FilledAt(before, d, offset, count - 1, i);
    }
  }

  // x is (offset << (level & 3)) + (level << 1), level by level.
  ghost predicate AddendIs(x: Word, offset: Word, level: nat) {
    match level
    case 0 => x == offset
    case 1 => x == (offset << 1) + 2
    case 2 => x == (offset << 2) + 4
    case 3 => x == (offset << 3) + 6
    case 4 => x == offset + 8
    case 5 => x == (offset << 1) + 10
    case 6 => x == (offset << 2) + 12
    case 7 => x == (offset << 3) + 14
    case _ => false
  }

  // w is the seed xored with that addend.
  ghost predicate WordIs(w: Word, seed: Word, offset: Word, level: nat) {
    AddendIs(w ^ seed, offset, level)
  }

  // The first count words of a tree of depth d
  ghost predicate TreeIs(tree: seq<Word>, d: nat, offset: Word, count: nat) {
    && 0 < d <= 8 && count <= |tree|
    && forall i :: 0 <= i < count ==> WordIs(tree[i], SoftIterate(i, 1), offset, i % d)
  }

  lemma LevelWordIs(offset: Word, level: nat, a: Word, b: Word)
    requires a == Shl(offset, level % 4) && b == ToWord(2 * level)
    ensures LevelWord(offset, level) == Sum(a, b)
  {
  }

  ghost predicate DoubleIs(level: nat, b: Word) {
    && (level == 0 ==> b == 0) && (level == 1 ==> b == 2) && (level == 2 ==> b == 4) && (level == 3 ==> b == 6)
    && (level == 4 ==> b == 8) && (level == 5 ==> b == 10) && (level == 6 ==> b == 12) && (level == 7 ==> b == 14)
  }

  lemma DoubleTable(level: nat)
    ensures DoubleIs(level, ToWord(2 * level))
  {
    ToWordConstants();
  }

  lemma Levels01(x: Word, offset: Word, level: nat, a: Word, b: Word)
    requires x == a + b && 0 <= level <= 1 && ShiftIs(offset, level % 4, a) && DoubleIs(level, b)
    ensures AddendIs(x, offset, level)
  {
    if level == 0 {
      assert level % 4 == 0;
    }
  }

  lemma Levels23(x: Word, offset: Word, level: nat, a: Word, b: Word)
    requires x == a + b && 2 <= level <= 3 && ShiftIs(offset, level % 4, a) && DoubleIs(level, b)
    ensures AddendIs(x, offset, level)
  {
    if level == 2 {
      assert level % 4 == 2;
    }
  }

  lemma Levels45(x: Word, offset: Word, level: nat, a: Word, b: Word)
    requires x == a + b && 4 <= level <= 5 && ShiftIs(offset, level % 4, a) && DoubleIs(level, b)
    ensures AddendIs(x, offset, level)
  {
    if level == 4 {
      assert level % 4 == 0;
    }
  }

  lemma Levels67(x: Word, offset: Word, level: nat, a: Word, b: Word)
    requires x == a + b && 6 <= level <= 7 && ShiftIs(offset, level % 4, a) && DoubleIs(level, b)
    ensures AddendIs(x, offset, level)
  {
    if level == 6 {
      assert level % 4 == 2;
    }
  }

  lemma FromTables(x: Word, offset: Word, level: nat, a: Word, b: Word)
    requires x == Sum(a, b) && level < 8 && ShiftIs(offset, level % 4, a) && DoubleIs(level, b)
    ensures AddendIs(x, offset, level)
  {
    if level < 2 {
      Levels01(x, offset, level, a, b);
    } else if level < 4 {
      Levels23(x, offset, level, a, b);
    } else if level < 6 {
      Levels45(x, offset, level, a, b);
    } else {
      Levels67(x, offset, level, a, b);
    }
  }

  lemma Unmixed(w: Word, seed: Word, x: Word)
    requires w == Mixed(seed, x)
    ensures w ^ seed == x
  {
  }

  lemma LevelWordTable(offset: Word, level: nat)
    requires level < MAX_DEPTH
    ensures AddendIs(LevelWord(offset, level), offset, level)
  {
    var a, b := Shl(offset, level % 4), ToWord(2 * level);
    ShiftTable(offset, level % 4);
    DoubleTable(level);
    LevelWordIs(offset, level, a, b);
    FromTables(LevelWord(offset, level), offset, level, a, b);
  }

  lemma MixedWord(w: Word, seed: Word, x: Word, offset: Word, level: nat)
    requires w == Mixed(seed, x) && AddendIs(x, offset, level)
    ensures WordIs(w, seed, offset, level)
  {
    Unmixed(w, seed, x);
  }

  lemma EntryIs(seed: Word, offset: Word, level: nat)
    requires level < MAX_DEPTH
    ensures WordIs(EntryBits(seed, offset, level), seed, offset, level)
  {
    LevelWordTable(offset, level);
    MixedWord(EntryBits(seed, offset, level), seed, LevelWord(offset, level), offset, level);
  }

  lemma FilledIs(before: seq<Word>, d: nat, offset: Word, count: nat)
    requires 0 < d <= MAX_DEPTH && |before| == ENTRIES && count <= ENTRIES
    ensures TreeIs(Filled(before, d, offset, count), d, offset, count)
  {
    forall i | 0 <= i < count
      ensures WordIs(Filled(before, d, offset, count)[i], SoftIterate(i, 1), offset, i % d)
    {
      FilledAt(before, d, offset, count, i);
      EntryIs(SoftIterate(i, 1), offset, i % d);
    }
  }

  // ---- branch scores ----

  function EntryScore(bits: Word): (s: real)
    ensures s >= 0.0
  {
    (bits & 0xFFFF) as int as real / 65535.0
  }

  // The scores of the first count entries.
  function EntryScores(d: nat, offset: Word, count: nat): (s: seq<real>)
    requires 0 < d <= MAX_DEPTH
    ensures |s| == count
    ensures forall i :: 0 <= i < count ==> s[i] == EntryScore(Entry(d, offset, i))
  {
    seq(count, i requires 0 <= i < count => EntryScore(Entry(d, offset, i)))
  }

  // What the first count of these entry scores add to branch v.
  function BranchTotal(d: nat, s: seq<real>, v: nat, count: nat): real
    requires 0 < d && count <= |s|
  {
    if count == 0 then 0.0
    else
      var rest := BranchTotal(d, s, v, count - 1);
      if Variant(count - 1, d) == v then rest + s[count - 1] else rest
  }

  // The accumulators after the first count entries of a build.
  function Accumulated(before: seq<real>, d: nat, s: seq<real>, count: nat): (scores: seq<real>)
    requires 0 < d && |before| == VARIANTS && count <= |s|
    ensures |scores| == VARIANTS
  {
    if count == 0 then before
    else
      var scores, v := Accumulated(before, d, s, count - 1), Variant(count - 1, d);
      if v < VARIANTS then scores[v := scores[v] + s[count - 1]] else scores
  }

  // A build adds to each branch the scores of its own entries, on top of earlier builds.
  lemma {:induction false} AccumulatedAt(before: seq<real>, d: nat, s: seq<real>, count: nat, v: nat)
    requires 0 < d && |before| == VARIANTS && v < VARIANTS && count <= |s|
    ensures Accumulated(before, d, s, count)[v] == before[v] + BranchTotal(d, s, v, count)
  {
    if count > 0 {
      AccumulatedAt(before, d, s, count - 1, v);
    }
  }

  // The branch of the first best entry so far, and its score.
  function BestBranch(d: nat, s: seq<real>, count: nat): (int, real)
    requires 0 < d && count <= |s|
  {
    var first := FirstMax(s[..count]);
    (if first.index < 0 then -1 else Variant(first.index, d), first.score)
  }

  lemma BestStep(d: nat, s: seq<real>, i: nat)
    requires 0 < d && i < |s|
    ensures BestBranch(d, s, i + 1) ==
      if s[i] > BestBranch(d, s, i).1 then (Variant(i, d), s[i]) else BestBranch(d, s, i)
  {
    FirstMaxStep(s, i);
  }

  // ---- the packed configuration: branches in bits 3..0, context length in 7..4, bit 8 ----

  // sppu_seu_build_tree
  function PackConfig(maxBranches: U32, contextLen: U32, autoValidate: bool): (config: U32) {
    maxBranches % 16 + 16 * (contextLen % 16) + if autoValidate then 256 else 0
  }

  function UnpackBranches(config: U32): (n: nat)
    ensures 1 <= n <= VARIANTS && n % 16 == config % 16
  {
    if config % 16 == 0 then 16 else config % 16
  }

  function UnpackContext(config: U32): (n: nat)
    ensures 1 <= n <= 15
  {
    var raw := config / 16 % 16;
    if raw == 0 then 1 else raw
  }

  predicate UnpackAuto(config: U32) {
    config / 256 % 2 == 1
  }

  // config | SPPU_TREE_CFG_AUTO_VALIDATE
  function WithAuto(config: U32): U32 {
    if UnpackAuto(config) then config else config + 256
  }

  // The branch and context fields sit in the low eight bits.
  lemma LowFields(q: nat, low: nat)
    requires low < 256
    ensures (256 * q + low) % 16 == low % 16 && (256 * q + low) / 16 % 16 == low / 16
    ensures (256 * q + low) / 256 == q
  {
    assert 256 * q + low == 16 * (16 * q + low / 16) + low % 16;
    assert (256 * q + low) / 16 == 16 * q + low / 16;
  }

  lemma SetsOneBit(q: nat, low: nat)
    requires q % 2 == 0 && low < 256
    ensures (256 * (q + 1) + low) / 512 == (256 * q + low) / 512
  {
    assert 256 * q + low == 512 * (q / 2) + low;
  }

  // It sets the auto-validate bit and leaves every other field as it was.
  lemma WithAutoFields(config: U32)
    ensures WithAuto(config) / 256 % 2 == 1
    ensures WithAuto(config) % 256 == config % 256 && WithAuto(config) / 512 == config / 512
    ensures UnpackBranches(WithAuto(config)) == UnpackBranches(config)
    ensures UnpackContext(WithAuto(config)) == UnpackContext(config)
  {
    var q, low := config / 256, config % 256;
    LowFields(q, low);
    if !UnpackAuto(config) {
      assert WithAuto(config) == 256 * (q + 1) + low;
      LowFields(q + 1, low);
      SetsOneBit(q, low);
    }
  }

  // The device reads back what the SDK packed exactly within these ranges; 16 branches are
  // coded as zero.
  lemma ConfigRoundTrip(maxBranches: U32, contextLen: U32, autoValidate: bool)
    ensures UnpackBranches(PackConfig(maxBranches, contextLen, autoValidate)) == maxBranches
       <==> 1 <= maxBranches <= 16
    ensures UnpackContext(PackConfig(maxBranches, contextLen, autoValidate)) == contextLen
       <==> 1 <= contextLen <= 15
    ensures contextLen % 16 == 0 ==> UnpackContext(PackConfig(maxBranches, contextLen, autoValidate)) == 1
    ensures UnpackAuto(PackConfig(maxBranches, contextLen, autoValidate)) == autoValidate
  {
    var config := PackConfig(maxBranches, contextLen, autoValidate);
    assert config / 16 == contextLen % 16 + if autoValidate then 16 else 0;
  }

  // ---- builds since the driver was loaded ----

  // The registers a build reads
  datatype Request = Request(config: U32, depth: U32, offset: Word) {
    // max_branches * depth
    function Size(): nat {
      UnpackBranches(config) * ClampDepth(depth)
    }

    function Scores(): (s: seq<real>)
      ensures |s| == Size()
    {
      EntryScores(ClampDepth(depth), offset, Size())
    }

    // What it adds to branch v
    function Own(v: nat): real {
      BranchTotal(ClampDepth(depth), Scores(), v, Size())
    }

    function Best(): int {
      BestBranch(ClampDepth(depth), Scores(), Size()).0
    }
  }

  // What these builds leave in the accumulator of branch v; nothing ever clears it.
  function ScoreAfter(builds: seq<Request>, v: nat): real {
    if builds == [] then 0.0
    else ScoreAfter(builds[..|builds| - 1], v) + builds[|builds| - 1].Own(v)
  }

  lemma OneMoreBuild(builds: seq<Request>, r: Request, v: nat)
    ensures ScoreAfter(builds + [r], v) == ScoreAfter(builds, v) + r.Own(v)
  {
    assert (builds + [r])[..|builds|] == builds;
  }

  // The accumulators after these builds
  ghost predicate Recorded(builds: seq<Request>, scores: seq<real>) {
    |scores| == VARIANTS && forall v :: 0 <= v < VARIANTS ==> scores[v] == ScoreAfter(builds, v)
  }

  lemma HistoryKept(builds: seq<Request>, r: Request, before: seq<real>)
    requires Recorded(builds, before)
    ensures Recorded(builds + [r], Accumulated(before, ClampDepth(r.depth), r.Scores(), r.Size()))
  {
    forall v | 0 <= v < VARIANTS
      ensures Accumulated(before, ClampDepth(r.depth), r.Scores(), r.Size())[v] == ScoreAfter(builds + [r], v)
    {
      AccumulatedAt(before, ClampDepth(r.depth), r.Scores(), r.Size(), v);
      OneMoreBuild(builds, r, v);
    }
  }

  // Depths are 5 to 8, so a build of at most 16 branches fits the buffer.
  lemma BuildFits(r: Request)
    ensures Fits(ClampDepth(r.depth), UnpackBranches(r.config), r.Size())
  {
    var d, n := ClampDepth(r.depth), UnpackBranches(r.config);
    forall i | 0 <= i < n * d ensures Variant(i, d) < n {
      if d == 5 {
      } else if d == 6 {
      } else if d == 7 {
      } else {
      }
    }
  }

  // Scores are not negative, so a build has a best branch, and it is one of its own.
  lemma BestExists(r: Request)
    ensures 0 <= r.Best() < UnpackBranches(r.config)
  {
    var s := r.Scores();
    BuildFits(r);
    FirstMaxIsFirst(s);
    assert s[..r.Size()] == s && s[0] >= 0.0;
  }

  // ---- when the reported score is the build's own ----

  // Branch v has the d entries from v * d on, at levels 0 and up.
  lemma FirstEntries(d: nat, v: nat, k: nat)
    requires 5 <= d <= MAX_DEPTH && k < d
    ensures Variant(v * d + k, d) == v && (v * d + k) % d == k
  {
    if d == 5 {
    } else if d == 6 {
    } else if d == 7 {
    } else {
    }
  }

  lemma LowPositive(w: Word)
    requires w & 1 == 1 || (w >> 1) & 1 == 1
    ensures w & 0xFFFF != 0
  {
  }

  lemma Positive(w: Word)
    requires w != 0
    ensures w as int > 0
  {
  }

  lemma BitsScore(w: Word)
    ensures (w & 1 == 1 || (w >> 1) & 1 == 1) ==> EntryScore(w) > 0.0
  {
    if w & 1 == 1 || (w >> 1) & 1 == 1 {
      LowPositive(w);
      Positive(w & 0xFFFF);
    }
  }

  // The low bit of level 0 and the next bit of level 1 cannot both be zero.
  lemma OddBit(s: Word, offset: Word, v: Word, w: Word)
    requires WordIs(v, s, offset, 0) && WordIs(w, SoftStep(s), offset, 1)
    ensures v & 1 == 1 || (w >> 1) & 1 == 1
  {
  }

  lemma LevelsScore(s: Word, offset: Word)
    ensures EntryScore(EntryBits(s, offset, 0)) > 0.0 || EntryScore(EntryBits(SoftStep(s), offset, 1)) > 0.0
  {
    EntryIs(s, offset, 0);
    EntryIs(SoftStep(s), offset, 1);
    OddBit(s, offset, EntryBits(s, offset, 0), EntryBits(SoftStep(s), offset, 1));
    BitsScore(EntryBits(s, offset, 0));
    BitsScore(EntryBits(SoftStep(s), offset, 1));
  }

  // So levels 0 and 1 of a branch, the entries from i = v * d on, cannot both score zero.
  lemma TwoLevels(d: nat, offset: Word, v: nat, i: nat)
    requires 5 <= d <= MAX_DEPTH && i == v * d
    ensures Variant(i, d) == Variant(i + 1, d) == v
    ensures EntryScore(Entry(d, offset, i)) > 0.0 || EntryScore(Entry(d, offset, i + 1)) > 0.0
  {
    FirstEntries(d, v, 0);
    FirstEntries(d, v, 1);
    LevelsScore(SoftIterate(i, 1), offset);
  }

  lemma {:induction false} TotalGrows(d: nat, s: seq<real>, v: nat, k: nat, count: nat)
    requires 0 < d && k <= count <= |s| && forall i :: 0 <= i < |s| ==> s[i] >= 0.0
    ensures 0.0 <= BranchTotal(d, s, v, k) <= BranchTotal(d, s, v, count)
    decreases count
  {
    if k < count {
      TotalGrows(d, s, v, k, count - 1);
    } else if k > 0 {
      TotalGrows(d, s, v, k - 1, k - 1);
    }
  }

  lemma {:induction false} NoneOfOthers(d: nat, s: seq<real>, v: nat, count: nat)
    requires 0 < d && count <= |s| && forall i :: 0 <= i < count ==> Variant(i, d) != v
    ensures BranchTotal(d, s, v, count) == 0.0
  {
    if count > 0 {
      NoneOfOthers(d, s, v, count - 1);
    }
  }

  lemma TwoMore(d: nat, s: seq<real>, v: nat, i: nat)
    requires 0 < d && i + 2 <= |s| && Variant(i, d) == Variant(i + 1, d) == v
    ensures BranchTotal(d, s, v, i + 2) == BranchTotal(d, s, v, i) + s[i] + s[i + 1]
  {
    assert BranchTotal(d, s, v, i + 1) == BranchTotal(d, s, v, i) + s[i];
  }

  lemma TwoAdd(d: nat, s: seq<real>, v: nat, i: nat)
    requires 0 < d && i + 2 <= |s| && Variant(i, d) == Variant(i + 1, d) == v
    requires (forall j :: 0 <= j < |s| ==> s[j] >= 0.0) && (s[i] > 0.0 || s[i + 1] > 0.0)
    ensures BranchTotal(d, s, v, |s|) > 0.0
  {
    TwoMore(d, s, v, i);
    TotalGrows(d, s, v, i, i);
    TotalGrows(d, s, v, i + 2, |s|);
  }

  lemma InBuild(d: nat, v: nat, n: nat)
    requires 5 <= d <= MAX_DEPTH && v < n
    ensures v * d + 2 <= n * d
  {
    assert n * d == v * d + d + (n - v - 1) * d;
  }

  lemma Covered(r: Request, v: nat)
    requires v < UnpackBranches(r.config)
    ensures r.Own(v) > 0.0
  {
    var d := ClampDepth(r.depth);
    var i := v * d;
    InBuild(d, v, UnpackBranches(r.config));
    TwoLevels(d, r.offset, v, i);
    TwoAdd(d, r.Scores(), v, i);
  }

  lemma NotCovered(r: Request, v: nat)
    requires v >= UnpackBranches(r.config)
    ensures r.Own(v) == 0.0
  {
    BuildFits(r);
    NoneOfOthers(ClampDepth(r.depth), r.Scores(), v, r.Size());
  }

  // A build adds something to each branch it covers, and nothing to any other.
  lemma CoversIff(r: Request, v: nat)
    ensures r.Own(v) >= 0.0
    ensures r.Own(v) > 0.0 <==> v < UnpackBranches(r.config)
  {
    if v < UnpackBranches(r.config) {
      Covered(r, v);
    } else {
      NotCovered(r, v);
    }
  }

  lemma {:induction false} EmptyIff(builds: seq<Request>, v: nat)
    ensures ScoreAfter(builds, v) >= 0.0
    ensures ScoreAfter(builds, v) == 0.0 <==> forall b :: b in builds ==> UnpackBranches(b.config) <= v
  {
    if builds != [] {
      var front, r := builds[..|builds| - 1], builds[|builds| - 1];
      EmptyIff(front, v);
      CoversIff(r, v);
      assert builds == front + [r];
    }
  }

  // The score a build reports is its best branch's own score exactly when no build since the
  // driver was loaded has covered that branch.
  lemma ReportedScoreFreshIff(builds: seq<Request>, r: Request)
    ensures 0 <= r.Best() < UnpackBranches(r.config)
    ensures FreshIff(builds, r, ScoreAfter(builds + [r], r.Best()))
  {
    BestExists(r);
    OneMoreBuild(builds, r, r.Best());
    EmptyIff(builds, r.Best());
  }

  // This score of the last build is its own exactly when no earlier one covered the branch.
  ghost predicate FreshIff(builds: seq<Request>, r: Request, score: real) {
    var v := r.Best();
    && 0 <= v
    && (score == r.Own(v) <==> forall b :: b in builds ==> UnpackBranches(b.config) <= v)
  }

  // Repeating the first build doubles the score it reports.
  lemma RebuildDoubles(r: Request)
    ensures 0 <= r.Best() < VARIANTS
    ensures ScoreAfter([r], r.Best()) == r.Own(r.Best())
    ensures ScoreAfter([r, r], r.Best()) == 2.0 * r.Own(r.Best()) > r.Own(r.Best())
  {
    BestExists(r);
    CoversIff(r, r.Best());
    OneMoreBuild([], r, r.Best());
    OneMoreBuild([r], r, r.Best());
    assert [] + [r] == [r] && [r] + [r] == [r, r];
  }

  // ---- what a build means for the words it stores ----

  // A build's own entries in the tree, and its best branch
  ghost predicate Generated(r: Request, before: seq<Word>, after: seq<Word>, total: nat, best: nat)
    requires |before| == ENTRIES
  {
    && total == r.Size() <= ENTRIES && after == Filled(before, ClampDepth(r.depth), r.offset, total)
    && best == r.Best() < UnpackBranches(r.config)
  }

  // The sum of the low half-words branch v has among the first count words
  function LowSum(tree: seq<Word>, d: nat, v: nat, count: nat): int
    requires 0 < d && count <= |tree|
  {
    if count == 0 then 0
    else LowSum(tree, d, v, count - 1) + if (count - 1) / d == v then (tree[count - 1] & 0xFFFF) as int else 0
  }

  // Word i is the first of count words with the greatest low half.
  ghost predicate FirstGreatest(tree: seq<Word>, count: nat, i: nat) {
    && i < count <= |tree|
    && (forall j :: 0 <= j < count ==> (tree[j] & 0xFFFF) as int <= (tree[i] & 0xFFFF) as int)
    && (forall j :: 0 <= j < i ==> (tree[j] & 0xFFFF) as int < (tree[i] & 0xFFFF) as int)
  }

  // best is that word's branch.
  ghost predicate BestOf(tree: seq<Word>, d: nat, count: nat, best: nat) {
    0 < d && exists i: nat :: FirstGreatest(tree, count, i) && best == i / d
  }

  // Each accumulator has gained its branch's share of these words.
  ghost predicate Gained(before: seq<real>, after: seq<real>, tree: seq<Word>, d: nat, count: nat) {
    && 0 < d && count <= |tree| && |before| == |after|
    && forall v :: 0 <= v < |after| ==> after[v] == before[v] + LowSum(tree, d, v, count) as real / 65535.0
  }

  // A build from the first words and accumulators to the second, of count words at depth d
  ghost predicate BuildIs(before: seq<Word>, after: seq<Word>, scores: seq<real>, scores': seq<real>,
                          d: nat, offset: Word, count: nat, best: nat) {
    && |before| == |after| >= count && after[count..] == before[count..]
    && TreeIs(after, d, offset, count) && BestOf(after, d, count, best) && Gained(scores, scores', after, d, count)
  }

  // These are the scores of these words.
  ghost predicate Scored(s: seq<real>, tree: seq<Word>) {
    |s| <= |tree| && forall i :: 0 <= i < |s| ==> s[i] == (tree[i] & 0xFFFF) as int as real / 65535.0
  }

  lemma BuildScored(r: Request, before: seq<Word>, after: seq<Word>, best: nat)
    requires |before| == ENTRIES && Generated(r, before, after, r.Size(), best)
    ensures Scored(r.Scores(), after)
  {
    forall i | 0 <= i < r.Size() ensures r.Scores()[i] == (after[i] & 0xFFFF) as int as real / 65535.0 {
      FilledAt(before, ClampDepth(r.depth), r.offset, r.Size(), i);
    }
  }

  lemma {:induction false} TotalIsSum(s: seq<real>, tree: seq<Word>, d: nat, v: nat, count: nat)
    requires Scored(s, tree) && 0 < d && count <= |s|
    ensures BranchTotal(d, s, v, count) == LowSum(tree, d, v, count) as real / 65535.0
  {
    if count > 0 {
      TotalIsSum(s, tree, d, v, count - 1);
    }
  }

  lemma ScoresCompare(s: seq<real>, tree: seq<Word>, i: nat, j: nat)
    requires Scored(s, tree) && i < |s| && j < |s|
    ensures s[j] <= s[i] <==> (tree[j] & 0xFFFF) as int <= (tree[i] & 0xFFFF) as int
  {
    assert s[i] * 65535.0 == (tree[i] & 0xFFFF) as int as real && s[j] * 65535.0 == (tree[j] & 0xFFFF) as int as real;
  }

  lemma GreatestIs(s: seq<real>, tree: seq<Word>, i: nat)
    requires Scored(s, tree) && i < |s|
    requires forall j :: 0 <= j < |s| ==> s[j] <= s[i]
    requires forall j :: 0 <= j < i ==> s[j] < s[i]
    ensures FirstGreatest(tree, |s|, i)
  {
    forall j | 0 <= j < |s| ensures (tree[j] & 0xFFFF) as int <= (tree[i] & 0xFFFF) as int {
      ScoresCompare(s, tree, i, j);
    }
    forall j | 0 <= j < i ensures (tree[j] & 0xFFFF) as int < (tree[i] & 0xFFFF) as int {
      ScoresCompare(s, tree, j, i);
    }
  }

  // The branch a build finds best
  lemma BestMeans(r: Request, before: seq<Word>, after: seq<Word>, best: nat)
    requires |before| == ENTRIES && Generated(r, before, after, r.Size(), best)
    ensures BestOf(after, ClampDepth(r.depth), r.Size(), best)
  {
    BuildScored(r, before, after, best);
    BestIsFirst(r);
    GreatestIs(r.Scores(), after, FirstMax(r.Scores()).index);
  }

  // What a build adds to the accumulators
  lemma GainMeans(builds: seq<Request>, r: Request, before: seq<Word>, after: seq<Word>, best: nat,
                  scores: seq<real>, scores': seq<real>)
    requires |before| == ENTRIES && Generated(r, before, after, r.Size(), best)
    requires Recorded(builds, scores) && Recorded(builds + [r], scores')
    ensures Gained(scores, scores', after, ClampDepth(r.depth), r.Size())
  {
    var d := ClampDepth(r.depth);
    BuildScored(r, before, after, best);
    forall v | 0 <= v < |scores|
      ensures scores'[v] == scores[v] + LowSum(after, d, v, r.Size()) as real / 65535.0
    {
      OneMoreBuild(builds, r, v);
      TotalIsSum(r.Scores(), after, d, v, r.Size());
    }
  }

  lemma BuildMeans(builds: seq<Request>, r: Request, before: seq<Word>, after: seq<Word>, best: nat,
                   scores: seq<real>, scores': seq<real>)
    requires |before| == ENTRIES && Generated(r, before, after, r.Size(), best)
    requires Recorded(builds, scores) && Recorded(builds + [r], scores')
    ensures BuildIs(before, after, scores, scores', ClampDepth(r.depth), r.offset, r.Size(), best)
  {
    var d, count := ClampDepth(r.depth), r.Size();
    FilledIs(before, d, r.offset, count);
    BestMeans(r, before, after, best);
    GainMeans(builds, r, before, after, best, scores, scores');
    forall i | count <= i < ENTRIES ensures after[i] == before[i] {
      FilledAt(before, d, r.offset, count, i);
    }
  }

  lemma BestIsFirst(r: Request)
    ensures var s, i := r.Scores(), FirstMax(r.Scores()).index;
      && 0 <= i < |s| && r.Best() == i / ClampDepth(r.depth)
      && (forall j :: 0 <= j < |s| ==> s[j] <= s[i]) && (forall j :: 0 <= j < i ==> s[j] < s[i])
  {
    var s := r.Scores();
    BestExists(r);
    FirstMaxIsFirst(s);
    assert s[..r.Size()] == s;
  }

  // ---- the kernel driver ----

  datatype Branches = Branches(valid: Mask, bestIdx: U32, bestScore: real, entries: U32)

  class KernelSeu {
    // registers
    var ctrl: Word
    var status: U32
    var depth: U32
    var offset: Word
    var treeResult: U32
    var irqStatus: Word
    var intStatus: Word
    var entriesTotal: U32
    var treeConfig: U32
    var branchMask: Mask
    // driver state
    var branchValid: Mask
    var bestIdx: U32
    var bestScore: real
    const tree: array<Word>
    const branchScores: array<real>
    ghost var builds: seq<Request>

    // Nothing in emulation mode writes the entries-total register, and only builds write the
    // accumulators.
    ghost predicate Valid()
      reads this, branchScores
    {
      && tree.Length == ENTRIES && branchScores.Length == VARIANTS && entriesTotal == 0
      && Recorded(builds, branchScores[..])
    }

    constructor ()
      ensures Valid() && fresh(tree) && fresh(branchScores) && builds == []
    {
      builds := [];
      ctrl, status, depth, offset, treeResult, irqStatus, intStatus := 0, READY, 0, 0, 0, 0, 0;
      entriesTotal, treeConfig, branchMask := 0, 0, {};
      branchValid, bestIdx, bestScore := {}, 0, 0.0;
      tree := new Word[ENTRIES](_ => 0);
      branchScores := new real[VARIANTS](_ => 0.0);
    }

    method RaiseDone(total: U32)
      modifies this`treeResult, this`status, this`irqStatus, this`intStatus
      ensures treeResult == total && status == DONE
      ensures irqStatus == Raised(ctrl, old(irqStatus)) && intStatus == Raised(ctrl, old(intStatus))
    {
      treeResult := total;
      status := DONE;
      if ctrl & SEU_IRQ_EN != 0 {
        irqStatus := irqStatus | INT_SEU_DONE;
        intStatus := intStatus | INT_SEU_DONE;
      }
    }

    // sppu_emu_run_seu_tree
    method RunTree()
      requires Valid()
      modifies this`treeResult, this`status, this`irqStatus, this`intStatus, tree
      ensures Valid() && status == 2 && treeResult == 16 * ClampDepth(depth)
      ensures irqStatus == Raised(ctrl, old(irqStatus)) && intStatus == Raised(ctrl, old(intStatus))
      ensures tree[..] == Filled(old(tree[..]), ClampDepth(depth), offset, treeResult)
      ensures TreeIs(tree[..], ClampDepth(depth), offset, treeResult)
    {
      status := BUSY;
      FilledIs(tree[..], ClampDepth(depth), offset, VARIANTS * ClampDepth(depth));
      Fill(ClampDepth(depth), VARIANTS * ClampDepth(depth));
      RaiseDone(VARIANTS * ClampDepth(depth));
    }

    // The entry loop of sppu_emu_run_seu_tree
    method Fill(d: nat, total: nat)
      requires Valid() && 5 <= d <= MAX_DEPTH && total <= ENTRIES
      modifies tree
      ensures tree[..] == Filled(old(tree[..]), d, offset, total)
    {
      var seed: Word := 1;
      var i := 0;
      while i < total
        invariant 0 <= i <= total && seed == SoftIterate(i, 1)
        invariant tree[..] == Filled(old(tree[..]), d, offset, i)
      {
        var level := i % d;
        tree[i] := EntryBits(seed, offset, level);
        seed := SoftStep(seed);
        i := i + 1;
      }
    }

    // sppu_emu_build_tree: the accumulators of earlier builds are added to, not cleared.
    method BuildTree()
      requires Valid()
      modifies this`treeResult, this`status, this`irqStatus, this`intStatus, tree
      modifies this`branchValid, this`bestIdx, this`bestScore, branchScores, this`builds
      ensures Valid() && status == DONE && builds == old(builds) + [Request(treeConfig, depth, offset)]
      ensures irqStatus == Raised(ctrl, old(irqStatus)) && intStatus == Raised(ctrl, old(intStatus))
      ensures treeResult == Request(treeConfig, depth, offset).Size()
      ensures bestIdx == Request(treeConfig, depth, offset).Best() < UnpackBranches(treeConfig)
      ensures BuildIs(old(tree[..]), tree[..], old(branchScores[..]), branchScores[..],
                      ClampDepth(depth), offset, treeResult, bestIdx)
      ensures bestScore == branchScores[bestIdx]
      ensures FreshIff(old(builds), Request(treeConfig, depth, offset), bestScore)
      ensures branchValid == branchMask * LowBits(UnpackBranches(treeConfig))
    {
      status := BUSY;
      var total, best := Generate(Request(treeConfig, depth, offset));
      Publish(UnpackBranches(treeConfig), best, total);
    }

    // The loop with its parsed configuration
    method Generate(ghost r: Request) returns (total: nat, best: nat)
      requires Valid() && r == Request(treeConfig, depth, offset)
      modifies tree, branchScores, this`builds
      ensures Valid() && builds == old(builds) + [r]
      ensures total == r.Size() <= ENTRIES && best == r.Best() < UnpackBranches(treeConfig)
      ensures BuildIs(old(tree[..]), tree[..], old(branchScores[..]), branchScores[..],
                      ClampDepth(depth), offset, total, best)
      ensures FreshIff(old(builds), r, branchScores[best])
    {
      var d, n := ClampDepth(depth), UnpackBranches(treeConfig);
      total := n * d;
      BuildFits(r);
      BestExists(r);
      ghost var words, scores := tree[..], branchScores[..];
      best := GenerateAndScore(d, n, total, offset);
      HistoryKept(builds, r, scores);
      BuildMeans(builds, r, words, tree[..], best, scores, branchScores[..]);
      builds := builds + [r];
      ReportedScoreFreshIff(old(builds), r);
    }

    // Branch validity, the best branch and completion
    method Publish(n: nat, best: nat, total: U32)
      requires Valid() && best < n <= VARIANTS
      modifies this`treeResult, this`status, this`irqStatus, this`intStatus
      modifies this`branchValid, this`bestIdx, this`bestScore
      ensures Valid() && status == DONE && treeResult == total && branchValid == branchMask * LowBits(n)
      ensures irqStatus == Raised(ctrl, old(irqStatus)) && intStatus == Raised(ctrl, old(intStatus))
      ensures bestIdx == best && bestScore == branchScores[best]
    {
      branchValid := branchMask * LowBits(n);
      bestIdx := best;
      bestScore := branchScores[best];
      RaiseDone(total);
    }

    // The entry loop of sppu_emu_build_tree
    method GenerateAndScore(d: nat, ghost n: nat, total: nat, offset: Word) returns (best: int)
      requires tree.Length == ENTRIES && branchScores.Length == VARIANTS && Fits(d, n, total)
      modifies tree, branchScores
      ensures tree[..] == Filled(old(tree[..]), d, offset, total)
      ensures branchScores[..] == Accumulated(old(branchScores[..]), d, EntryScores(d, offset, total), total)
      ensures best == BestBranch(d, EntryScores(d, offset, total), total).0
    {
      ghost var s := EntryScores(d, offset, total);
      var high := SENTINEL;
      best := -1;
      var seed: Word := 1;
      var i := 0;
      while i < total
        invariant 0 <= i <= total && seed == SoftIterate(i, 1)
        invariant tree[..] == Filled(old(tree[..]), d, offset, i)
        invariant branchScores[..] == Accumulated(old(branchScores[..]), d, s, i)
        invariant (best, high) == BestBranch(d, s, i)
      {
        var score;
        score, seed := EmitEntry(d, i, offset, seed, s);
        best, high := ScoreEntry(d, i, score, best, high, s, old(branchScores[..]));
        i := i + 1;
      }
    }

    // One iteration: write entry i and shift the register.
    method EmitEntry(d: nat, i: nat, offset: Word, seed: Word, ghost s: seq<real>) returns (score: real, next: Word)
      requires tree.Length == ENTRIES && 0 < d <= MAX_DEPTH && i < ENTRIES && seed == SoftIterate(i, 1)
      requires i < |s| && s == EntryScores(d, offset, |s|)
      modifies tree
      ensures tree[..] == old(tree[..])[i := Entry(d, offset, i)]
      ensures score == s[i] && next == SoftIterate(i + 1, 1)
    {
      var level := i % d;
      var bits := EntryBits(seed, offset, level);
      tree[i] := bits;
      score := EntryScore(bits);
      next := SoftStep(seed);
    }

    // Then add its score to its branch, and update the best.
    method ScoreEntry(d: nat, i: nat, score: real, best: int, high: real, ghost s: seq<real>, ghost before: seq<real>)
      returns (best': int, high': real)
      requires 0 < d && i < |s| && score == s[i] && Variant(i, d) < VARIANTS
      requires |before| == branchScores.Length == VARIANTS
      requires branchScores[..] == Accumulated(before, d, s, i) && (best, high) == BestBranch(d, s, i)
      modifies branchScores
      ensures branchScores[..] == Accumulated(before, d, s, i + 1) && (best', high') == BestBranch(d, s, i + 1)
    {
      var variant := i / d;
      branchScores[variant] := branchScores[variant] + score;
      best', high' := best, high;
      if score > high {
        best', high' := variant, score;
      }
      BestStep(d, s, i);
    }

    // SPPU_IOCTL_SEU_CONFIG
    method Config(newDepth: U32, newOffset: Word) returns (ok: bool)
      requires Valid()
      modifies this`depth, this`offset
      ensures Valid() && ok == (5 <= newDepth <= 8)
      ensures ok ==> depth == newDepth && offset == newOffset
      ensures !ok ==> depth == old(depth) && offset == old(offset)
    {
      ok := 5 <= newDepth <= 8;
      if ok {
        depth, offset := newDepth, newOffset;
      }
    }

    // SPPU_IOCTL_SEU_BUILD_TREE
    method BuildIoctl(config: U32, mask: Mask)
      requires Valid()
      modifies this`treeConfig, this`branchMask
      modifies this`treeResult, this`status, this`irqStatus, this`intStatus, tree
      modifies this`branchValid, this`bestIdx, this`bestScore, branchScores, this`builds
      ensures Valid() && status == 2 && builds == old(builds) + [Request(config, depth, offset)]
      ensures treeConfig == config && branchMask == mask
      ensures irqStatus == Raised(ctrl, old(irqStatus)) && intStatus == Raised(ctrl, old(intStatus))
      ensures treeResult == UnpackBranches(config) * ClampDepth(depth)
      ensures BuildIs(old(tree[..]), tree[..], old(branchScores[..]), branchScores[..],
                      ClampDepth(depth), offset, treeResult, bestIdx)
      ensures bestScore == branchScores[bestIdx]
      ensures branchValid == mask * LowBits(UnpackBranches(config))
      ensures bestIdx == Request(config, depth, offset).Best() < UnpackBranches(config)
      ensures FreshIff(old(builds), Request(config, depth, offset), bestScore)
    {
      treeConfig, branchMask := config, mask;
      BuildTree();
    }

    // SPPU_IOCTL_SEU_GET_BRANCHES
    method GetBranches() returns (b: Branches)
      requires Valid()
      ensures b == Branches(branchValid, bestIdx, bestScore, 0)
    {
      b := Branches(branchValid, bestIdx, bestScore, entriesTotal);
    }

    // SPPU_IOCTL_SEU_ACCEPT
    method Accept()
      requires Valid()
      modifies this`treeConfig
      ensures Valid() && treeConfig / 256 % 2 == 1
      ensures treeConfig % 256 == old(treeConfig) % 256 && treeConfig / 512 == old(treeConfig) / 512
      ensures UnpackBranches(treeConfig) == UnpackBranches(old(treeConfig))
      ensures UnpackContext(treeConfig) == UnpackContext(old(treeConfig))
    {
      WithAutoFields(treeConfig);
      treeConfig := WithAuto(treeConfig);
    }

    // SPPU_IOCTL_SEU_ROLLBACK: the score accumulators stay.
    method Rollback()
      requires Valid()
      modifies this`branchValid, this`bestIdx, this`bestScore, this`status
      ensures Valid() && branchValid == {} && bestIdx == 0 && bestScore == 0.0 && status == 0
    {
      branchValid, bestIdx, bestScore, status := {}, 0, 0.0, READY;
    }
  }

  // ---- the QEMU device ----

  class QemuSeu {
    var ctrl: Word
    var status: U32
    var depth: U32
    var offset: Word
    var treeResult: U32
    var irqStatus: Word
    var intStatus: Word
    const tree: array<Word>

    ghost predicate Valid()
      reads this
    {
      tree.Length == ENTRIES
    }

    constructor ()
      ensures Valid() && fresh(tree)
    {
      ctrl, status, depth, offset, treeResult, irqStatus, intStatus := 0, READY, 0, 0, 0, 0, 0;
      tree := new Word[ENTRIES](_ => 0);
    }

    // sppu_seu_run_tree
    method RunTree()
      requires Valid()
      modifies this`treeResult, this`status, this`irqStatus, this`intStatus, tree
      ensures Valid() && status == 2 && treeResult == 16 * ClampDepth(depth)
      ensures irqStatus == Raised(ctrl, old(irqStatus)) && intStatus == Raised(ctrl, old(intStatus))
      ensures tree[..] == Filled(old(tree[..]), ClampDepth(depth), offset, treeResult)
      ensures TreeIs(tree[..], ClampDepth(depth), offset, treeResult)
    {
      var d := if depth < 5 then 5 else if depth > 8 then 8 else depth;
      status := BUSY;
      var total := VARIANTS * d;
      FilledIs(tree[..], d, offset, total);
      Fill(d, total);
      RaiseDone(total);
    }

    // The entry loop of sppu_seu_run_tree
    method Fill(d: nat, total: nat)
      requires Valid() && 5 <= d <= MAX_DEPTH && total <= ENTRIES
      modifies tree
      ensures tree[..] == Filled(old(tree[..]), d, offset, total)
    {
      var seed: Word := 1;
      var i := 0;
      while i < total
        invariant 0 <= i <= total && seed == SoftIterate(i, 1)
        invariant tree[..] == Filled(old(tree[..]), d, offset, i)
      {
        var level := i % d;
        var bits := EntryBits(seed, offset, level);
        tree[i] := bits;
        seed := SoftStep(seed);
        i := i + 1;
      }
    }

    method RaiseDone(total: U32)
      modifies this`treeResult, this`status, this`irqStatus, this`intStatus
      ensures treeResult == total && status == DONE
      ensures irqStatus == Raised(ctrl, old(irqStatus)) && intStatus == Raised(ctrl, old(intStatus))
    {
      treeResult := total;
      status := DONE;
      if ctrl & SEU_IRQ_EN != 0 {
        irqStatus := irqStatus | INT_SEU_DONE;
        intStatus := intStatus | INT_SEU_DONE;
      }
    }

    // sppu_mmio_read of the probability readback register: while the buffer holds a tree, its
    // entries read as their closed form; an index past the buffer reads zero.
    method ReadBack(index: U32) returns (bits: Word)
      requires Valid()
      ensures forall d: nat, o :: TreeIs(tree[..], d, o, 16 * d) && index < 16 * d ==>
        WordIs(bits, SoftIterate(index, 1), o, index % d)
      ensures if index < 128 then bits == tree[index] else bits == 0
    {
      assert index < ENTRIES ==> tree[index] == tree[..][index];
      bits := if index < ENTRIES then tree[index] else 0;
    }
  }

  // Two generators given the same depth and offset agree on every entry both fill, and a
  // build of fewer branches is a prefix of the full tree.
  lemma GeneratorsAgree(b1: seq<Word>, c1: nat, b2: seq<Word>, c2: nat, d: nat, offset: Word)
    requires 0 < d <= MAX_DEPTH && |b1| == |b2| == ENTRIES && c1 <= c2 <= ENTRIES
    ensures Filled(b1, d, offset, c1)[..c1] == Filled(b2, d, offset, c2)[..c1]
  {
    forall i | 0 <= i < c1 ensures Filled(b1, d, offset, c1)[i] == Filled(b2, d, offset, c2)[i] {
      FilledAt(b1, d, offset, c1, i);
      FilledAt(b2, d, offset, c2, i);
    }
  }
}
