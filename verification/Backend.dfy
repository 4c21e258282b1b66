// The speculative session on top of the tree walker (sdk/src/sppu_backend.c).
module Backend {
  import opened Words
  import EmuSeu

  const POLLS: nat := 1000

  datatype Hypothesis =
    Hypothesis(branchId: nat, depth: U32, tokens: seq<real>, tokenCount: U32, score: real)

  datatype Verdict = Verdict(branchId: U32, accepted: U32, gpuScore: real, ppl: real)

  // ---- the device, as the session sees it ----

  datatype Command =
    | LoadToken(index: nat, token: real)
    | Build(contextAddr: U32, embedAddr: U32, config: U32, nodeBase: U32, mask: Mask)
    | Poll
    | Accept
    | Rollback

  predicate IsCommit(c: Command) {
    c.Accept? || c.Rollback?
  }

  // An open handle. Every call is logged, and whether it goes through is given in advance. So
  // are a real device's answers to polling; behind the emulated driver they come from its state.
  class Port {
    var log: seq<Command>
    const loadOk: nat -> bool
    const buildOk: bool
    // The n-th call of sppu_seu_get_branches; the driver's answer replaces a success.
    const answers: nat -> Option<EmuSeu.Branches>
    const commitOk: bool
    const driver: EmuSeu.KernelSeu?

    ghost function Device(): set<object> {
      if driver == null then {} else {driver, driver.tree, driver.branchScores}
    }

    ghost predicate Valid()
      reads Device()
    {
      driver != null ==> driver.Valid()
    }

    constructor (loadOk: nat -> bool, buildOk: bool, answers: nat -> Option<EmuSeu.Branches>, commitOk: bool,
                 driver: EmuSeu.KernelSeu?)
      requires driver != null ==> driver.Valid()
      ensures Valid() && log == [] && this.loadOk == loadOk && this.buildOk == buildOk
      ensures this.answers == answers && this.commitOk == commitOk && this.driver == driver
    {
      this.loadOk, this.buildOk, this.answers, this.commitOk := loadOk, buildOk, answers, commitOk;
      this.driver := driver;
      log := [];
    }

    // What polling gets from here on
    ghost function Answers(): nat -> Option<EmuSeu.Branches>
      reads Device()
    {
      if driver == null then answers
      else Answered(answers, EmuSeu.Branches(driver.branchValid, driver.bestIdx, driver.bestScore, driver.entriesTotal))
    }

    method Load(i: nat, token: real) returns (ok: bool)
      modifies this`log
      ensures log == old(log) + [LoadToken(i, token)] && ok == loadOk(i)
    {
      log := log + [LoadToken(i, token)];
      ok := loadOk(i);
    }

    // sppu_seu_build_tree
    method RequestBuild(contextAddr: U32, embedAddr: U32, config: U32, nodeBase: U32, mask: Mask) returns (ok: bool)
      requires Valid()
      modifies this`log, Device()
      ensures Valid() && log == old(log) + [Build(contextAddr, embedAddr, config, nodeBase, mask)] && ok == buildOk
      ensures driver != null && ok ==>
        && driver.status == 2 && driver.treeConfig == config && driver.branchMask == mask
        && driver.builds == old(driver.builds) + [EmuSeu.Request(config, old(driver.depth), old(driver.offset))]
      ensures driver != null && !ok ==> driver.builds == old(driver.builds)
    {
      log := log + [Build(contextAddr, embedAddr, config, nodeBase, mask)];
      ok := buildOk;
      if driver != null && ok {
        driver.BuildIoctl(config, mask);
      }
    }

    // The i-th call of sppu_seu_get_branches
    method GetBranches(i: nat) returns (r: Option<EmuSeu.Branches>)
      requires Valid()
      modifies this`log
      ensures log == old(log) + [Poll] && r == Answers()(i)
    {
      log := log + [Poll];
      r := answers(i);
      if driver != null && r.Some? {
        var b := driver.GetBranches();
        r := Some(b);
      }
    }

    // sppu_seu_accept or sppu_seu_rollback
    method Commit(c: Command) returns (ok: bool)
      requires Valid() && IsCommit(c)
      modifies this`log, Device()
      ensures Valid() && log == old(log) + [c] && ok == commitOk
      ensures driver != null ==> driver.builds == old(driver.builds)
      ensures driver != null && ok && c == Accept ==>
        driver.treeConfig / 256 % 2 == 1 && driver.branchValid == old(driver.branchValid)
      ensures driver != null && ok && c == Rollback ==>
        driver.branchValid == {} && driver.status == 0 && driver.treeConfig == old(driver.treeConfig)
    {
      log := log + [c];
      ok := commitOk;
      if driver != null && ok {
        if c.Accept? {
          driver.Accept();
        } else {
          driver.Rollback();
        }
      }
    }
  }

  // These polls, all answered alike where they go through
  function Answered(polls: nat -> Option<EmuSeu.Branches>, b: EmuSeu.Branches): nat -> Option<EmuSeu.Branches> {
    (n: nat) => if polls(n).None? then None else Some(b)
  }

  // The polling loop from its i-th call on: the first answer with entries.
  ghost function PollFrom(answers: nat -> Option<EmuSeu.Branches>, i: nat): Option<EmuSeu.Branches>
    decreases POLLS - i
  {
    if i >= POLLS || answers(i).None? then None
    else if answers(i).value.entries > 0 then answers(i)
    else PollFrom(answers, i + 1)
  }

  // ---- what a build sends ----

  ghost predicate AllLoad(loadOk: nat -> bool, tokens: nat) {
    forall i :: 0 <= i < tokens ==> loadOk(i)
  }

  // The loads of the first n tokens, up to one that fails.
  ghost function LoadLog(loadOk: nat -> bool, context: seq<real>, n: nat): seq<Command>
    requires n <= |context|
  {
    if n == 0 then []
    else
      var before := LoadLog(loadOk, context, n - 1);
      if AllLoad(loadOk, n - 1) then before + [LoadToken(n - 1, context[n - 1])] else before
  }

  // Polls before the n-th have answered, without entries.
  ghost predicate Silent(answers: nat -> Option<EmuSeu.Branches>, n: nat) {
    forall j :: 0 <= j < n ==> answers(j).Some? && answers(j).value.entries == 0
  }

  // The first n polls, up to an answer with entries or a failure.
  ghost function PollLog(answers: nat -> Option<EmuSeu.Branches>, n: nat): seq<Command> {
    if n == 0 then []
    else
      var before := PollLog(answers, n - 1);
      if Silent(answers, n - 1) then before + [Poll] else before
  }

  lemma {:induction false} LoadsStop(loadOk: nat -> bool, context: seq<real>, k: nat, n: nat)
    requires k < n <= |context| && !loadOk(k)
    ensures LoadLog(loadOk, context, n) == LoadLog(loadOk, context, k + 1)
    decreases n
  {
    if k + 1 < n {
      LoadsStop(loadOk, context, k, n - 1);
    }
  }

  lemma {:induction false} PollsStop(answers: nat -> Option<EmuSeu.Branches>, k: nat, n: nat)
    requires k < n && (answers(k).None? || answers(k).value.entries > 0)
    ensures PollLog(answers, n) == PollLog(answers, k + 1)
    decreases n
  {
    if k + 1 < n {
      PollsStop(answers, k, n - 1);
    }
  }

  // Polling ends at an answer with entries, or at a failure.
  lemma {:induction false} PollingEnds(answers: nat -> Option<EmuSeu.Branches>, i: nat)
    requires i < POLLS && Silent(answers, i) && (answers(i).None? || answers(i).value.entries > 0)
    ensures PollFrom(answers, i) == answers(i)
    ensures PollLog(answers, POLLS) == PollLog(answers, i) + [Poll]
  {
    PollsStop(answers, i, POLLS);
  }

  // Loads, then the build request with its packed configuration, then polls.
  ghost function BuildLog(loadOk: nat -> bool, buildOk: bool, answers: nat -> Option<EmuSeu.Branches>,
                          context: seq<real>, request: Command): seq<Command> {
    var loads := LoadLog(loadOk, context, |context|);
    if !AllLoad(loadOk, |context|) then loads
    else if !buildOk then loads + [request]
    else loads + [request] + PollLog(answers, POLLS)
  }

  // Without a failure, the log of n loads is the tokens in order.
  lemma {:induction false} LoadsAre(loadOk: nat -> bool, context: seq<real>, n: nat)
    requires n <= |context| && forall i :: 0 <= i < n - 1 ==> loadOk(i)
    ensures LoadLog(loadOk, context, n) == seq(n, i requires 0 <= i < n => LoadToken(i, context[i]))
  {
    if n > 0 {
      LoadsAre(loadOk, context, n - 1);
    }
  }

  lemma {:induction false} PollsUntil(answers: nat -> Option<EmuSeu.Branches>, k: nat)
    requires k < POLLS && Silent(answers, k) && (answers(k).None? || answers(k).value.entries > 0)
    ensures PollLog(answers, POLLS) == seq(k + 1, _ => Poll) && PollFrom(answers, 0) == answers(k)
  {
    SkipsSilence(answers, 0, k);
    PollingEnds(answers, k);
    PollsAll(answers, k);
  }

  lemma {:induction false} PollsToTheEnd(answers: nat -> Option<EmuSeu.Branches>)
    requires Silent(answers, POLLS)
    ensures PollLog(answers, POLLS) == seq(POLLS, _ => Poll) && PollFrom(answers, 0) == None
  {
    SkipsSilence(answers, 0, POLLS);
    PollsAll(answers, POLLS);
  }

  // Polling stops after k more answers without entries, at a failure, an answer with entries,
  // or the limit.
  lemma {:induction false} PollsAre(answers: nat -> Option<EmuSeu.Branches>, k: nat)
    requires k <= 1000 && forall j :: 0 <= j < k ==> answers(j).Some? && answers(j).value.entries == 0
    requires k < 1000 ==> answers(k).None? || answers(k).value.entries > 0
    ensures PollLog(answers, POLLS) == seq(if k < 1000 then k + 1 else k, _ => Poll)
    ensures PollFrom(answers, 0) == if k < 1000 then answers(k) else None
  {
    if k < POLLS {
      PollsUntil(answers, k);
    } else {
      PollsToTheEnd(answers);
    }
  }

  lemma {:induction false} SkipsSilence(answers: nat -> Option<EmuSeu.Branches>, i: nat, k: nat)
    requires i <= k <= POLLS && Silent(answers, k)
    ensures PollFrom(answers, i) == PollFrom(answers, k)
    decreases k - i
  {
    if i < k {
      SkipsSilence(answers, i + 1, k);
    }
  }

  lemma Joined(a: seq<Command>, b: seq<Command>, c: seq<Command>, d: seq<Command>)
    ensures a + b + c == a + (b + c) && a + b + c + d == a + (b + c + d)
  {
  }

  ghost predicate NoCommit(log: seq<Command>) {
    forall c :: c in log ==> !IsCommit(c)
  }

  lemma {:induction false} LoadsCommitNothing(loadOk: nat -> bool, context: seq<real>, n: nat)
    requires n <= |context|
    ensures NoCommit(LoadLog(loadOk, context, n))
  {
    if n > 0 {
      LoadsCommitNothing(loadOk, context, n - 1);
    }
  }

  lemma {:induction false} PollsCommitNothing(answers: nat -> Option<EmuSeu.Branches>, n: nat)
    ensures NoCommit(PollLog(answers, n))
  {
    if n > 0 {
      PollsCommitNothing(answers, n - 1);
    }
  }

  // So the one command after a successful build is the only commit of a run.
  lemma BuildCommitsNothing(loadOk: nat -> bool, buildOk: bool, answers: nat -> Option<EmuSeu.Branches>,
                            context: seq<real>, request: Command)
    requires request.Build?
    ensures NoCommit(BuildLog(loadOk, buildOk, answers, context, request))
  {
    LoadsCommitNothing(loadOk, context, |context|);
    PollsCommitNothing(answers, POLLS);
  }

  // A build gets its tree exactly when some poll within the limit reports entries and no
  // earlier one fails.
  lemma {:induction false} PollFromIff(answers: nat -> Option<EmuSeu.Branches>, i: nat)
    ensures PollFrom(answers, i).Some? <==>
      exists n :: i <= n < POLLS && answers(n).Some? && answers(n).value.entries > 0
        && forall j :: i <= j < n ==> answers(j).Some?
    decreases POLLS - i
  {
    if i < POLLS && answers(i).Some? && answers(i).value.entries == 0 {
      PollFromIff(answers, i + 1);
    }
  }

  // Without entries the polling ends in a failed call or a time-out, and unless a call fails
  // it asks all 1000 times.
  lemma {:induction false} ZeroEntriesTimeOut(polls: nat -> Option<EmuSeu.Branches>, b: EmuSeu.Branches, i: nat)
    requires b.entries == 0
    ensures PollFrom(Answered(polls, b), i).None?
    decreases POLLS - i
  {
    if i < POLLS {
      ZeroEntriesTimeOut(polls, b, i + 1);
    }
  }

  lemma {:induction false} PollsOnly(answers: nat -> Option<EmuSeu.Branches>, n: nat)
    ensures forall i :: 0 <= i < |PollLog(answers, n)| ==> PollLog(answers, n)[i] == Poll
  {
    if n > 0 {
      PollsOnly(answers, n - 1);
    }
  }

  lemma {:induction false} FirstFailure(loadOk: nat -> bool, n: nat) returns (k: nat)
    requires !AllLoad(loadOk, n)
    ensures k < n && !loadOk(k) && forall j :: 0 <= j < k ==> loadOk(j)
  {
    if !AllLoad(loadOk, n - 1) {
      k := FirstFailure(loadOk, n - 1);
    } else {
      k := n - 1;
    }
  }

  lemma {:induction false} PollsAll(answers: nat -> Option<EmuSeu.Branches>, n: nat)
    requires Silent(answers, n)
    ensures PollLog(answers, n) == seq(n, _ => Poll)
  {
    if n > 0 {
      PollsAll(answers, n - 1);
    }
  }

  // Behind the emulated driver, in whatever state, polling never gets a tree.
  lemma DriverTimesOut(port: Port)
    requires port.Valid() && port.driver != null
    ensures PollFrom(port.Answers(), 0).None?
    ensures (forall n :: 0 <= n < POLLS ==> port.answers(n).Some?) ==>
      PollLog(port.Answers(), POLLS) == seq(POLLS, _ => Poll)
  {
    var d := port.driver;
    ZeroEntriesTimeOut(port.answers, EmuSeu.Branches(d.branchValid, d.bestIdx, d.bestScore, d.entriesTotal), 0);
    if forall n :: 0 <= n < POLLS ==> port.answers(n).Some? {
      PollsAll(port.Answers(), POLLS);
    }
  }

  // ---- the hypotheses of a finished tree ----

  // The set bits of the valid mask below n, in increasing order.
  function SetBits(valid: Mask, n: nat): seq<nat> {
    if n == 0 then []
    else if n - 1 in valid then SetBits(valid, n - 1) + [n - 1]
    else SetBits(valid, n - 1)
  }

  lemma {:induction false} SetBitsExactly(valid: Mask, n: nat)
    ensures forall b :: b in SetBits(valid, n) <==> b in valid && 0 <= b < n
    ensures forall i, j :: 0 <= i < j < |SetBits(valid, n)| ==> SetBits(valid, n)[i] < SetBits(valid, n)[j]
    ensures |SetBits(valid, n)| <= n
  {
    if n > 0 {
      SetBitsExactly(valid, n - 1);
      var s := SetBits(valid, n - 1);
      forall i | 0 <= i < |s| ensures s[i] < n - 1 {
        assert s[i] in s;
      }
    }
  }

  // A mask has at most 16 bits, so the array of 16 is never overrun.
  lemma {:induction false} SetBitsFit(valid: Mask, n: nat)
    ensures |SetBits(valid, n)| <= 16
  {
    if n <= 16 {
      SetBitsExactly(valid, n);
    } else {
      SetBitsFit(valid, n - 1);
    }
  }

  class Session {
    const port: Port
    var numBranches: U32
    var treeDepth: U32
    var contextLen: U32
    const hypotheses: array<Hypothesis>
    const results: array<Verdict>
    var numSubmitted: nat
    var numValidated: nat

    ghost predicate Valid()
      reads this, hypotheses
    {
      && hypotheses.Length == 16 && results.Length == 16
      && numSubmitted <= 16
      && forall i :: 0 <= i < 16 ==> |hypotheses[i].tokens| == 8
    }

    // sppu_speculative_init
    constructor (port: Port)
      ensures Valid() && this.port == port && fresh(hypotheses) && fresh(results)
      ensures numBranches == treeDepth == 0 && numSubmitted == numValidated == 0
    {
      this.port := port;
      numBranches, treeDepth, contextLen, numSubmitted, numValidated := 0, 0, 0, 0, 0;
      hypotheses := new Hypothesis[16](_ => Hypothesis(0, 0, seq(8, _ => 0.0), 0, 0.0));
      results := new Verdict[16](_ => Verdict(0, 0, 0.0, 0.0));
    }

    // What the extraction loop stores for branch b; tokens past the count stay as they were.
    static function Hypothesized(slot: Hypothesis, b: nat, depth: U32, context: seq<real>, score: real): Hypothesis
      requires |context| <= 8 && |slot.tokens| == 8
    {
      Hypothesis(b, depth, context + slot.tokens[|context|..], |context|, score)
    }

    ghost predicate Submitted(valid: Mask, n: nat, depth: U32, context: seq<real>, score: real)
      requires Valid() && |context| <= 8
      reads this, hypotheses
    {
      && numSubmitted == |SetBits(valid, n)|
      && forall i :: 0 <= i < numSubmitted ==>
           && hypotheses[i].branchId == SetBits(valid, n)[i]
           && hypotheses[i].depth == depth && hypotheses[i].score == score
           && hypotheses[i].tokenCount == |context| && hypotheses[i].tokens[..|context|] == context
    }

    method Extract(valid: Mask, maxBranches: nat, depth: U32, context: seq<real>, score: real)
      requires Valid() && |context| <= 8
      modifies this`numSubmitted, hypotheses
      ensures Valid() && Submitted(valid, maxBranches, depth, context, score)
    {
      numSubmitted := 0;
      var b := 0;
      while b < maxBranches
        invariant 0 <= b <= maxBranches && Valid()
        invariant Submitted(valid, b, depth, context, score)
      {
        SetBitsFit(valid, b + 1);
        if b in valid {
          hypotheses[numSubmitted] := Hypothesized(hypotheses[numSubmitted], b, depth, context, score);
          numSubmitted := numSubmitted + 1;
        }
        b := b + 1;
      }
    }

    // The mask a build asks for: all branches when none are named.
    static function BuildMask(maxBranches: nat, mask: Mask): Mask {
      if mask == {} then LowBits(Min(16, maxBranches)) else mask
    }

    // Every call before the polling goes through, and the polling ends with entries.
    ghost predicate BuildAnswered(tokens: nat)
      reads port.Device()
    {
      AllLoad(port.loadOk, tokens) && port.buildOk && PollFrom(port.Answers(), 0).Some?
    }

    // The request of a build: the addresses are fixed, the verdict bit is on.
    static function Request(tokens: nat, maxBranches: U32, nodeBase: U32, mask: Mask): Command
      requires tokens <= 8
    {
      Build(0x10000, 0x20000, EmuSeu.PackConfig(maxBranches, tokens, true), nodeBase, BuildMask(maxBranches, mask))
    }

    // What a build has sent, once it is over
    ghost function Sent(context: seq<real>, maxBranches: U32, nodeBase: U32, mask: Mask): seq<Command>
      requires |context| <= 8
      reads port.Device()
    {
      BuildLog(port.loadOk, port.buildOk, port.Answers(), context,
               Request(|context|, maxBranches, nodeBase, mask))
    }

    // Every load went through: the tokens in order, one request, then nothing but polls. Without
    // a mask the request is for all branches.
    static ghost predicate Requests(sent: seq<Command>, context: seq<real>, maxBranches: U32, nodeBase: U32, mask: Mask)
    {
      var n := |context|;
      && n < |sent|
      && (forall i :: 0 <= i < n ==> sent[i] == LoadToken(i, context[i]))
      && (forall i :: n < i < |sent| ==> sent[i] == Poll)
      && sent[n].Build? && sent[n].contextAddr == 0x10000 && sent[n].embedAddr == 0x20000
      && sent[n].config == maxBranches % 16 + 16 * (n % 16) + 256 && sent[n].nodeBase == nodeBase
      && (mask == {} ==> forall b :: b in sent[n].mask <==> 0 <= b < 16 && b < maxBranches)
      && (mask != {} ==> sent[n].mask == mask)
    }

    // The k-th load is the first that failed: the tokens up to it.
    static ghost predicate Stopped(sent: seq<Command>, context: seq<real>, loadOk: nat -> bool, k: nat) {
      && k < |context| && |sent| == k + 1 && !loadOk(k)
      && forall i :: 0 <= i <= k ==> sent[i] == LoadToken(i, context[i]) && (i < k ==> loadOk(i))
    }

    static lemma RequestIs(tokens: nat, maxBranches: U32, nodeBase: U32, mask: Mask)
      requires tokens <= 8
      ensures var r := Request(tokens, maxBranches, nodeBase, mask);
        && r.contextAddr == 0x10000 && r.embedAddr == 0x20000
        && r.config == maxBranches % 16 + 16 * (tokens % 16) + 256 && r.nodeBase == nodeBase
        && (mask == {} ==> forall b :: b in r.mask <==> 0 <= b < 16 && b < maxBranches)
        && (mask != {} ==> r.mask == mask)
    {
    }

    static lemma JoinedRequests(context: seq<real>, maxBranches: U32, nodeBase: U32, mask: Mask, polls: seq<Command>)
      requires |context| <= 8 && forall i :: 0 <= i < |polls| ==> polls[i] == Poll
      ensures var loads := seq(|context|, i requires 0 <= i < |context| => LoadToken(i, context[i]));
        Requests(loads + [Request(|context|, maxBranches, nodeBase, mask)] + polls,
                 context, maxBranches, nodeBase, mask)
    {
      var n, request := |context|, Request(|context|, maxBranches, nodeBase, mask);
      var loads := seq(n, i requires 0 <= i < n => LoadToken(i, context[i]));
      var sent := loads + [request] + polls;
      RequestIs(n, maxBranches, nodeBase, mask);
      forall i | n < i < |sent| ensures sent[i] == Poll {
        assert sent[i] == polls[i - n - 1];
      }
      assert sent[n] == request;
    }

    // All of what a build sends: the requests, or the loads up to a failure
    ghost predicate BuildSends(sent: seq<Command>, context: seq<real>, maxBranches: U32, nodeBase: U32, mask: Mask)
    {
      if forall i :: 0 <= i < |context| ==> port.loadOk(i) then Requests(sent, context, maxBranches, nodeBase, mask)
      else exists k :: Stopped(sent, context, port.loadOk, k)
    }

    lemma SentMeans(context: seq<real>, maxBranches: U32, nodeBase: U32, mask: Mask)
      requires |context| <= 8
      ensures BuildSends(Sent(context, maxBranches, nodeBase, mask), context, maxBranches, nodeBase, mask)
    {
      var n := |context|;
      if AllLoad(port.loadOk, n) {
        var polls := if port.buildOk then PollLog(port.Answers(), POLLS) else [];
        LoadsAre(port.loadOk, context, n);
        PollsOnly(port.Answers(), POLLS);
        JoinedRequests(context, maxBranches, nodeBase, mask, polls);
      } else {
        var k := FirstFailure(port.loadOk, n);
        LoadsStop(port.loadOk, context, k, n);
        LoadsAre(port.loadOk, context, k + 1);
        assert Stopped(Sent(context, maxBranches, nodeBase, mask), context, port.loadOk, k);
      }
    }

    // What a build leaves behind: every request that went through is in the emulated driver's
    // history.
    twostate predicate DriverBuilt(tokens: nat, config: U32)
      reads port.Device()
    {
      port.driver != null ==>
        if AllLoad(port.loadOk, tokens) && port.buildOk then
          && port.driver.status == 2 && port.driver.treeConfig == config
          && port.driver.builds == old(port.driver.builds)
             + [EmuSeu.Request(config, old(port.driver.depth), old(port.driver.offset))]
        else port.driver.builds == old(port.driver.builds)
    }

    // sppu_speculative_build; C cannot shift by 32 or more. On the emulated driver it always fails.
    method SpeculativeBuild(context: seq<real>, maxBranches: U32, depth: U32, nodeBase: U32, mask: Mask)
      returns (ok: bool)
      requires Valid() && port.Valid() && |context| <= 8 && maxBranches < 32
      modifies this, hypotheses, port, port.Device()
      ensures Valid() && port.Valid()
      ensures numBranches == maxBranches && treeDepth == depth && contextLen == |context|
      ensures port.log == old(port.log) + Sent(context, maxBranches, nodeBase, mask)
      ensures BuildSends(port.log[|old(port.log)|..], context, maxBranches, nodeBase, mask)
      ensures ok == BuildAnswered(|context|)
      ensures ok ==> var b := PollFrom(port.Answers(), 0).value;
        Submitted(b.valid, maxBranches, depth, context, b.bestScore)
      ensures !ok ==> numSubmitted == old(numSubmitted)
      ensures port.driver != null ==> !ok
      ensures DriverBuilt(|context|, EmuSeu.PackConfig(maxBranches, |context|, true))
    {
      numBranches, treeDepth, contextLen := maxBranches, depth, |context|;
      var branches := RequestTree(context, maxBranches, nodeBase, mask);
      ok := branches.Some?;
      SentMeans(context, maxBranches, nodeBase, mask);
      assert port.log[|old(port.log)|..] == Sent(context, maxBranches, nodeBase, mask);
      if port.driver != null {
        DriverTimesOut(port);
      }
      if ok {
        Extract(branches.value.valid, maxBranches, depth, context, branches.value.bestScore);
      }
    }

    // Everything a build asks of the device
    method RequestTree(context: seq<real>, maxBranches: U32, nodeBase: U32, mask: Mask)
      returns (r: Option<EmuSeu.Branches>)
      requires port.Valid() && |context| <= 8
      modifies port, port.Device()
      ensures port.Valid() && port.log == old(port.log) + Sent(context, maxBranches, nodeBase, mask)
      ensures r == if BuildAnswered(|context|) then PollFrom(port.Answers(), 0) else None
      ensures DriverBuilt(|context|, EmuSeu.PackConfig(maxBranches, |context|, true))
    {
      ghost var log0, loads := port.log, LoadLog(port.loadOk, context, |context|);
      var request := Request(|context|, maxBranches, nodeBase, mask);
      var ok := LoadContext(context);
      if !ok {
        return None;
      }
      ok := port.RequestBuild(request.contextAddr, request.embedAddr, request.config, nodeBase, request.mask);
      Joined(log0, loads, [request], []);
      if !ok {
        return None;
      }
      r := PollBranches();
      Joined(log0, loads, [request], PollLog(port.Answers(), POLLS));
    }

    method LoadContext(context: seq<real>) returns (ok: bool)
      modifies port`log
      ensures ok == AllLoad(port.loadOk, |context|)
      ensures port.log == old(port.log) + LoadLog(port.loadOk, context, |context|)
    {
      var i := 0;
      while i < |context|
        invariant 0 <= i <= |context| && AllLoad(port.loadOk, i)
        invariant port.log == old(port.log) + LoadLog(port.loadOk, context, i)
      {
        ok := port.Load(i, context[i]);
        if !ok {
          LoadsStop(port.loadOk, context, i, |context|);
          return false;
        }
        i := i + 1;
      }
      ok := true;
    }

    // The wait for the tree; None is a failed call or a time-out.
    method PollBranches() returns (r: Option<EmuSeu.Branches>)
      requires port.Valid()
      modifies port`log
      ensures r == PollFrom(port.Answers(), 0)
      ensures port.log == old(port.log) + PollLog(port.Answers(), POLLS)
    {
      ghost var answers := port.Answers();
      var i := 0;
      while i < POLLS
        invariant 0 <= i <= POLLS && port.Answers() == answers && PollFrom(answers, i) == PollFrom(answers, 0)
        invariant Silent(answers, i)
        invariant port.log == old(port.log) + PollLog(answers, i)
      {
        Joined(old(port.log), PollLog(answers, i), [Poll], []);
        var b := port.GetBranches(i);
        if b.None? || b.value.entries > 0 {
          PollingEnds(answers, i);
          return b;
        }
        i := i + 1;
      }
      return None;
    }

    // sppu_speculative_accept: keep at most 16 verdicts, and accept when one of those does.
    method SpeculativeAccept(verdicts: seq<Verdict>) returns (ok: bool)
      requires Valid() && port.Valid()
      modifies this`numValidated, results, port`log, port.Device()
      ensures Valid() && port.Valid() && numValidated == |verdicts| && ok == port.commitOk
      ensures forall i :: 0 <= i < |verdicts| && i < 16 ==> results[i] == verdicts[i]
      ensures port.log == old(port.log) +
        if exists i :: 0 <= i < 16 && i < |verdicts| && verdicts[i].accepted != 0 then [Accept] else [Rollback]
    {
      var acceptedCount := 0;
      var i := 0;
      while i < |verdicts| && i < 16
        invariant 0 <= i <= |verdicts| && i <= 16 && Valid()
        invariant forall j :: 0 <= j < i ==> results[j] == verdicts[j]
        invariant port.log == old(port.log) && port.Valid()
        invariant acceptedCount > 0 <==> exists j :: 0 <= j < i && verdicts[j].accepted != 0
      {
        results[i] := verdicts[i];
        if verdicts[i].accepted != 0 {
          acceptedCount := acceptedCount + 1;
        }
        i := i + 1;
      }
      numValidated := |verdicts|;
      ok := port.Commit(if acceptedCount > 0 then Accept else Rollback);
    }

    // sppu_speculative_run: 16 branches and depth 6 unless the session has its own. The
    // callback fills the zeroed verdict array: missing verdicts stay zero. None is a callback
    // that fails; haveMemory says whether calloc succeeds. On the emulated driver a run builds
    // its tree, fails, and commits nothing, so the tree and its scores stay in the driver.
    method SpeculativeRun(context: seq<real>, haveMemory: bool,
                          validate: seq<Hypothesis> -> Option<seq<Verdict>>)
      returns (ok: bool, ghost built: bool)
      requires Valid() && port.Valid() && |context| <= 8 && numBranches < 32
      modifies this, hypotheses, results, port, port.Device()
      ensures Valid() && port.Valid()
      ensures built == BuildAnswered(|context|)
      ensures var sent := Sent(context, if old(numBranches) == 0 then 16 else old(numBranches), 0, {});
        port.log == old(port.log) + sent
                    + if !built then []
                      else if Accepts(hypotheses[..numSubmitted], haveMemory, validate) then [Accept] else [Rollback]
      ensures var n := if old(numBranches) == 0 then 16 else old(numBranches);
        BuildSends(port.log[|old(port.log)|..|port.log| - if built then 1 else 0], context, n, 0, {})
      ensures !built ==> !ok
      ensures built ==> (ok <==>
        numSubmitted == 0 || (haveMemory && validate(hypotheses[..numSubmitted]).Some? && port.commitOk))
      ensures built ==> var b := PollFrom(port.Answers(), 0).value;
        Submitted(b.valid, if old(numBranches) == 0 then 16 else old(numBranches),
                  if old(treeDepth) == 0 then 6 else old(treeDepth), context, b.bestScore)
      ensures !built ==> NoCommit(port.log[|old(port.log)|..])
      ensures port.driver != null ==> !built
      ensures DriverBuilt(|context|,
        EmuSeu.PackConfig(if old(numBranches) == 0 then 16 else old(numBranches), |context|, true))
    {
      var n := if numBranches == 0 then 16 else numBranches;
      var depth := if treeDepth == 0 then 6 else treeDepth;
      var done := SpeculativeBuild(context, n, depth, 0, {});
      built := done;
      if !done {
        BuildCommitsNothing(port.loadOk, port.buildOk, port.Answers(), context, Request(|context|, n, 0, {}));
        return false, built;
      }
      ghost var sent := port.log;
      ok := ValidateAndCommit(haveMemory, validate);
      assert port.log[|old(port.log)|..|port.log| - 1] == sent[|old(port.log)|..];
    }

    // Steps 2 to 4 of a run: the callback judges the hypotheses, and one command answers.
    method ValidateAndCommit(haveMemory: bool, validate: seq<Hypothesis> -> Option<seq<Verdict>>) returns (ok: bool)
      requires Valid() && port.Valid()
      modifies this`numValidated, results, port`log, port.Device()
      ensures Valid() && port.Valid()
      ensures port.log == old(port.log)
        + if Accepts(hypotheses[..numSubmitted], haveMemory, validate) then [Accept] else [Rollback]
      ensures numSubmitted > 0 && haveMemory && validate(hypotheses[..numSubmitted]).Some? ==>
        var written := validate(hypotheses[..numSubmitted]).value;
        && numValidated == numSubmitted
        && forall i :: 0 <= i < numSubmitted ==>
             results[i] == if i < |written| then written[i] else Verdict(0, 0, 0.0, 0.0)
      ensures ok <==>
        numSubmitted == 0 || (haveMemory && validate(hypotheses[..numSubmitted]).Some? && port.commitOk)
    {
      var hyps := hypotheses[..numSubmitted];
      if hyps == [] {
        var _ := port.Commit(Rollback);
        return true;
      }
      if !haveMemory {
        var _ := port.Commit(Rollback);
        return false;
      }
      var verdicts := validate(hyps);
      if verdicts.None? {
        var _ := port.Commit(Rollback);
        return false;
      }
      var given := VerdictArray(|hyps|, verdicts.value);
      GivenAccepts(hyps, haveMemory, validate);
      ok := SpeculativeAccept(given);
      assert hypotheses[..numSubmitted] == hyps;
    }
  }

  // calloc'ed array of n verdicts after the callback wrote some
  function VerdictArray(n: nat, written: seq<Verdict>): (v: seq<Verdict>)
    ensures |v| == n
  {
    seq(n, i requires 0 <= i < n => if i < |written| then written[i] else Verdict(0, 0, 0.0, 0.0))
  }

  lemma GivenAccepts(hyps: seq<Hypothesis>, haveMemory: bool, validate: seq<Hypothesis> -> Option<seq<Verdict>>)
    requires hyps != [] && |hyps| <= 16 && haveMemory && validate(hyps).Some?
    ensures var given := VerdictArray(|hyps|, validate(hyps).value);
      (exists i :: 0 <= i < 16 && i < |given| && given[i].accepted != 0) <==> Accepts(hyps, haveMemory, validate)
  {
    var written := validate(hyps).value;
    var given := VerdictArray(|hyps|, written);
    if Accepts(hyps, haveMemory, validate) {
      var i :| 0 <= i < |hyps| && i < |written| && written[i].accepted != 0;
      assert given[i].accepted != 0;
    }
  }

  // The callback was asked, did not fail, and accepts one of the hypotheses.
  ghost predicate Accepts(hyps: seq<Hypothesis>, haveMemory: bool,
                          validate: seq<Hypothesis> -> Option<seq<Verdict>>) {
    && hyps != [] && haveMemory && validate(hyps).Some?
    && exists i :: 0 <= i < |hyps| && i < |validate(hyps).value| && validate(hyps).value[i].accepted != 0
  }
}
