/**
 SP800-90B health tests of one timer source (lrng_health.c): stuck test per CPU, repetition count test
 (section 4.4.1), adaptive proportion test (section 4.4.2), and the startup gate with its failure handling
 (section 4.3). One call of lrng_health_test is one step.
 */
module Health {
  import opened Words

  /** LRNG_APT_WINDOW_SIZE, LRNG_APT_LSB and LRNG_SP80090B_STARTUP_BLOCKS */
  const APT_WINDOW := 512
  const APT_SYMBOLS := 16
  const STARTUP_BLOCKS := 2

  /** CONFIG_LRNG_RCT_CUTOFF(_PERMANENT) and CONFIG_LRNG_APT_CUTOFF(_PERMANENT) */
  datatype Cutoffs = Cutoffs(rct: nat, rctPermanent: nat, apt: nat, aptPermanent: nat)

  predicate ValidCutoffs(c: Cutoffs) {
    0 < c.rct < c.rctPermanent && 0 < c.apt < c.aptPermanent
  }

  /** Per-CPU memory of the stuck test. */
  datatype Stuck = Stuck(lastTime: u32, lastDelta: u32, lastDelta2: u32)

  /** Health state of the source; `resets` counts the LRNG resets that failures scheduled. */
  datatype State = State(
    rctCount: nat,
    aptCount: nat, aptBase: nat, aptTrigger: int, aptBaseSet: bool,
    startupDone: bool, startupBlocks: int,
    resets: nat)

  const BOOT := State(0, 0, 0xffff_ffff, APT_WINDOW, false, false, STARTUP_BLOCKS, 0)

  datatype Verdict = Pass | FailUse | FailDrop

  function StuckStep(s: Stuck, now: u32): (Stuck, bool) {
    var delta := Sub(now, s.lastTime);
    var delta2 := Sub(delta, s.lastDelta);
    var delta3 := Sub(delta2, s.lastDelta2);
    (Stuck(now, delta, delta2), delta == 0 || delta2 == 0 || delta3 == 0)
  }

  /** lrng_sp80090b_startup_failure */
  function StartupFailure(s: State): State {
    s.(resets := s.resets + 1, startupBlocks := STARTUP_BLOCKS)
  }

  /** lrng_sp80090b_failure: with a completed startup the source is gated again. */
  function Failure(s: State): State {
    StartupFailure(s).(startupDone := false)
  }

  /** lrng_sp80090b_permanent_failure */
  function PermanentFailure(s: State): State {
    Failure(s).(rctCount := 0, aptCount := 0, aptBase := 0, aptTrigger := APT_WINDOW)
  }

  /** lrng_sp80090b_startup */
  function StartupBlockDone(s: State): State {
    if s.startupDone then s
    else s.(startupBlocks := s.startupBlocks - 1, startupDone := s.startupBlocks == 1)
  }

  /** The comparison with the base in lrng_apt_insert. */
  function AptCompare(c: Cutoffs, s: State, symbol: nat): State {
    if symbol != s.aptBase then s
    else
      var s1 := s.(aptCount := s.aptCount + 1);
      if s1.aptCount >= c.aptPermanent then PermanentFailure(s1)
      else if s1.aptCount >= c.apt then Failure(s1)
      else s1
  }

  function AptInsert(c: Cutoffs, s: State, symbol: nat): State {
    if !s.aptBaseSet then s.(aptBase := symbol, aptBaseSet := true)
    else
      var s1 := AptCompare(c, s, symbol);
      if s1.aptTrigger == 1
      then StartupBlockDone(s1.(aptTrigger := APT_WINDOW, aptCount := 0, aptBase := symbol))
      else s1.(aptTrigger := s1.aptTrigger - 1)
  }

  function RctInsert(c: Cutoffs, s: State, stuck: bool): State {
    if !stuck then s.(rctCount := 0)
    else
      var s1 := s.(rctCount := s.rctCount + 1);
      if s1.rctCount >= c.rctPermanent then PermanentFailure(s1)
      else if s1.rctCount >= c.rct then Failure(s1)
      else s1
  }

  /** One time stamp, whose stuck verdict is known. */
  function Step(c: Cutoffs, s: State, symbol: nat, stuck: bool): State {
    RctInsert(c, AptInsert(c, s, symbol), stuck)
  }

  // ---------------------------------------------------------------------------------------------
  // Histories
  // ---------------------------------------------------------------------------------------------

  /** What the two counting tests see of one time stamp: its four low bits, and whether it is stuck. */
  datatype Input = Input(symbol: nat, stuck: bool)

  function Run(c: Cutoffs, ins: seq<Input>): State {
    if ins == [] then BOOT
    else
      var n := |ins| - 1;
      Step(c, Run(c, ins[..n]), ins[n].symbol, ins[n].stuck)
  }

  /** The k-th time stamp made a test fail: an LRNG reset was scheduled in that call. */
  predicate FailedAt(c: Cutoffs, ins: seq<Input>, k: nat)
    requires k < |ins|
  {
    Run(c, ins[..k + 1]).resets > Run(c, ins[..k]).resets
  }

  predicate AptPermanentAt(c: Cutoffs, ins: seq<Input>, k: nat)
    requires k < |ins|
  {
    var s := Run(c, ins[..k]);
    s.aptBaseSet && ins[k].symbol == s.aptBase && s.aptCount + 1 >= c.aptPermanent
  }

  predicate RctPermanentAt(c: Cutoffs, ins: seq<Input>, k: nat)
    requires k < |ins|
  {
    ins[k].stuck && AptInsert(c, Run(c, ins[..k]), ins[k].symbol).rctCount + 1 >= c.rctPermanent
  }

  predicate WindowEndsAt(c: Cutoffs, ins: seq<Input>, k: nat)
    requires k < |ins|
  {
    var s := Run(c, ins[..k]);
    s.aptBaseSet && AptCompare(c, s, ins[k].symbol).aptTrigger == 1
  }

  lemma PrefixFacts(c: Cutoffs, ins: seq<Input>, more: Input, k: nat)
    requires k < |ins|
    ensures FailedAt(c, ins + [more], k) == FailedAt(c, ins, k)
    ensures AptPermanentAt(c, ins + [more], k) == AptPermanentAt(c, ins, k)
    ensures RctPermanentAt(c, ins + [more], k) == RctPermanentAt(c, ins, k)
  {
    assert (ins + [more])[..k] == ins[..k];
    assert (ins + [more])[..k + 1] == ins[..k + 1];
  }

  lemma RunExtends(c: Cutoffs, ins: seq<Input>, i: Input)
    ensures Run(c, ins + [i]) == Step(c, Run(c, ins), i.symbol, i.stuck)
    ensures (ins + [i])[..|ins|] == ins && (ins + [i])[..|ins| + 1] == ins + [i]
  {
    assert (ins + [i])[..|ins|] == ins;
  }

  /** The counters are within their permanent cutoffs after every call, and the window is never overrun. */
  lemma {:induction false} CountersBounded(c: Cutoffs, ins: seq<Input>)
    requires ValidCutoffs(c)
    ensures var s := Run(c, ins);
      && 1 <= s.aptTrigger <= APT_WINDOW
      && s.aptCount <= APT_WINDOW - s.aptTrigger
      && s.aptCount < c.aptPermanent && s.rctCount < c.rctPermanent
  {
    if ins != [] {
      CountersBounded(c, ins[..|ins| - 1]);
    }
  }

  /** A call schedules a reset exactly when it brings one of the two counts to its cutoff. */
  lemma FailsExactlyAtCutoff(c: Cutoffs, ins: seq<Input>, k: nat)
    requires ValidCutoffs(c) && k < |ins|
    ensures var s := Run(c, ins[..k]);
      var aptFails := s.aptBaseSet && ins[k].symbol == s.aptBase && s.aptCount + 1 >= c.apt;
      var rctFails := ins[k].stuck && AptInsert(c, s, ins[k].symbol).rctCount + 1 >= c.rct;
      FailedAt(c, ins, k) <==> aptFails || rctFails
  {
    assert ins[..k + 1] == ins[..k] + [ins[k]];
    RunExtends(c, ins[..k], ins[k]);
  }

  // ---------------------------------------------------------------------------------------------
  // The repetition count
  // ---------------------------------------------------------------------------------------------

  /**
   m is the length of the current stuck run: the last m time stamps are stuck, and the run cannot be
   longer because it starts at boot, after a time stamp that was not stuck, or at a permanent failure.
   */
  ghost predicate IsStuckRun(c: Cutoffs, ins: seq<Input>, m: nat) {
    var n := |ins|;
    && m <= n
    && (forall k | n - m <= k < n :: ins[k].stuck && !RctPermanentAt(c, ins, k))
    && (forall k | n - m < k < n :: !AptPermanentAt(c, ins, k))
    && (m == n || !ins[n - m - 1].stuck || RctPermanentAt(c, ins, n - m - 1)
        || (m > 0 && AptPermanentAt(c, ins, n - m)))
  }

  /** One call, seen by the repetition count. */
  lemma RctStep(c: Cutoffs, ins: seq<Input>)
    requires ValidCutoffs(c) && ins != []
    ensures var n := |ins| - 1;
      var run := if AptPermanentAt(c, ins, n) then 0 else Run(c, ins[..n]).rctCount;
      Run(c, ins).rctCount == if ins[n].stuck && !RctPermanentAt(c, ins, n) then run + 1 else 0
  {
  }

  /** One more time stamp ends the run, starts it anew, or prolongs it. */
  lemma StuckRunExtends(c: Cutoffs, before: seq<Input>, i: Input, m: nat)
    requires IsStuckRun(c, before, m)
    ensures var ins := before + [i];
      var n := |before|;
      if !i.stuck || RctPermanentAt(c, ins, n) then IsStuckRun(c, ins, 0)
      else if AptPermanentAt(c, ins, n) then IsStuckRun(c, ins, 1)
      else IsStuckRun(c, ins, m + 1)
  {
    hide AptPermanentAt, RctPermanentAt;
    var ins := before + [i];
    forall k | 0 <= k < |before|
      ensures ins[k] == before[k]
      ensures AptPermanentAt(c, ins, k) == AptPermanentAt(c, before, k)
      ensures RctPermanentAt(c, ins, k) == RctPermanentAt(c, before, k)
    {
      PrefixFacts(c, before, i, k);
    }
  }

  lemma {:induction false} RctCountIsStuckRun(c: Cutoffs, ins: seq<Input>)
    requires ValidCutoffs(c)
    ensures IsStuckRun(c, ins, Run(c, ins).rctCount)
  {
    if ins != [] {
      var n := |ins| - 1;
      RctCountIsStuckRun(c, ins[..n]);
      RctStep(c, ins);
      hide Run, AptPermanentAt, RctPermanentAt, IsStuckRun;
      assert ins == ins[..n] + [ins[n]];
      StuckRunExtends(c, ins[..n], ins[n], Run(c, ins[..n]).rctCount);
    }
  }

  /** There is only one such length, so the count is determined by the history. */
  lemma StuckRunIsUnique(c: Cutoffs, ins: seq<Input>, m: nat, m': nat)
    requires IsStuckRun(c, ins, m) && IsStuckRun(c, ins, m')
    ensures m == m'
  {
    hide AptPermanentAt, RctPermanentAt;
  }

  // ---------------------------------------------------------------------------------------------
  // The adaptive proportion
  // ---------------------------------------------------------------------------------------------

  /** Index of the first time stamp that the current window compares with its base. */
  function WindowStart(c: Cutoffs, ins: seq<Input>): (w: nat)
    ensures w <= |ins|
  {
    if ins == [] then 0
    else
      var n := |ins| - 1;
      if n == 0 || WindowEndsAt(c, ins, n) || AptPermanentAt(c, ins, n) || RctPermanentAt(c, ins, n)
      then n + 1
      else WindowStart(c, ins[..n])
  }

  function Matches(ins: seq<Input>, from: nat, base: nat): nat
    requires from <= |ins|
  {
    if from == |ins| then 0
    else Matches(ins[..|ins| - 1], from, base) + if ins[|ins| - 1].symbol == base then 1 else 0
  }

  /** One call after the first, seen by the APT window. */
  lemma AptStep(c: Cutoffs, ins: seq<Input>)
    requires ValidCutoffs(c) && ins != [] && Run(c, ins[..|ins| - 1]).aptBaseSet
    ensures var n := |ins| - 1;
      var s0, s := Run(c, ins[..n]), Run(c, ins);
      var apt, rct, end := AptPermanentAt(c, ins, n), RctPermanentAt(c, ins, n), WindowEndsAt(c, ins, n);
      var hit := if ins[n].symbol == s0.aptBase then 1 else 0;
      && s.aptBaseSet
      && !(apt && end)
      && s.aptCount == (if rct || apt || end then 0 else s0.aptCount + hit)
      && s.aptBase == (if rct || apt then 0 else if end then ins[n].symbol else s0.aptBase)
      && s.aptTrigger == (if rct then APT_WINDOW else if apt then APT_WINDOW - 1 else if end then APT_WINDOW else s0.aptTrigger - 1)
  {
  }

  /** The window that starts at w explains the state s after the given history. */
  predicate IsWindow(c: Cutoffs, ins: seq<Input>, s: State, w: nat) {
    && s.aptBaseSet && 0 < w <= |ins|
    && s.aptCount == Matches(ins, w, s.aptBase)
    && s.aptBase == (if AptPermanentAt(c, ins, w - 1) || RctPermanentAt(c, ins, w - 1) then 0 else ins[w - 1].symbol)
    && APT_WINDOW - s.aptTrigger == |ins| - w +
         (if AptPermanentAt(c, ins, w - 1) && !RctPermanentAt(c, ins, w - 1) then 1 else 0)
  }

  /** A window goes on over one more time stamp. */
  lemma WindowExtends(c: Cutoffs, before: seq<Input>, i: Input, s0: State, s: State, w: nat)
    requires IsWindow(c, before, s0, w)
    requires s.aptBaseSet && s.aptBase == s0.aptBase && s.aptTrigger == s0.aptTrigger - 1
    requires s.aptCount == s0.aptCount + if i.symbol == s0.aptBase then 1 else 0
    ensures IsWindow(c, before + [i], s, w)
  {
    hide AptPermanentAt, RctPermanentAt;
    PrefixFacts(c, before, i, w - 1);
    assert (before + [i])[..|before|] == before;
  }

  /**
   The APT counts the matches since its window began. The base is the time stamp before the window, or
   0 after a permanent failure; the window has 512 time stamps, but only 511 after a permanent APT
   failure, whose own time stamp already uses up one.
   */
  lemma {:induction false} AptCountIsMatches(c: Cutoffs, ins: seq<Input>)
    requires ValidCutoffs(c) && ins != []
    ensures IsWindow(c, ins, Run(c, ins), WindowStart(c, ins))
  {
    hide Run, AptPermanentAt, RctPermanentAt, WindowEndsAt;
    var n := |ins| - 1;
    var before := ins[..n];
    if n == 0 {
      FirstWindow(c, ins);
    } else {
      AptCountIsMatches(c, before);
      AptStep(c, ins);
      assert ins == before + [ins[n]];
      if WindowStart(c, ins) == WindowStart(c, before) {
        hide IsWindow, Matches;
        WindowExtends(c, before, ins[n], Run(c, before), Run(c, ins), WindowStart(c, before));
      } else {
        assert WindowStart(c, ins) == n + 1;
        assert Matches(ins, n + 1, Run(c, ins).aptBase) == 0;
      }
    }
  }

  lemma FirstWindow(c: Cutoffs, ins: seq<Input>)
    requires ValidCutoffs(c) && |ins| == 1
    ensures IsWindow(c, ins, Run(c, ins), 1)
  {
    assert ins[..0] == [];
    assert Run(c, ins[..0]) == BOOT;
  }

  // ---------------------------------------------------------------------------------------------
  // The startup gate
  // ---------------------------------------------------------------------------------------------

  /** Number of time stamps since the last one that made a test fail. */
  function CleanSuffix(c: Cutoffs, ins: seq<Input>): (f: nat)
    ensures f <= |ins|
  {
    if ins == [] || FailedAt(c, ins, |ins| - 1) then 0 else 1 + CleanSuffix(c, ins[..|ins| - 1])
  }

  lemma {:induction false} CleanSuffixIsClean(c: Cutoffs, ins: seq<Input>, k: nat)
    requires |ins| - CleanSuffix(c, ins) <= k < |ins|
    ensures !FailedAt(c, ins, k)
  {
    hide Run, FailedAt;
    var n := |ins| - 1;
    if k < n {
      CleanSuffixIsClean(c, ins[..n], k);
      assert ins == ins[..n] + [ins[n]];
      PrefixFacts(c, ins[..n], ins[n], k);
    }
  }

  predicate GateInv(s: State, clean: nat, n: nat) {
    && (s.startupDone <==> s.startupBlocks == 0)
    && 0 <= s.startupBlocks <= STARTUP_BLOCKS
    && (s.aptBaseSet <==> n > 0)
    && (s.startupDone ==> clean >= APT_WINDOW && n >= 1 + 2 * APT_WINDOW)
    && (s.startupBlocks == 1 ==> clean >= APT_WINDOW - s.aptTrigger && n >= 1 + APT_WINDOW + APT_WINDOW - s.aptTrigger)
    && (n > 0 ==> n >= 1 + APT_WINDOW - s.aptTrigger)
    && (n == 0 ==> s.aptTrigger == APT_WINDOW)
  }

  lemma GateStep(c: Cutoffs, s: State, clean: nat, n: nat, symbol: nat, stuck: bool)
    requires ValidCutoffs(c) && GateInv(s, clean, n) && 1 <= s.aptTrigger <= APT_WINDOW
    ensures var s1 := Step(c, s, symbol, stuck);
      GateInv(s1, if s1.resets > s.resets then 0 else clean + 1, n + 1)
  {
    var s1 := AptInsert(c, s, symbol);
    var clean1 := if s1.resets > s.resets then 0 else clean + 1;
    assert GateInv(s1, clean1, n + 1) && 1 <= s1.aptTrigger <= APT_WINDOW && s1.resets >= s.resets;
    hide AptInsert;
  }

  lemma {:induction false} GateInvHolds(c: Cutoffs, ins: seq<Input>)
    requires ValidCutoffs(c)
    ensures GateInv(Run(c, ins), CleanSuffix(c, ins), |ins|)
  {
    if ins != [] {
      var n := |ins| - 1;
      GateInvHolds(c, ins[..n]);
      CountersBounded(c, ins[..n]);
      assert ins[..n + 1] == ins;
      hide Step, GateInv;
      GateStep(c, Run(c, ins[..n]), CleanSuffix(c, ins[..n]), n, ins[n].symbol, ins[n].stuck);
    }
  }

  /**
   The startup gate over all histories: it is open exactly when no block remains, and when it is open
   after a call, at least 1025 time stamps were seen and none of the last 512 made a test fail.
   */
  lemma StartupGate(c: Cutoffs, ins: seq<Input>)
    requires ValidCutoffs(c)
    ensures Run(c, ins).startupDone <==> Run(c, ins).startupBlocks == 0
    ensures Run(c, ins).startupDone ==> |ins| >= 1025
    ensures Run(c, ins).startupDone ==> forall k | |ins| - APT_WINDOW <= k < |ins| :: !FailedAt(c, ins, k)
  {
    GateInvHolds(c, ins);
    if Run(c, ins).startupDone {
      forall k | |ins| - APT_WINDOW <= k < |ins|
        ensures !FailedAt(c, ins, k)
      {
        CleanSuffixIsClean(c, ins, k);
      }
    }
  }

  // ---------------------------------------------------------------------------------------------
  // When exactly the gate opens after a failure
  // ---------------------------------------------------------------------------------------------

  /** The last time stamp of the history made a test fail. */
  predicate EndsInFailure(c: Cutoffs, before: seq<Input>) {
    before != [] && FailedAt(c, before, |before| - 1)
  }

  /** None of the time stamps after a history makes a test fail. */
  predicate CleanAfter(c: Cutoffs, before: seq<Input>, more: seq<Input>) {
    forall k | |before| <= k < |before + more| :: !FailedAt(c, before + more, k)
  }

  /** Time stamps until the gate opens: the rest of the window, and a whole one for each further block. */
  function UntilOpen(s: State): int {
    s.aptTrigger + APT_WINDOW * (s.startupBlocks - 1)
  }

  /** What a failing call leaves: a closed gate, one or two blocks, and some rest of the window. */
  lemma FailureLeaves(c: Cutoffs, before: seq<Input>)
    requires ValidCutoffs(c) && EndsInFailure(c, before)
    ensures var s := Run(c, before);
      && !s.startupDone && 1 <= s.startupBlocks <= STARTUP_BLOCKS && 1 <= s.aptTrigger <= APT_WINDOW && s.aptBaseSet
  {
    hide Run, FailedAt;
    GateInvHolds(c, before);
    CountersBounded(c, before);
  }

  /** State of the gate d clean time stamps after s0. */
  predicate GateAfter(s0: State, s: State, d: nat) {
    && s.aptBaseSet && (s.startupDone <==> s.startupBlocks == 0) && 1 <= s.aptTrigger <= APT_WINDOW
    && if d < s0.aptTrigger then s.startupBlocks == s0.startupBlocks && s.aptTrigger == s0.aptTrigger - d
       else if d < UntilOpen(s0) then s.startupBlocks == 1 && s.aptTrigger == UntilOpen(s0) - d
       else s.startupBlocks == 0
  }

  lemma GateAfterStep(c: Cutoffs, s0: State, s: State, d: nat, symbol: nat, stuck: bool)
    requires ValidCutoffs(c) && 1 <= s0.startupBlocks <= STARTUP_BLOCKS && 1 <= s0.aptTrigger <= APT_WINDOW
    requires GateAfter(s0, s, d) && Step(c, s, symbol, stuck).resets <= s.resets
    ensures GateAfter(s0, Step(c, s, symbol, stuck), d + 1)
  {
    var s1 := AptInsert(c, s, symbol);
    assert s.resets <= s1.resets <= Step(c, s, symbol, stuck).resets;
    assert GateAfter(s0, s1, d + 1);
    hide AptInsert, GateAfter;
    RctKeepsGate(c, s0, s1, d + 1, stuck);
  }

  lemma RctKeepsGate(c: Cutoffs, s0: State, s: State, d: nat, stuck: bool)
    requires GateAfter(s0, s, d) && RctInsert(c, s, stuck).resets <= s.resets
    ensures GateAfter(s0, RctInsert(c, s, stuck), d)
  {
  }

  lemma CleanPrefix(c: Cutoffs, before: seq<Input>, more: seq<Input>)
    requires more != [] && CleanAfter(c, before, more)
    ensures var n := |more| - 1;
      && before + more == before + more[..n] + [more[n]]
      && CleanAfter(c, before, more[..n])
      && Run(c, before + more) == Step(c, Run(c, before + more[..n]), more[n].symbol, more[n].stuck)
      && Run(c, before + more).resets <= Run(c, before + more[..n]).resets
  {
    var n := |more| - 1;
    var front := before + more[..n];
    assert before + more == front + [more[n]];
    RunExtends(c, front, more[n]);
    assert !FailedAt(c, before + more, |front|);
    forall k | |before| <= k < |front|
      ensures !FailedAt(c, front, k)
    {
      assert !FailedAt(c, before + more, k);
      PrefixFacts(c, front, more[n], k);
    }
  }

  lemma {:induction false} GateAfterHolds(c: Cutoffs, before: seq<Input>, more: seq<Input>)
    requires ValidCutoffs(c) && EndsInFailure(c, before) && CleanAfter(c, before, more)
    ensures GateAfter(Run(c, before), Run(c, before + more), |more|)
    decreases |more|
  {
    FailureLeaves(c, before);
    hide Run, Step, EndsInFailure, CleanAfter;
    if more == [] {
      assert before + more == before;
    } else {
      var n := |more| - 1;
      CleanPrefix(c, before, more);
      GateAfterHolds(c, before, more[..n]);
      GateAfterStep(c, Run(c, before), Run(c, before + more[..n]), n, more[n].symbol, more[n].stuck);
    }
  }

  /** After the last failure the gate is open exactly from the time stamp on that ends the last block. */
  lemma GateExactly(c: Cutoffs, before: seq<Input>, more: seq<Input>)
    requires ValidCutoffs(c) && EndsInFailure(c, before) && CleanAfter(c, before, more)
    ensures var s := Run(c, before);
      && 1 <= s.startupBlocks <= STARTUP_BLOCKS && 1 <= s.aptTrigger <= APT_WINDOW
      && (Run(c, before + more).startupDone <==> |more| >= UntilOpen(s))
  {
    hide Run, EndsInFailure, CleanAfter;
    FailureLeaves(c, before);
    GateAfterHolds(c, before, more);
  }

  /** Time stamps that match no base and are not stuck: no test can fail on them. */
  function Harmless(c: Cutoffs, before: seq<Input>, d: nat): (more: seq<Input>)
    ensures |more| == d
  {
    if d == 0 then []
    else
      var front := Harmless(c, before, d - 1);
      front + [Input(if Run(c, before + front).aptBase == 0 then 1 else 0, false)]
  }

  lemma {:induction false} HarmlessIsClean(c: Cutoffs, before: seq<Input>, d: nat)
    requires ValidCutoffs(c) && before != []
    ensures CleanAfter(c, before, Harmless(c, before, d))
  {
    if d == 0 {
      assert before + [] == before;
    } else {
      hide Run, Step, CleanSuffix, CleanAfter;
      var front, last := Harmless(c, before, d - 1), Harmless(c, before, d)[d - 1];
      HarmlessIsClean(c, before, d - 1);
      GateInvHolds(c, before + front);
      NoMatchNoFailure(c, Run(c, before + front), last.symbol);
      OneMoreClean(c, before, front, last);
    }
  }

  lemma OneMoreClean(c: Cutoffs, before: seq<Input>, front: seq<Input>, last: Input)
    requires CleanAfter(c, before, front)
    requires Step(c, Run(c, before + front), last.symbol, last.stuck).resets == Run(c, before + front).resets
    ensures CleanAfter(c, before, front + [last])
  {
    var ins := before + front;
    assert before + (front + [last]) == ins + [last];
    RunExtends(c, ins, last);
    hide Run, Step;
    forall k | |before| <= k < |ins + [last]|
      ensures !FailedAt(c, ins + [last], k)
    {
      if k < |ins| {
        assert !FailedAt(c, ins, k);
        PrefixFacts(c, ins, last, k);
      }
    }
  }

  lemma NoMatchNoFailure(c: Cutoffs, s: State, symbol: nat)
    requires s.aptBaseSet && symbol != s.aptBase
    ensures Step(c, s, symbol, false).resets == s.resets
  {
  }

  /** Every gate that opens after the failure, with no failure in between, has 1024 clean time stamps behind it. */
  ghost predicate Guarantees1024(c: Cutoffs, before: seq<Input>) {
    forall more: seq<Input> | CleanAfter(c, before, more) && Run(c, before + more).startupDone :: |more| >= 2 * APT_WINDOW
  }

  /** That is so exactly if the failing call left both blocks and a whole window. */
  lemma Guarantees1024Exactly(c: Cutoffs, before: seq<Input>)
    requires ValidCutoffs(c) && EndsInFailure(c, before)
    ensures Guarantees1024(c, before)
      <==> Run(c, before).startupBlocks == STARTUP_BLOCKS && Run(c, before).aptTrigger == APT_WINDOW
  {
    var s := Run(c, before);
    var more := Harmless(c, before, UntilOpenNat(c, before));
    HarmlessIsClean(c, before, |more|);
    GateExactly(c, before, more);
    hide Run, EndsInFailure, CleanAfter, Harmless;
    if s.startupBlocks == STARTUP_BLOCKS && s.aptTrigger == APT_WINDOW {
      forall more: seq<Input> | CleanAfter(c, before, more) && Run(c, before + more).startupDone
        ensures |more| >= 2 * APT_WINDOW
      {
        GateExactly(c, before, more);
      }
    } else {
      assert Run(c, before + more).startupDone && |more| < 2 * APT_WINDOW;
    }
  }

  function UntilOpenNat(c: Cutoffs, before: seq<Input>): (d: nat)
    requires ValidCutoffs(c) && EndsInFailure(c, before)
    ensures d == UntilOpen(Run(c, before))
  {
    FailureLeaves(c, before);
    UntilOpen(Run(c, before))
  }

  /**
   Which failing calls do that: a permanent RCT failure, which restarts the window, and an RCT failure in the call that
   ends a window or is the very first. An APT failure never does.
   */
  lemma FullRestartExactly(c: Cutoffs, before: seq<Input>)
    requires ValidCutoffs(c) && EndsInFailure(c, before)
    ensures var k := |before| - 1;
      var s := Run(c, before[..k]);
      var rctFails := before[k].stuck && AptInsert(c, s, before[k].symbol).rctCount + 1 >= c.rct;
      Run(c, before).startupBlocks == STARTUP_BLOCKS && Run(c, before).aptTrigger == APT_WINDOW
      <==> RctPermanentAt(c, before, k) || (rctFails && (WindowEndsAt(c, before, k) || k == 0))
  {
    var k := |before| - 1;
    CountersBounded(c, before[..k]);
    GateInvHolds(c, before[..k]);
    hide CleanSuffix;
    assert before[..k + 1] == before;
  }

  /** The first m time stamps of a run of stuck ones that match the base of the window only at the start. */
  function StuckStart(m: nat): (ins: seq<Input>)
    ensures |ins| == m
  {
    seq(m, i => Input(if i == 0 then 0 else 1, true))
  }

  lemma {:induction false} StuckStartState(c: Cutoffs, m: nat)
    requires ValidCutoffs(c) && 1 <= m <= c.rct && m <= APT_WINDOW
    ensures var s := Run(c, StuckStart(m));
      && s.rctCount == m && s.aptBaseSet && s.aptBase == 0 && s.aptTrigger == APT_WINDOW + 1 - m
      && s.startupBlocks == STARTUP_BLOCKS && s.resets == (if m == c.rct then 1 else 0)
  {
    assert StuckStart(m)[..m - 1] == StuckStart(m - 1);
    if m == 1 {
      assert Run(c, StuckStart(0)) == BOOT;
    } else {
      StuckStartState(c, m - 1);
    }
  }

  /**
   A run from boot that shows the gate open with a failure among the last 1024 time stamps: the repetition count fails
   once, in the first window, and the gate still opens at the 1025th time stamp as if nothing had failed.
   */
  lemma OpenGateWithRecentFailure(c: Cutoffs) returns (ins: seq<Input>)
    requires ValidCutoffs(c) && 2 <= c.rct <= APT_WINDOW
    ensures |ins| == 1025 && Run(c, ins).startupDone && FailedAt(c, ins, c.rct - 1) && c.rct - 1 >= |ins| - 2 * APT_WINDOW
  {
    var before := StuckStart(c.rct);
    StuckStartState(c, c.rct);
    StuckStartState(c, c.rct - 1);
    assert before[..c.rct - 1] == StuckStart(c.rct - 1) && before[..c.rct] == before;
    assert EndsInFailure(c, before);
    var more := Harmless(c, before, UntilOpenNat(c, before));
    HarmlessIsClean(c, before, |more|);
    GateExactly(c, before, more);
    ins := before + more;
    assert ins[..c.rct] == before && ins[..c.rct - 1] == before[..c.rct - 1];
  }

  // ---------------------------------------------------------------------------------------------
  // Without failures
  // ---------------------------------------------------------------------------------------------

  /** State of the gate after n time stamps without failure. */
  predicate CleanGate(s: State, n: nat) {
    && (s.startupDone <==> n >= 1025)
    && (s.aptBaseSet <==> n > 0)
    && s.startupBlocks == (if n <= 512 then 2 else if n <= 1024 then 1 else 0)
    && (n == 0 ==> s.aptTrigger == APT_WINDOW)
    && (0 < n <= 512 ==> s.aptTrigger == 513 - n)
    && (512 < n <= 1024 ==> s.aptTrigger == 1025 - n)
  }

  lemma CleanGateStep(c: Cutoffs, s: State, n: nat, symbol: nat, stuck: bool)
    requires ValidCutoffs(c) && CleanGate(s, n) && 1 <= s.aptTrigger <= APT_WINDOW
    requires Step(c, s, symbol, stuck).resets <= s.resets
    ensures CleanGate(Step(c, s, symbol, stuck), n + 1)
  {
    var s1 := AptInsert(c, s, symbol);
    assert s.resets <= s1.resets <= Step(c, s, symbol, stuck).resets;
    assert CleanGate(s1, n + 1);
    hide AptInsert;
  }

  /** Without failures since boot, the gate opens with the 1025th time stamp and stays open. */
  lemma {:induction false} GateOpensAt1025(c: Cutoffs, ins: seq<Input>)
    requires ValidCutoffs(c)
    requires forall k | 0 <= k < |ins| :: !FailedAt(c, ins, k)
    ensures CleanGate(Run(c, ins), |ins|)
  {
    if ins != [] {
      var n := |ins| - 1;
      var before := ins[..n];
      assert ins == before + [ins[n]] && ins[..n + 1] == ins;
      assert !FailedAt(c, ins, n);
      CountersBounded(c, before);
      hide Step, CleanGate;
      assert Run(c, ins) == Step(c, Run(c, before), ins[n].symbol, ins[n].stuck);
      assert Run(c, ins).resets <= Run(c, before).resets;
      hide Run, FailedAt;
      forall k | 0 <= k < n
        ensures !FailedAt(c, before, k)
      {
        assert !FailedAt(c, ins, k);
        PrefixFacts(c, before, ins[n], k);
      }
      GateOpensAt1025(c, before);
      CleanGateStep(c, Run(c, before), n, ins[n].symbol, ins[n].stuck);
    }
  }

  // ---------------------------------------------------------------------------------------------
  // The stuck test
  // ---------------------------------------------------------------------------------------------

  /** The i-th last time stamp, counting from 0; before the first one the memory holds zeros. */
  function Back(times: seq<u32>, i: nat): u32 {
    if i < |times| then times[|times| - 1 - i] else 0
  }

  function StuckMemory(times: seq<u32>): Stuck {
    if times == [] then Stuck(0, 0, 0)
    else StuckStep(StuckMemory(times[..|times| - 1]), times[|times| - 1]).0
  }

  function IsStuck(times: seq<u32>, now: u32): bool {
    StuckStep(StuckMemory(times), now).1
  }

  lemma WrapShift(x: int, k: int)
    ensures Wrap(x + TWO32 * k) == Wrap(x)
  {
  }

  lemma WrapDifference(a: int, b: int)
    ensures Sub(Wrap(a), Wrap(b)) == Wrap(a - b)
  {
    WrapShift(a - b, b / TWO32 - a / TWO32);
  }

  lemma {:induction false} MemoryHoldsDifferences(times: seq<u32>)
    ensures StuckMemory(times) ==
      Stuck(Back(times, 0), Wrap(Back(times, 0) - Back(times, 1)), Wrap(Back(times, 0) - 2 * Back(times, 1) + Back(times, 2)))
  {
    hide Wrap;
    if times != [] {
      var n := |times| - 1;
      var before := times[..n];
      MemoryHoldsDifferences(before);
      var t0: int, t1: int, t2: int := times[n], Back(before, 0), Back(before, 1);
      assert Back(times, 0) == t0 && Back(times, 1) == t1 && Back(times, 2) == t2 && Back(before, 2) == Back(times, 3);
      hide Back;
      WrapDifference(t0 - t1, t1 - t2);
      assert (t0 - t1) - (t1 - t2) == t0 - 2 * t1 + t2;
    }
  }

  /** A time stamp is stuck exactly when its first, second or third difference modulo 2^32 is zero. */
  lemma StuckIsZeroDifference(times: seq<u32>, now: u32)
    ensures var t1, t2, t3 := Back(times, 0), Back(times, 1), Back(times, 2);
      IsStuck(times, now) <==>
        Wrap(now - t1) == 0 || Wrap(now - 2 * t1 + t2) == 0 || Wrap(now - 3 * t1 + 3 * t2 - t3) == 0
  {
    hide Wrap, Back, StuckMemory, Sub;
    var t1: int, t2: int, t3: int := Back(times, 0), Back(times, 1), Back(times, 2);
    MemoryHoldsDifferences(times);
    var delta, delta2 := now as int - t1, now as int - 2 * t1 + t2;
    WrapDifference(delta, t1 - t2);
    assert delta - (t1 - t2) == delta2;
    WrapDifference(delta2, t1 - 2 * t2 + t3);
    assert delta2 - (t1 - 2 * t2 + t3) == now as int - 3 * t1 + 3 * t2 - t3;
    SubIsWrap(now, Back(times, 0));
  }

  lemma SubIsWrap(a: u32, b: u32)
    ensures Sub(a, b) == Wrap(a - b)
  {
  }

  function Quadratic(a: int, b: int, c: int, i: int): int {
    a + b * i + c * i * i
  }

  lemma ThirdDifferenceVanishes(a: int, b: int, c: int, i: int)
    ensures Quadratic(a, b, c, i) - 3 * Quadratic(a, b, c, i - 1) + 3 * Quadratic(a, b, c, i - 2) - Quadratic(a, b, c, i - 3) == 0
  {
    assert c * (i - 1) * (i - 1) == c * i * i - 2 * (c * i) + c;
    assert c * (i - 2) * (i - 2) == c * i * i - 4 * (c * i) + 4 * c;
    assert c * (i - 3) * (i - 3) == c * i * i - 6 * (c * i) + 9 * c;
  }

  lemma WrapCombination(x: int, y: int, z: int, w: int)
    ensures Wrap(Wrap(x) - 3 * Wrap(y) + 3 * Wrap(z) - Wrap(w)) == Wrap(x - 3 * y + 3 * z - w)
  {
    WrapShift(x - 3 * y + 3 * z - w, -(x / TWO32) + 3 * (y / TWO32) - 3 * (z / TWO32) + w / TWO32);
  }

  /** A time stamp that continues the last three ones along any quadratic modulo 2^32 is stuck, whatever came before. */
  lemma QuadraticsAreStuck(a: int, b: int, c: int, i: int, times: seq<u32>, now: u32)
    requires Back(times, 0) == Wrap(Quadratic(a, b, c, i - 1))
    requires Back(times, 1) == Wrap(Quadratic(a, b, c, i - 2))
    requires Back(times, 2) == Wrap(Quadratic(a, b, c, i - 3))
    requires now == Wrap(Quadratic(a, b, c, i))
    ensures IsStuck(times, now)
  {
    hide Back, Quadratic, IsStuck;
    StuckIsZeroDifference(times, now);
    ThirdDifferenceVanishes(a, b, c, i);
    WrapCombination(Quadratic(a, b, c, i), Quadratic(a, b, c, i - 1), Quadratic(a, b, c, i - 2), Quadratic(a, b, c, i - 3));
  }

  // ---------------------------------------------------------------------------------------------
  // The test as the interrupt handlers call it
  // ---------------------------------------------------------------------------------------------

  datatype Sample = Sample(cpu: nat, time: u32)

  /** Time stamps of one CPU, in order. */
  function Times(history: seq<Sample>, cpu: nat): seq<u32> {
    if history == [] then []
    else
      var n := |history| - 1;
      Times(history[..n], cpu) + if history[n].cpu == cpu then [history[n].time] else []
  }

  /** What the counting tests see of a history. */
  function Inputs(history: seq<Sample>): seq<Input> {
    if history == [] then []
    else
      var n := |history| - 1;
      var Sample(cpu, time) := history[n];
      Inputs(history[..n]) + [Input(time % APT_SYMBOLS, IsStuck(Times(history[..n], cpu), time))]
  }

  lemma TimesExtend(history: seq<Sample>, s: Sample, cpu: nat)
    ensures Times(history + [s], cpu) == Times(history, cpu) + if s.cpu == cpu then [s.time] else []
    ensures s.cpu != cpu ==> Times(history + [s], cpu) == Times(history, cpu)
    ensures s.cpu == cpu ==>
      StuckMemory(Times(history + [s], cpu)) == StuckStep(StuckMemory(Times(history, cpu)), s.time).0
  {
    assert (history + [s])[..|history|] == history;
    assert (Times(history, cpu) + [s.time])[..|Times(history, cpu)|] == Times(history, cpu);
  }

  class Tester {
    const cutoffs: Cutoffs
    const requested: bool   // lrng_sp80090b_health_requested: booted in FIPS mode
    var enabled: bool
    var rctCount: nat
    var aptCount: nat
    var aptBase: nat
    var aptTrigger: int
    var aptBaseSet: bool
    var startupDone: bool
    var startupBlocks: int
    var resets: nat
    const stuck: array<Stuck>
    ghost var history: seq<Sample>

    function View(): State
      reads this
    {
      State(rctCount, aptCount, aptBase, aptTrigger, aptBaseSet, startupDone, startupBlocks, resets)
    }

    /** The state is a function of the time stamps seen so far. */
    ghost predicate Valid()
      reads this, stuck
    {
      && (forall cpu | 0 <= cpu < stuck.Length :: stuck[cpu] == StuckMemory(Times(history, cpu)))
      && View() == if requested then Run(cutoffs, Inputs(history)) else BOOT
    }

    constructor (cutoffs: Cutoffs, requested: bool, cpus: nat)
      ensures Valid() && history == [] && enabled && fresh(stuck)
      ensures this.cutoffs == cutoffs && this.requested == requested && stuck.Length == cpus
    {
      this.cutoffs := cutoffs;
      this.requested := requested;
      enabled := true;
      rctCount, aptCount, aptBase, aptTrigger, aptBaseSet := 0, 0, 0xffff_ffff, APT_WINDOW, false;
      startupDone, startupBlocks, resets := false, STARTUP_BLOCKS, 0;
      stuck := new Stuck[cpus](_ => Stuck(0, 0, 0));
      history := [];
    }

    /** lrng_health_disable: from now on every time stamp passes and the gate is open. */
    method Disable()
      requires Valid()
      modifies this`enabled
      ensures Valid() && !enabled && StartupComplete()
    {
      enabled := false;
    }

    /** lrng_sp80090b_startup_complete_es: the gate that the entropy source asks. */
    predicate StartupComplete()
      reads this
    {
      if !(requested && enabled) then true else startupDone
    }

    method HandleStartupFailure()
      modifies this`resets, this`startupBlocks
      ensures View() == StartupFailure(old(View()))
    {
      resets := resets + 1;
      startupBlocks := STARTUP_BLOCKS;
    }

    method HandleFailure()
      modifies this`resets, this`startupBlocks, this`startupDone
      ensures View() == Failure(old(View()))
    {
      if startupDone {
        HandleStartupFailure();
        startupDone := false;
      } else {
        HandleStartupFailure();
      }
    }

    method HandlePermanentFailure()
      modifies this`resets, this`startupBlocks, this`startupDone, this`rctCount, this`aptCount, this`aptBase, this`aptTrigger
      ensures View() == PermanentFailure(old(View()))
    {
      HandleStartupFailure();
      startupDone := false;
      rctCount := 0;
      aptCount := 0;
      aptBase := 0;
      aptTrigger := APT_WINDOW;
    }

    method Startup()
      modifies this`startupBlocks, this`startupDone
      ensures View() == StartupBlockDone(old(View()))
    {
      if !startupDone {
        startupBlocks := startupBlocks - 1;
        if startupBlocks == 0 {
          startupDone := true;
        }
      }
    }

    method InsertApt(now: u32)
      modifies this
      ensures View() == if requested then AptInsert(cutoffs, old(View()), now % APT_SYMBOLS) else old(View())
      ensures enabled == old(enabled) && history == old(history)
    {
      if !requested {
        return;
      }
      var symbol := now % APT_SYMBOLS;
      if !aptBaseSet {
        aptBase := symbol;
        aptBaseSet := true;
        return;
      }
      if symbol == aptBase {
        aptCount := aptCount + 1;
        if aptCount >= cutoffs.aptPermanent {
          HandlePermanentFailure();
        } else if aptCount >= cutoffs.apt {
          HandleFailure();
        }
      }
      assert View() == AptCompare(cutoffs, old(View()), symbol);
      aptTrigger := aptTrigger - 1;
      if aptTrigger == 0 {
        aptTrigger := APT_WINDOW;
        aptCount := 0;
        aptBase := symbol;
        Startup();
      }
    }

    method InsertRct(isStuck: bool)
      modifies this
      ensures View() == if requested then RctInsert(cutoffs, old(View()), isStuck) else old(View())
      ensures enabled == old(enabled) && history == old(history)
    {
      if !requested {
        return;
      }
      if isStuck {
        rctCount := rctCount + 1;
        if rctCount >= cutoffs.rctPermanent {
          HandlePermanentFailure();
        } else if rctCount >= cutoffs.rct {
          HandleFailure();
        }
      } else {
        rctCount := 0;
      }
    }

    method TestStuck(cpu: nat, now: u32) returns (isStuck: bool)
      requires cpu < stuck.Length
      modifies stuck
      ensures (stuck[cpu], isStuck) == StuckStep(old(stuck[cpu]), now)
      ensures forall c | 0 <= c < stuck.Length && c != cpu :: stuck[c] == old(stuck[c])
    {
      var delta := Sub(now, stuck[cpu].lastTime);
      var delta2 := Sub(delta, stuck[cpu].lastDelta);
      var delta3 := Sub(delta2, stuck[cpu].lastDelta2);
      stuck[cpu] := Stuck(now, delta, delta2);
      isStuck := delta == 0 || delta2 == 0 || delta3 == 0;
    }

    /** lrng_health_test: a time stamp passes exactly when it is not stuck; the state stays what the history says. */
    method HealthTest(cpu: nat, now: u32) returns (verdict: Verdict)
      requires Valid() && cpu < stuck.Length
      modifies this, stuck
      ensures Valid() && enabled == old(enabled)
      ensures !enabled ==> verdict == Pass && history == old(history)
      ensures enabled ==> history == old(history) + [Sample(cpu, now)]
      ensures enabled ==>
        verdict == if !IsStuck(Times(old(history), cpu), now) then Pass else if requested then FailDrop else FailUse
    {
      hide StuckStep, AptInsert, RctInsert;
      if !enabled {
        return Pass;
      }
      InsertApt(now);
      var isStuck := TestStuck(cpu, now);
      InsertRct(isStuck);
      ghost var before := history;
      history := history + [Sample(cpu, now)];
      assert history[..|history| - 1] == before;
      if requested {
        RunExtends(cutoffs, Inputs(before), Input(now % APT_SYMBOLS, isStuck));
      }
      forall c | 0 <= c < stuck.Length
        ensures stuck[c] == StuckMemory(Times(history, c))
      {
        TimesExtend(before, Sample(cpu, now), c);
        assert old(stuck[c]) == StuckMemory(Times(before, c));
        assert stuck[c] == if c == cpu then StuckStep(old(stuck[c]), now).0 else old(stuck[c]);
      }
      if isStuck {
        return if requested then FailDrop else FailUse;
      }
      verdict := Pass;
    }
  }

  // ---------------------------------------------------------------------------------------------
  // The gate that the entropy source asks
  // ---------------------------------------------------------------------------------------------

  lemma {:induction false} InputPerSample(history: seq<Sample>)
    ensures |Inputs(history)| == |history|
  {
    if history != [] {
      InputPerSample(history[..|history| - 1]);
    }
  }

  /** Without requested and enabled tests the gate is always open. */
  lemma UntestedGateIsOpen(t: Tester)
    ensures !t.requested || !t.enabled ==> t.StartupComplete()
  {
  }

  /** An open gate in front of enabled tests: at least 1025 time stamps, and no failure among the last 512. */
  lemma OpenGateIsEarned(t: Tester)
    requires t.Valid() && ValidCutoffs(t.cutoffs) && t.requested && t.enabled && t.StartupComplete()
    ensures |t.history| >= 1025 && |Inputs(t.history)| == |t.history|
    ensures forall k | |t.history| - 512 <= k < |t.history| :: !FailedAt(t.cutoffs, Inputs(t.history), k)
  {
    hide Run, FailedAt, Inputs;
    InputPerSample(t.history);
    StartupGate(t.cutoffs, Inputs(t.history));
  }

  /** If no test ever failed, the gate is open exactly from the 1025th time stamp on. */
  lemma CleanGateIsOpenFrom1025(t: Tester)
    requires t.Valid() && ValidCutoffs(t.cutoffs) && t.requested && t.enabled
    requires forall k | 0 <= k < |Inputs(t.history)| :: !FailedAt(t.cutoffs, Inputs(t.history), k)
    ensures t.StartupComplete() <==> |t.history| >= 1025
  {
    hide Run, FailedAt, Inputs;
    InputPerSample(t.history);
    GateOpensAt1025(t.cutoffs, Inputs(t.history));
  }

  /** After the last failure it is open exactly from the end of the rest of the window and of every further block on. */
  lemma GateAfterFailureExactly(t: Tester, before: seq<Input>, more: seq<Input>)
    requires t.Valid() && ValidCutoffs(t.cutoffs) && t.requested && t.enabled
    requires Inputs(t.history) == before + more && EndsInFailure(t.cutoffs, before) && CleanAfter(t.cutoffs, before, more)
    ensures var s := Run(t.cutoffs, before);
      t.StartupComplete() <==> |more| >= s.aptTrigger + 512 * (s.startupBlocks - 1)
  {
    hide Run, EndsInFailure, CleanAfter, Inputs;
    GateExactly(t.cutoffs, before, more);
  }
}
