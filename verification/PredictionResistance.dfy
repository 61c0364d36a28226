/**
 The prediction-resistance DRNG (lrng_drng_mgr.c:469-556): output is paid for with entropy collected for this
 instance. Any number of callers run lrng_drng_get, interleaved as the mutex allows: seeding and generating are one
 step, while the flag is cleared in a step of its own, after the mutex was released.
 */
module PredictionResistance {
  import opened Words
  import D = DrngManager

  /** LRNG_DRNG_MAX_REQSIZE and INT_MAX */
  const MAX_REQSIZE := 0x1000
  const INT_MAX := 0x7fff_ffff

  /** Where a caller is in the loop: before a round, or between generating and clearing the flag. */
  datatype Phase = Idle | Running(left: nat, processed: nat) | Clearing(left: nat, processed: nat)

  /** Entropy delivered to this DRNG, bytes produced by it, and rounds that began while another caller was Clearing. */
  datatype State = State(fully: bool, callers: seq<Phase>, collected: nat, produced: nat, overlaps: nat)

  /** A seeding: the entropy the sources delivered, the estimate it returns, and whether it made the DRNG fully seeded. */
  datatype Seeding = Seeding(delivered: nat, estimate: u32, full: bool)

  predicate SeedingOk(strength: nat, x: Seeding) {
    x.estimate <= x.delivered && (x.full ==> x.delivered >= strength)
  }

  /** What lrng_drng_seed_es_nolock does to an instance that is not fully seeded. */
  lemma SeedingIsSound(c: D.Config, n: nat, b: D.Book, script: D.Script, k: nat)
    requires D.ScriptOk(c, n, script) && c.Ok() && !b.core.fully
    ensures var s := D.AfterRounds(c, n, b, script, k);
      SeedingOk(c.strength, Seeding(D.DeliveredTotal(script, k), s.collected, s.book.core.fully))
  {
    D.SumsAreLowerBounds(c, n, b, script, k);
    D.FullySeededIsEarned(c, n, b, script, k);
  }

  datatype Event =
    | Enter(caller: nat, len: nat)
    | LockedOut(caller: nat)
    | Take(caller: nat, seeding: Seeding, ret: int)
    | Clear(caller: nat)
    | SeedWork(seeding: Seeding)
    | Unset

  /** Bytes asked from the DRNG in one round. */
  function Todo(strength: nat, fully: bool, left: nat, estimate: u32): (r: nat)
    ensures r <= left && 8 * r <= strength
    ensures !fully ==> 8 * r <= estimate
  {
    var size := Min(left, MAX_REQSIZE);
    Min(if fully then size else Min(size, estimate / 8), strength / 8)
  }

  predicate Enabled(strength: nat, s: State, e: Event) {
    match e
    case Enter(i, len) => i < |s.callers| && s.callers[i].Idle?
    case LockedOut(i) => i < |s.callers| && s.callers[i].Running? && !s.fully
    case Take(i, seeding, ret) =>
      && i < |s.callers| && s.callers[i].Running? && (!s.fully ==> SeedingOk(strength, seeding))
      && ret <= Todo(strength, s.fully, s.callers[i].left, seeding.estimate)
    case Clear(i) => i < |s.callers| && s.callers[i].Clearing?
    case SeedWork(seeding) => SeedingOk(strength, seeding)
    case Unset => true
  }

  predicate SomeClearing(callers: seq<Phase>) {
    exists i :: 0 <= i < |callers| && callers[i].Clearing?
  }

  /** The caller after its loop condition was tested. */
  function Looping(left: nat, processed: nat): Phase {
    if left == 0 then Idle else Running(left, processed)
  }

  function Next(strength: nat, s: State, e: Event): (r: State)
    requires Enabled(strength, s, e)
    ensures |r.callers| == |s.callers|
  {
    match e
    case Enter(i, len) => s.(callers := s.callers[i := Looping(Min(len, INT_MAX), 0)])
    case LockedOut(i) => s
    case Take(i, seeding, ret) =>
      var p := s.callers[i];
      var t := if s.fully then s else s.(fully := seeding.full, collected := s.collected + seeding.delivered);
      if (!s.fully && seeding.estimate == 0) || ret <= 0 then
        t.(callers := t.callers[i := Idle])
      else
        t.(callers := t.callers[i := Clearing(p.left - ret, p.processed + ret)],
           produced := t.produced + ret,
           overlaps := t.overlaps + if s.fully && SomeClearing(s.callers) then 1 else 0)
    case Clear(i) =>
      s.(fully := false, callers := s.callers[i := Looping(s.callers[i].left, s.callers[i].processed)])
    case SeedWork(seeding) => s.(fully := s.fully || seeding.full, collected := s.collected + seeding.delivered)
    case Unset => s.(fully := false)
  }

  predicate IsRun(strength: nat, s: State, events: seq<Event>)
    decreases |events|
  {
    events == [] || (Enabled(strength, s, events[0]) && IsRun(strength, Next(strength, s, events[0]), events[1..]))
  }

  function RunFrom(strength: nat, s: State, events: seq<Event>): State
    requires IsRun(strength, s, events)
    decreases |events|
  {
    if events == [] then s else RunFrom(strength, Next(strength, s, events[0]), events[1..])
  }

  function Boot(callers: nat): State {
    State(false, seq(callers, i => Idle), 0, 0, 0)
  }

  // ---------------------------------------------------------------------------------------------
  // Output is paid for
  // ---------------------------------------------------------------------------------------------

  /** A set flag that no caller is about to clear stands for entropy nobody has used. */
  predicate Paid(strength: nat, s: State) {
    8 * s.produced + (if s.fully && !SomeClearing(s.callers) then strength else 0) <= s.collected + strength * s.overlaps
  }

  lemma ClearingAfter(callers: seq<Phase>, i: nat, p: Phase)
    requires i < |callers|
    ensures p.Clearing? ==> SomeClearing(callers[i := p])
    ensures !callers[i].Clearing? && !p.Clearing? ==> SomeClearing(callers[i := p]) == SomeClearing(callers)
  {
    var after := callers[i := p];
    if p.Clearing? {
      assert after[i].Clearing?;
    } else if !callers[i].Clearing? {
      if SomeClearing(callers) {
        var j :| 0 <= j < |callers| && callers[j].Clearing?;
        assert after[j].Clearing?;
      }
      if SomeClearing(after) {
        var j :| 0 <= j < |after| && after[j].Clearing?;
        assert callers[j].Clearing?;
      }
    }
  }

  lemma StepIsPaid(strength: nat, s: State, e: Event)
    requires Enabled(strength, s, e) && Paid(strength, s)
    ensures Paid(strength, Next(strength, s, e))
  {
    hide SomeClearing, Todo;
    match e {
      case Enter(i, len) => ClearingAfter(s.callers, i, Looping(Min(len, INT_MAX), 0));
      case LockedOut(i) =>
      case Take(i, seeding, ret) =>
        ClearingAfter(s.callers, i, Idle);
        if ret > 0 {
          ClearingAfter(s.callers, i, Clearing(s.callers[i].left - ret, s.callers[i].processed + ret));
          assert strength * (s.overlaps + 1) == strength * s.overlaps + strength;
        }
      case Clear(i) =>
      case SeedWork(seeding) =>
      case Unset =>
    }
  }

  /** Entropy collected for the DRNG bounds its output; only rounds that overlap another caller's clearing are not covered. */
  lemma {:induction false} OutputIsPaidFor(strength: nat, s: State, events: seq<Event>)
    requires IsRun(strength, s, events) && Paid(strength, s)
    ensures Paid(strength, RunFrom(strength, s, events))
    decreases |events|
  {
    if events != [] {
      StepIsPaid(strength, s, events[0]);
      OutputIsPaidFor(strength, Next(strength, s, events[0]), events[1..]);
    }
  }

  /** From boot: 8 * bytes <= bits collected + strength * overlapping rounds. */
  lemma OutputFromBoot(strength: nat, callers: nat, events: seq<Event>)
    requires IsRun(strength, Boot(callers), events)
    ensures var s := RunFrom(strength, Boot(callers), events); 8 * s.produced <= s.collected + strength * s.overlaps
  {
    OutputIsPaidFor(strength, Boot(callers), events);
  }

  /** No caller starts a round while another one is between generating and clearing. */
  ghost predicate Undisturbed(strength: nat, s: State, events: seq<Event>)
    requires IsRun(strength, s, events)
    decreases |events|
  {
    events != [] ==>
      (events[0].Take? ==> !SomeClearing(s.callers)) && Undisturbed(strength, Next(strength, s, events[0]), events[1..])
  }

  lemma {:induction false} UndisturbedOverlaps(strength: nat, s: State, events: seq<Event>)
    requires IsRun(strength, s, events) && Undisturbed(strength, s, events)
    ensures RunFrom(strength, s, events).overlaps == s.overlaps
    decreases |events|
  {
    if events != [] {
      UndisturbedOverlaps(strength, Next(strength, s, events[0]), events[1..]);
    }
  }

  /** Prediction resistance proper: with rounds that do not overlap, output never exceeds the entropy collected. */
  lemma PredictionResistanceHolds(strength: nat, callers: nat, events: seq<Event>)
    requires IsRun(strength, Boot(callers), events) && Undisturbed(strength, Boot(callers), events)
    ensures var s := RunFrom(strength, Boot(callers), events); 8 * s.produced <= s.collected
  {
    OutputFromBoot(strength, callers, events);
    UndisturbedOverlaps(strength, Boot(callers), events);
  }

  /** A single caller is always undisturbed. */
  lemma {:induction false} SingleCallerIsUndisturbed(strength: nat, s: State, events: seq<Event>)
    requires IsRun(strength, s, events) && |s.callers| == 1
    ensures Undisturbed(strength, s, events)
    decreases |events|
  {
    if events != [] {
      SingleCallerIsUndisturbed(strength, Next(strength, s, events[0]), events[1..]);
    }
  }

  // ---------------------------------------------------------------------------------------------
  // How many callers prediction resistance bears
  // ---------------------------------------------------------------------------------------------

  /** The most bytes that one round produces. */
  function RoundBytes(strength: nat): nat {
    Min(MAX_REQSIZE, strength / 8)
  }

  /** Callers that are not about to clear the flag: each of them may still use it for one round. */
  function Free(callers: seq<Phase>): (r: nat)
    ensures r <= |callers|
  {
    if callers == [] then 0 else (if callers[0].Clearing? then 0 else 1) + Free(callers[1..])
  }

  lemma {:induction false} FreeUpdate(callers: seq<Phase>, i: nat, p: Phase)
    requires i < |callers|
    ensures Free(callers[i := p]) + (if callers[i].Clearing? then 0 else 1) == Free(callers) + if p.Clearing? then 0 else 1
  {
    if i == 0 {
      assert callers[0 := p][1..] == callers[1..];
    } else {
      assert callers[i := p][1..] == callers[1..][i - 1 := p];
      FreeUpdate(callers[1..], i - 1, p);
    }
  }

  /** A set flag is covered for one round of every free caller. */
  predicate Covered(strength: nat, s: State) {
    8 * s.produced + (if s.fully then 8 * RoundBytes(strength) * Free(s.callers) else 0) <= s.collected
  }

  lemma CoverRound(rate: nat, ret: nat, free: nat, callers: nat)
    requires ret <= rate && free <= callers
    ensures 8 * rate * free <= callers * 8 * rate
    ensures free > 0 ==> 8 * ret + 8 * rate * (free - 1) <= 8 * rate * free
  {
    MulOrder(8 * rate, free, callers);
    if free > 0 {
      assert 8 * rate * free == 8 * rate * (free - 1) + 8 * rate;
    }
  }

  lemma StepIsCovered(strength: nat, s: State, e: Event)
    requires Enabled(strength, s, e) && Covered(strength, s) && |s.callers| * 8 * RoundBytes(strength) <= strength
    ensures Covered(strength, Next(strength, s, e))
  {
    hide RoundBytes, Free, SomeClearing;
    match e {
      case Enter(i, len) => FreeUpdate(s.callers, i, Looping(Min(len, INT_MAX), 0));
      case LockedOut(i) =>
      case Take(i, seeding, ret) => TakeIsCovered(strength, s, i, seeding, ret);
      case Clear(i) =>
      case SeedWork(seeding) => CoverRound(RoundBytes(strength), 0, Free(s.callers), |s.callers|);
      case Unset =>
    }
  }

  lemma TakeIsCovered(strength: nat, s: State, i: nat, seeding: Seeding, ret: int)
    requires Enabled(strength, s, Take(i, seeding, ret))
    requires Covered(strength, s) && |s.callers| * 8 * RoundBytes(strength) <= strength
    ensures Covered(strength, Next(strength, s, Take(i, seeding, ret)))
  {
    assert ret <= RoundBytes(strength);
    hide RoundBytes, Free, SomeClearing, Todo;
    TodoBound(strength, s.fully, s.callers[i].left, seeding.estimate);
    FreeUpdate(s.callers, i, Idle);
    if ret > 0 {
      FreeUpdate(s.callers, i, Clearing(s.callers[i].left - ret, s.callers[i].processed + ret));
    }
    CoverRound(RoundBytes(strength), if ret > 0 then ret else 0, Free(s.callers), |s.callers|);
  }

  lemma {:induction false} OutputIsCovered(strength: nat, s: State, events: seq<Event>)
    requires IsRun(strength, s, events) && Covered(strength, s) && |s.callers| * 8 * RoundBytes(strength) <= strength
    ensures Covered(strength, RunFrom(strength, s, events))
    decreases |events|
  {
    hide Covered, RoundBytes;
    if events != [] {
      StepIsCovered(strength, s, events[0]);
      OutputIsCovered(strength, Next(strength, s, events[0]), events[1..]);
    }
  }

  /** Callers of which the first k have entered and the first j of those have generated a full round each. */
  function Crowd(strength: nat, callers: nat, k: nat, j: nat): (r: State)
    requires j <= k <= callers
    ensures |r.callers| == callers
  {
    var n := RoundBytes(strength);
    State(j > 0, seq(callers, i => if i < j then Clearing(0, n) else if i < k then Running(n, 0) else Idle),
          if j > 0 then strength else 0, n * j, if j > 0 then j - 1 else 0)
  }

  /** Caller j generates: the first one after a full seeding, the others on the flag that it has not cleared yet. */
  lemma CrowdTakes(strength: nat, callers: nat, j: nat) returns (e: Event)
    requires j < callers && RoundBytes(strength) > 0
    ensures var s := Crowd(strength, callers, callers, j);
      Enabled(strength, s, e) && Next(strength, s, e) == Crowd(strength, callers, callers, j + 1)
  {
    var s, n := Crowd(strength, callers, callers, j), RoundBytes(strength);
    e := Take(j, Seeding(strength, 8 * n, true), n);
    assert j > 0 ==> s.callers[0].Clearing?;
    assert Crowd(strength, callers, callers, j + 1).callers == s.callers[j := Clearing(0, n)];
    assert n * (j + 1) == n * j + n;
  }

  lemma CrowdEnters(strength: nat, callers: nat, k: nat)
    requires k < callers && RoundBytes(strength) > 0
    ensures var s, e := Crowd(strength, callers, k, 0), Enter(k, RoundBytes(strength));
      Enabled(strength, s, e) && Next(strength, s, e) == Crowd(strength, callers, k + 1, 0)
  {
    assert Crowd(strength, callers, k + 1, 0).callers
        == Crowd(strength, callers, k, 0).callers[k := Running(RoundBytes(strength), 0)];
  }

  /**
   All callers share one full seeding. With a strength in whole bytes that one round can produce, this attains the
   bound of OutputFromBoot for every number of overlapping rounds.
   */
  lemma BoundIsAttained(strength: nat, callers: nat) returns (events: seq<Event>)
    requires callers > 0 && RoundBytes(strength) > 0
    ensures IsRun(strength, Boot(callers), events)
    ensures var s := RunFrom(strength, Boot(callers), events);
      && s.overlaps == callers - 1 && s.collected == strength && s.produced == RoundBytes(strength) * callers
      && (strength == 8 * RoundBytes(strength) ==> 8 * s.produced == s.collected + strength * s.overlaps)
  {
    hide IsRun, RunFrom, Next, Enabled, Crowd, RoundBytes;
    events := [];
    NoStep(strength, Boot(callers));
    CrowdStarts(strength, callers);
    for k := 0 to callers
      invariant IsRun(strength, Boot(callers), events)
      invariant RunFrom(strength, Boot(callers), events) == Crowd(strength, callers, k, 0)
    {
      CrowdEnters(strength, callers, k);
      OneStep(strength, Crowd(strength, callers, k, 0), Enter(k, RoundBytes(strength)));
      Joined(strength, Boot(callers), events, [Enter(k, RoundBytes(strength))]);
      events := events + [Enter(k, RoundBytes(strength))];
    }
    for j := 0 to callers
      invariant IsRun(strength, Boot(callers), events)
      invariant RunFrom(strength, Boot(callers), events) == Crowd(strength, callers, callers, j)
    {
      var e := CrowdTakes(strength, callers, j);
      OneStep(strength, Crowd(strength, callers, callers, j), e);
      Joined(strength, Boot(callers), events, [e]);
      events := events + [e];
    }
    CrowdTotals(strength, callers);
  }

  lemma CrowdStarts(strength: nat, callers: nat)
    ensures Boot(callers) == Crowd(strength, callers, 0, 0)
  {
  }

  lemma CrowdTotals(strength: nat, callers: nat)
    requires callers > 0
    ensures var s, n := Crowd(strength, callers, callers, callers), RoundBytes(strength);
      && s.overlaps == callers - 1 && s.collected == strength && s.produced == n * callers
      && (strength == 8 * n ==> 8 * s.produced == s.collected + strength * s.overlaps)
  {
    hide RoundBytes;
    var n := RoundBytes(strength);
    assert 8 * (n * callers) == 8 * n * (callers - 1) + 8 * n;
  }

  lemma NoStep(strength: nat, s: State)
    ensures IsRun(strength, s, []) && RunFrom(strength, s, []) == s
  {
  }

  predicate PaidOutput(s: State) {
    8 * s.produced <= s.collected
  }

  /** Output never exceeds the entropy collected. */
  ghost predicate PredictionResistant(strength: nat, callers: nat) {
    forall events: seq<Event> | IsRun(strength, Boot(callers), events) :: PaidOutput(RunFrom(strength, Boot(callers), events))
  }

  /** Prediction resistance in all runs holds exactly if one full seeding pays for one round of every caller. */
  lemma PredictionResistanceExactly(strength: nat, callers: nat)
    ensures PredictionResistant(strength, callers) <==> callers * 8 * RoundBytes(strength) <= strength
  {
    hide IsRun, RunFrom, RoundBytes;
    if callers * 8 * RoundBytes(strength) <= strength {
      forall events: seq<Event> | IsRun(strength, Boot(callers), events)
        ensures PaidOutput(RunFrom(strength, Boot(callers), events))
      {
        OutputIsCovered(strength, Boot(callers), events);
      }
    } else {
      var events := BoundIsAttained(strength, callers);
      assert callers * 8 * RoundBytes(strength) == 8 * (RoundBytes(strength) * callers);
      assert !PaidOutput(RunFrom(strength, Boot(callers), events));
    }
  }

  /** lrng_security_strength is at most 256 bits: there, only a single caller is safe. */
  lemma OnlySingleCallersAreSafe(strength: nat, callers: nat)
    requires strength <= 8 * MAX_REQSIZE
    ensures PredictionResistant(strength, callers) <==> callers <= 1 || strength < 8
  {
    hide PredictionResistant;
    PredictionResistanceExactly(strength, callers);
    var n := RoundBytes(strength);
    assert n == strength / 8;
    if callers >= 2 {
      MulOrder(8 * n, 2, callers);
      assert callers * 8 * n == 8 * n * callers;
    }
  }

  /** In numbers: two callers that share one full seeding of 256 bits get 64 bytes. */
  lemma OverlapBreaksPredictionResistance()
    ensures exists events: seq<Event> ::
      && IsRun(256, Boot(2), events)
      && RunFrom(256, Boot(2), events).collected == 256
      && 8 * RunFrom(256, Boot(2), events).produced == 512
  {
    hide IsRun, RunFrom;
    var events := BoundIsAttained(256, 2);
    assert 8 * RunFrom(256, Boot(2), events).produced == 512;
  }

  lemma OneStep(strength: nat, s: State, e: Event)
    requires Enabled(strength, s, e)
    ensures IsRun(strength, s, [e]) && RunFrom(strength, s, [e]) == Next(strength, s, e)
  {
    assert [e][1..] == [];
  }

  lemma {:induction false} Joined(strength: nat, s: State, a: seq<Event>, b: seq<Event>)
    requires IsRun(strength, s, a) && IsRun(strength, RunFrom(strength, s, a), b)
    ensures IsRun(strength, s, a + b) && RunFrom(strength, s, a + b) == RunFrom(strength, RunFrom(strength, s, a), b)
    decreases |a|
  {
    if a == [] {
      assert a + b == b;
    } else {
      assert (a + b)[1..] == a[1..] + b;
      Joined(strength, Next(strength, s, a[0]), a[1..], b);
    }
  }

  /** A seeding that collects less than a byte of entropy makes the caller fail, after whatever it got before. */
  lemma FewBitsEndTheRequest(strength: nat, s: State, i: nat, seeding: Seeding, ret: int)
    requires Enabled(strength, s, Take(i, seeding, ret)) && !s.fully && seeding.estimate < 8
    ensures Next(strength, s, Take(i, seeding, ret)).callers[i] == Idle
    ensures Next(strength, s, Take(i, seeding, ret)).produced == s.produced
  {
  }

  /** What an event does to the flag of the DRNG. */
  function FullySignal(s: State, e: Event): Signal {
    match e
    case Take(_, seeding, _) => if !s.fully && seeding.full then Sets else Keeps
    case SeedWork(seeding) => if seeding.full then Sets else Keeps
    case Clear(_) => Clears
    case Unset => Clears
    case _ => Keeps
  }

  function FullySignals(strength: nat, s: State, events: seq<Event>): (r: seq<Signal>)
    requires IsRun(strength, s, events)
    ensures |r| == |events|
    decreases |events|
  {
    if events == [] then [] else [FullySignal(s, events[0])] + FullySignals(strength, Next(strength, s, events[0]), events[1..])
  }

  /** A caller finds the flag set exactly if some full seeding came after every clearing. */
  lemma {:induction false} FullyExactly(strength: nat, s: State, events: seq<Event>)
    requires IsRun(strength, s, events)
    ensures RunFrom(strength, s, events).fully <==> LastWins(s.fully, FullySignals(strength, s, events))
    decreases |events|
  {
    hide SomeClearing, Todo, LastWins;
    if events != [] {
      var next := Next(strength, s, events[0]);
      FullyExactly(strength, next, events[1..]);
      FirstSignal(s.fully, FullySignal(s, events[0]), FullySignals(strength, next, events[1..]));
    } else {
      NoSignals(s.fully);
    }
  }

  // ---------------------------------------------------------------------------------------------
  // The loop of one caller
  // ---------------------------------------------------------------------------------------------

  /** What one round meets: the pool lock, a seeding if one is needed, and what the DRNG returns for a request. */
  datatype Env = Env(locked: bool, seeding: Seeding, generate: nat -> int)

  ghost predicate EnvOk(strength: nat, env: Env) {
    SeedingOk(strength, env.seeding) && forall n: nat :: env.generate(n) <= n
  }

  /** The seeding is estimated at a byte or more, and the DRNG returns what it is asked for. */
  ghost predicate Generous(env: Env) {
    env.seeding.estimate >= 8 && forall n: nat :: env.generate(n) == n
  }

  datatype Outcome = Bytes(n: nat) | Fault

  class PrDrng {
    const strength: nat
    var fully: bool
    ghost var collected: nat
    ghost var produced: nat

    ghost function View(p: Phase): State
      reads this
    {
      State(fully, [p], collected, produced, 0)
    }

    constructor (strength: nat)
      ensures View(Idle) == Boot(1) && this.strength == strength
    {
      this.strength := strength;
      fully, collected, produced := false, 0, 0;
    }

    /** The part of a round under the mutex: seed if needed and generate. */
    method Round(round: Env, left: nat) returns (ret: int, stop: bool)
      requires EnvOk(strength, round)
      modifies this
      ensures stop == (!old(fully) && round.seeding.estimate == 0) && (stop ==> ret == 0)
      ensures !stop ==> ret == round.generate(Todo(strength, old(fully), left, round.seeding.estimate))
      ensures ret <= Todo(strength, old(fully), left, round.seeding.estimate)
      ensures fully == (old(fully) || round.seeding.full)
      ensures collected == old(collected) + if old(fully) then 0 else round.seeding.delivered
      ensures produced == old(produced) + if ret > 0 then ret else 0
      ensures 8 * (produced - old(produced)) <= collected - old(collected) + if old(fully) then strength else 0
    {
      var todo := Todo(strength, fully, left, round.seeding.estimate);
      if !fully {
        fully, collected := round.seeding.full, collected + round.seeding.delivered;
        if round.seeding.estimate == 0 {
          return 0, true;
        }
      }
      ret, stop := round.generate(todo), false;
      if ret > 0 {
        produced := produced + ret;
      }
    }

    /**
     lrng_drng_get for this instance and one caller. The pool lock must be free at some later round whenever it is
     not; `rounds` bounds that.
     */
    method Get(len: nat, env: nat -> Env, ghost rounds: nat) returns (out: Outcome, ghost events: seq<Event>)
      requires forall k: nat :: EnvOk(strength, env(k))
      requires forall k: nat :: k >= rounds ==> env(k).locked
      modifies this
      ensures IsRun(strength, old(View(Idle)), events) && RunFrom(strength, old(View(Idle)), events) == View(Idle)
      ensures out.Bytes? ==> out.n <= Min(len, INT_MAX) && out.n == produced - old(produced)
      ensures strength >= 8 && (forall k: nat :: Generous(env(k))) ==> out == Bytes(Min(len, 0x7fff_ffff))
      ensures 8 * (produced - old(produced)) <= collected - old(collected) + if old(fully) then strength else 0
    {
      hide IsRun, RunFrom, Enabled, Next, Todo, Generous, EnvOk, SeedingOk, Looping;
      var left: nat, processed: nat, k := Min(len, INT_MAX), 0, 0;
      ghost var start := View(Idle);
      events := [Enter(0, len)];
      EnterRuns(strength, start, len);
      while left > 0
        invariant left + processed == Min(len, INT_MAX) && processed == produced - old(produced) && k >= 0
        invariant IsRun(strength, start, events) && RunFrom(strength, start, events) == View(Looping(left, processed))
        invariant 8 * processed + (if fully then strength else 0) <= collected - old(collected) + if old(fully) then strength else 0
        decreases left, if k < rounds then rounds - k else 0
      {
        LoopingIs(left, processed);
        ghost var now := View(Running(left, processed));
        var round := env(k);
        k := k + 1;
        if !fully && !round.locked {
          continue;
        }
        EnvGives(strength, round);
        if strength >= 8 && Generous(round) {
          GenerousGives(strength, fully, left, round);
        }
        TodoBound(strength, fully, left, round.seeding.estimate);
        var ret, stop := Round(round, left);
        TakeRuns(strength, start, events, now, left, processed, round.seeding, ret);
        events := events + [Take(0, round.seeding, ret)];
        if stop {
          return Bytes(processed), events;
        }
        if ret <= 0 {
          return Fault, events;
        }
        left, processed := left - ret, processed + ret;
        ghost var unclear := View(Clearing(left, processed));
        fully := false;
        ClearRuns(strength, start, events, unclear, View(Looping(left, processed)));
        events := events + [Clear(0)];
      }
      LoopingIs(left, processed);
      out := Bytes(processed);
    }
  }

  lemma LoopingIs(left: nat, processed: nat)
    ensures Looping(left, processed) == if left == 0 then Idle else Running(left, processed)
  {
  }

  lemma EnvGives(strength: nat, env: Env)
    requires EnvOk(strength, env)
    ensures SeedingOk(strength, env.seeding)
  {
  }

  lemma GenerousGives(strength: nat, fully: bool, left: nat, env: Env)
    requires strength >= 8 && left > 0 && Generous(env)
    ensures env.seeding.estimate > 0 && env.generate(Todo(strength, fully, left, env.seeding.estimate)) > 0
  {
    var n := Todo(strength, fully, left, env.seeding.estimate);
    assert env.generate(n) == n;
  }

  /** A round asks for as much as the request, a page, the security strength and the collected entropy allow. */
  lemma TodoIsLargest(strength: nat, fully: bool, left: nat, estimate: u32, n: nat)
    ensures n <= left && n <= 4096 && 8 * n <= strength && (fully || 8 * n <= estimate)
      <==> n <= Todo(strength, fully, left, estimate)
  {
  }

  lemma TodoBound(strength: nat, fully: bool, left: nat, estimate: u32)
    ensures var r := Todo(strength, fully, left, estimate); r <= left && 8 * r <= strength && (!fully ==> 8 * r <= estimate)
  {
  }

  lemma EnterRuns(strength: nat, s: State, len: nat)
    requires s.callers == [Idle]
    ensures IsRun(strength, s, [Enter(0, len)])
    ensures RunFrom(strength, s, [Enter(0, len)]) == s.(callers := [Looping(Min(len, INT_MAX), 0)])
  {
    OneStep(strength, s, Enter(0, len));
  }

  lemma TakeRuns(strength: nat, start: State, events: seq<Event>, s: State, left: nat, processed: nat, seeding: Seeding, ret: int)
    requires IsRun(strength, start, events) && RunFrom(strength, start, events) == s
    requires s.callers == [Running(left, processed)] && (!s.fully ==> SeedingOk(strength, seeding))
    requires ret <= Todo(strength, s.fully, left, seeding.estimate)
    ensures IsRun(strength, start, events + [Take(0, seeding, ret)])
    ensures var t := if s.fully then s else s.(fully := seeding.full, collected := s.collected + seeding.delivered);
      RunFrom(strength, start, events + [Take(0, seeding, ret)])
      == if (!s.fully && seeding.estimate == 0) || ret <= 0 then t.(callers := [Idle])
         else t.(callers := [Clearing(left - ret, processed + ret)], produced := t.produced + ret)
  {
    OneStep(strength, s, Take(0, seeding, ret));
    Joined(strength, start, events, [Take(0, seeding, ret)]);
  }

  lemma ClearRuns(strength: nat, start: State, events: seq<Event>, s: State, t: State)
    requires IsRun(strength, start, events) && RunFrom(strength, start, events) == s
    requires |s.callers| == 1 && s.callers[0].Clearing?
    requires t == s.(fully := false, callers := [Looping(s.callers[0].left, s.callers[0].processed)])
    ensures IsRun(strength, start, events + [Clear(0)])
    ensures RunFrom(strength, start, events + [Clear(0)]) == t
  {
    OneStep(strength, s, Clear(0));
    Joined(strength, start, events, [Clear(0)]);
  }
}
