/**
 The seed levels of the whole LRNG (lrng_es_mgr.c:157-191, 276-404; lrng_drng_mgr.c:354-409, 578-608): minimally
 seeded, fully seeded, operational, all DRNGs seeded, and the threshold for the next seeding. Every operation is one
 atomic step; nodes are neither added nor switched.
 */
module SeedLevels {
  import opened Words
  import D = DrngManager

  /** LRNG_INIT_ENTROPY_BITS and LRNG_MIN_SEED_ENTROPY_BITS */
  const INIT_BITS := 32
  const MIN_BITS := 128

  /**
   Node 0 is the initial DRNG instance; `nodes` and `pr` are the fully_seeded flags of the DRNGs. `best` is the largest
   amount of entropy that lrng_init_ops was called with since the last reset.
   */
  datatype State = State(
    operational: bool, fully: bool, minimal: bool, allNodes: bool, threshold: u32,
    nodes: seq<bool>, pr: bool, best: nat)

  datatype Target = Node(i: nat) | Pr

  /** One round of a seeding: whether the DRNG becomes fully seeded, what was collected so far, what is available. */
  datatype Round = Round(full: bool, collected: seq<u32>, available: seq<u32>)

  datatype Op =
    | InitOps(available: seq<u32>)
    | SeedRound(target: Target, round: Round)
    | Unset(target: Target)
    | AllSeeded
    | Reset

  predicate HasTarget(s: State, t: Target) {
    t.Node? ==> t.i < |s.nodes|
  }

  predicate IsSeeded(s: State, t: Target)
    requires HasTarget(s, t)
  {
    match t
    case Node(i) => s.nodes[i]
    case Pr => s.pr
  }

  function SetSeeded(s: State, t: Target, b: bool): (r: State)
    requires HasTarget(s, t)
  {
    match t
    case Node(i) => s.(nodes := s.nodes[i := b])
    case Pr => s.(pr := b)
  }

  predicate EveryDrngSeeded(s: State) {
    s.pr && forall i :: 0 <= i < |s.nodes| ==> s.nodes[i]
  }

  predicate Enabled(s: State, op: Op) {
    match op
    case InitOps(_) => true
    case SeedRound(t, _) => HasTarget(s, t)
    case Unset(t) => HasTarget(s, t)
    case AllSeeded => EveryDrngSeeded(s)
    case Reset => true
  }

  /** requested_bits of lrng_init_ops */
  function NextThreshold(c: D.Config, s: State, available: seq<u32>): u32 {
    if c.ntg1 then Add(Wrap(Sum(available)), D.NTG1_BITS) else Wrap(D.Requested(c, s.allNodes))
  }

  /** lrng_init_ops with the given amount per source; `available` is what the sources hold at the time. */
  function AfterInitOps(c: D.Config, s: State, bits: seq<u32>, available: seq<u32>): State {
    var seedBits, next := Wrap(Sum(bits)), NextThreshold(c, s, available);
    var t := s.(best := if seedBits > s.best then seedBits else s.best);
    if s.operational then t
    else if s.fully then t.(operational := true, threshold := next)
    else if D.FullySeeded(c, s.allNodes, seedBits, bits) then
      t.(fully := true, operational := true, minimal := true, threshold := next)
    else if !s.minimal && seedBits >= MIN_BITS then t.(minimal := true, threshold := next)
    else if !s.minimal && seedBits >= INIT_BITS then t.(threshold := MIN_BITS)
    else t
  }

  function Next(c: D.Config, s: State, op: Op): (r: State)
    requires Enabled(s, op)
    ensures |r.nodes| == |s.nodes|
  {
    match op
    case InitOps(available) => AfterInitOps(c, s, available, available)
    case SeedRound(t, round) =>
      AfterInitOps(c, SetSeeded(s, t, IsSeeded(s, t) || round.full), round.collected, round.available)
    case Unset(t) =>
      var u := SetSeeded(s, t, false).(allNodes := false);
      if t == Node(0) && s.operational then u.(operational := false, fully := false) else u
    case AllSeeded => s.(allNodes := true)
    case Reset => State(false, false, false, false, INIT_BITS, seq(|s.nodes|, i => false), false, 0)
  }

  predicate IsRun(c: D.Config, s: State, ops: seq<Op>)
    decreases |ops|
  {
    ops == [] || (Enabled(s, ops[0]) && IsRun(c, Next(c, s, ops[0]), ops[1..]))
  }

  function RunFrom(c: D.Config, s: State, ops: seq<Op>): State
    requires IsRun(c, s, ops)
    decreases |ops|
  {
    if ops == [] then s else RunFrom(c, Next(c, s, ops[0]), ops[1..])
  }

  function Boot(nodes: nat): State {
    State(false, false, false, false, INIT_BITS, seq(nodes, i => false), false, 0)
  }

  // ---------------------------------------------------------------------------------------------
  // Invariants over all runs
  // ---------------------------------------------------------------------------------------------

  /** Fixed by the modes: no SP800-90C oversampling, no NTG.1 rule, and a hash of at least 128 bits. */
  predicate Plain(c: D.Config) {
    !c.ntg1 && !c.sp80090c && MIN_BITS <= c.strength
  }

  predicate LevelsAgree(s: State) {
    && (s.operational <==> s.fully)
    && (s.fully ==> s.minimal)
    && (s.allNodes ==> EveryDrngSeeded(s))
  }

  /** The level that the best seeding since the last reset stands for. */
  function LevelOf(c: D.Config, best: nat): int {
    if best < INIT_BITS then INIT_BITS else if best < MIN_BITS then MIN_BITS else c.strength
  }

  /** Outside NTG.1 mode the flag tells whether any seeding had 128 bits; in plain mode the threshold is the level. */
  predicate LevelsAreEarned(c: D.Config, s: State) {
    && (!c.ntg1 && MIN_BITS <= c.strength ==> (s.minimal <==> s.best >= MIN_BITS))
    && (!c.ntg1 && MIN_BITS <= c.strength ==> (s.fully ==> s.best >= c.strength))
    && (Plain(c) ==> s.threshold == LevelOf(c, s.best))
  }

  predicate Inv(c: D.Config, s: State) {
    LevelsAgree(s) && LevelsAreEarned(c, s)
  }

  lemma InitOpsKeepsInv(c: D.Config, s: State, bits: seq<u32>, available: seq<u32>)
    requires Inv(c, s)
    ensures Inv(c, AfterInitOps(c, s, bits, available))
  {
    hide Sum, D.Reaching;
  }

  lemma StepKeepsInv(c: D.Config, s: State, op: Op)
    requires Inv(c, s) && Enabled(s, op)
    ensures Inv(c, Next(c, s, op))
  {
    hide AfterInitOps;
    match op {
      case InitOps(available) => InitOpsKeepsInv(c, s, available, available);
      case SeedRound(t, round) =>
        InitOpsKeepsInv(c, SetSeeded(s, t, IsSeeded(s, t) || round.full), round.collected, round.available);
      case Unset(t) =>
      case AllSeeded =>
      case Reset =>
    }
  }

  /**
   In every run: operational means fully seeded, fully seeded implies minimally seeded, the flag for all nodes implies
   that every DRNG is fully seeded, and the levels are those of the best seeding since the last reset.
   */
  lemma {:induction false} LevelsHold(c: D.Config, s: State, ops: seq<Op>)
    requires Inv(c, s) && IsRun(c, s, ops)
    ensures Inv(c, RunFrom(c, s, ops))
    decreases |ops|
  {
    hide Inv, Next;
    if ops != [] {
      StepKeepsInv(c, s, ops[0]);
      LevelsHold(c, Next(c, s, ops[0]), ops[1..]);
    }
  }

  lemma LevelsStart(c: D.Config, nodes: nat)
    ensures Inv(c, Boot(nodes))
  {
  }

  predicate NoReset(ops: seq<Op>) {
    forall i :: 0 <= i < |ops| ==> !ops[i].Reset?
  }

  /** Between resets the minimal level stays and the threshold of a plain configuration never decreases. */
  lemma {:induction false} LevelsOnlyRise(c: D.Config, s: State, ops: seq<Op>)
    requires Inv(c, s) && IsRun(c, s, ops) && NoReset(ops)
    ensures s.minimal ==> RunFrom(c, s, ops).minimal
    ensures Plain(c) ==> s.threshold <= RunFrom(c, s, ops).threshold
    decreases |ops|
  {
    hide Inv, Next;
    if ops != [] {
      StepKeepsInv(c, s, ops[0]);
      StepRises(c, s, ops[0]);
      LevelsOnlyRise(c, Next(c, s, ops[0]), ops[1..]);
    }
  }

  lemma StepRises(c: D.Config, s: State, op: Op)
    requires Inv(c, s) && Enabled(s, op) && !op.Reset?
    ensures s.minimal ==> Next(c, s, op).minimal
    ensures Plain(c) ==> s.threshold <= Next(c, s, op).threshold
  {
    hide Sum, D.Reaching, D.FullySeeded;
    StepKeepsInv(c, s, op);
  }

  /** Only a reset, and taking back the initial DRNG, end the operational level. */
  predicate Falls(op: Op) {
    op.Reset? || op == Unset(Node(0))
  }

  /** Without those, an operational LRNG stays operational, and a fully seeded one fully seeded. */
  lemma {:induction false} LevelsStay(c: D.Config, s: State, ops: seq<Op>)
    requires IsRun(c, s, ops) && forall i :: 0 <= i < |ops| ==> !Falls(ops[i])
    ensures s.operational ==> RunFrom(c, s, ops).operational
    ensures s.fully ==> RunFrom(c, s, ops).fully
    decreases |ops|
  {
    hide Next;
    if ops != [] {
      StepStays(c, s, ops[0]);
      LevelsStay(c, Next(c, s, ops[0]), ops[1..]);
    }
  }

  lemma StepStays(c: D.Config, s: State, op: Op)
    requires Enabled(s, op) && !Falls(op)
    ensures s.operational ==> Next(c, s, op).operational
    ensures s.fully ==> Next(c, s, op).fully
  {
    hide D.FullySeeded, NextThreshold, Sum, Wrap;
  }

  // ---------------------------------------------------------------------------------------------
  // When exactly each flag is set
  // ---------------------------------------------------------------------------------------------

  datatype Flag = Operational | AllNodes | Seeded(target: Target)

  predicate HasFlag(s: State, f: Flag) {
    f.Seeded? ==> HasTarget(s, f.target)
  }

  predicate IsSet(s: State, f: Flag)
    requires HasFlag(s, f)
  {
    match f
    case Operational => s.operational
    case AllNodes => s.allNodes
    case Seeded(t) => IsSeeded(s, t)
  }

  /** What an operation does to a flag. */
  function FlagSignal(c: D.Config, s: State, op: Op, f: Flag): Signal {
    match f
    case Operational => if Raises(c, s, op) then Sets else if Falls(op) then Clears else Keeps
    case AllNodes => if op.AllSeeded? then Sets else if op.Unset? || op.Reset? then Clears else Keeps
    case Seeded(t) =>
      if op.SeedRound? && op.target == t && op.round.full then Sets
      else if op == Unset(t) || op.Reset? then Clears else Keeps
  }

  function FlagSignals(c: D.Config, s: State, ops: seq<Op>, f: Flag): (r: seq<Signal>)
    requires IsRun(c, s, ops)
    ensures |r| == |ops|
    decreases |ops|
  {
    if ops == [] then [] else [FlagSignal(c, s, ops[0], f)] + FlagSignals(c, Next(c, s, ops[0]), ops[1..], f)
  }

  lemma FlagStep(c: D.Config, s: State, op: Op, f: Flag)
    requires LevelsAgree(s) && Enabled(s, op) && HasFlag(s, f)
    ensures HasFlag(Next(c, s, op), f)
    ensures var x := FlagSignal(c, s, op, f); IsSet(Next(c, s, op), f) <==> x.Sets? || (IsSet(s, f) && x.Keeps?)
  {
    hide Next, Raises, LevelsAgree, Falls;
    match f {
      case Operational => OperationalStep(c, s, op);
      case AllNodes => AllNodesStep(c, s, op);
      case Seeded(t) => SeededStep(c, s, op, t);
    }
  }

  lemma SeededStep(c: D.Config, s: State, op: Op, t: Target)
    requires Enabled(s, op) && HasTarget(s, t)
    ensures IsSeeded(Next(c, s, op), t)
      <==> (op.SeedRound? && op.target == t && op.round.full) || (IsSeeded(s, t) && op != Unset(t) && !op.Reset?)
  {
    hide AfterInitOps, SetSeeded, IsSeeded;
    match op {
      case InitOps(available) =>
        InitOpsKeepsDrngs(c, s, available, available);
        SameDrngs(s, Next(c, s, op), t);
      case SeedRound(u, round) =>
        var seeded := SetSeeded(s, u, IsSeeded(s, u) || round.full);
        SetSeededAt(s, u, IsSeeded(s, u) || round.full, t);
        InitOpsKeepsDrngs(c, seeded, round.collected, round.available);
        SameDrngs(seeded, Next(c, s, op), t);
      case Unset(u) =>
        SetSeededAt(s, u, false, t);
        SameDrngs(SetSeeded(s, u, false), Next(c, s, op), t);
      case AllSeeded => SameDrngs(s, Next(c, s, op), t);
      case Reset => NoneSeeded(Next(c, s, op), t);
    }
  }

  lemma SetSeededAt(s: State, u: Target, b: bool, t: Target)
    requires HasTarget(s, u) && HasTarget(s, t)
    ensures HasTarget(SetSeeded(s, u, b), t)
    ensures IsSeeded(SetSeeded(s, u, b), t) <==> if u == t then b else IsSeeded(s, t)
  {
  }

  lemma SameDrngs(s: State, r: State, t: Target)
    requires HasTarget(s, t) && r.nodes == s.nodes && r.pr == s.pr
    ensures HasTarget(r, t) && (IsSeeded(r, t) <==> IsSeeded(s, t))
  {
  }

  lemma NoneSeeded(s: State, t: Target)
    requires HasTarget(s, t) && !s.pr && forall i :: 0 <= i < |s.nodes| ==> !s.nodes[i]
    ensures !IsSeeded(s, t)
  {
  }

  lemma AllNodesStep(c: D.Config, s: State, op: Op)
    requires Enabled(s, op)
    ensures Next(c, s, op).allNodes <==> op.AllSeeded? || (s.allNodes && !op.Unset? && !op.Reset?)
  {
    hide AfterInitOps;
    match op {
      case InitOps(available) => InitOpsKeepsDrngs(c, s, available, available);
      case SeedRound(t, round) =>
        InitOpsKeepsDrngs(c, SetSeeded(s, t, IsSeeded(s, t) || round.full), round.collected, round.available);
      case _ =>
    }
  }

  lemma InitOpsKeepsDrngs(c: D.Config, s: State, bits: seq<u32>, available: seq<u32>)
    ensures var r := AfterInitOps(c, s, bits, available); r.nodes == s.nodes && r.pr == s.pr && r.allNodes == s.allNodes
  {
    hide D.FullySeeded, Sum, Wrap, NextThreshold;
  }

  lemma OperationalStep(c: D.Config, s: State, op: Op)
    requires LevelsAgree(s) && Enabled(s, op)
    ensures Next(c, s, op).operational <==> Raises(c, s, op) || (s.operational && !Falls(op))
    ensures Falls(op) ==> !Raises(c, s, op)
  {
    hide D.FullySeeded, Sum, Wrap, AfterInitOps;
    match op {
      case InitOps(available) => InitOpsRaises(c, s, available, available);
      case SeedRound(t, round) =>
        InitOpsRaises(c, SetSeeded(s, t, IsSeeded(s, t) || round.full), round.collected, round.available);
      case _ =>
    }
  }

  /**
   In every run: the LRNG is operational exactly if some call raised the level and neither a reset nor taking back the
   initial DRNG came later; the flag for all nodes is set exactly if the worker found all DRNGs seeded and none was taken
   back or reset since; and a DRNG is fully seeded exactly if a round of its own seeding made it so, and it was not taken
   back or reset since.
   */
  lemma {:induction false} FlagsExactly(c: D.Config, s: State, ops: seq<Op>, f: Flag)
    requires Inv(c, s) && IsRun(c, s, ops) && HasFlag(s, f)
    ensures HasFlag(RunFrom(c, s, ops), f)
    ensures IsSet(RunFrom(c, s, ops), f) <==> LastWins(IsSet(s, f), FlagSignals(c, s, ops, f))
    decreases |ops|
  {
    hide Next, FlagSignal, LevelsAgree, LevelsAreEarned;
    if ops != [] {
      var next := Next(c, s, ops[0]);
      StepKeepsInv(c, s, ops[0]);
      FlagStep(c, s, ops[0], f);
      FlagsExactly(c, next, ops[1..], f);
      FirstSignal(IsSet(s, f), FlagSignal(c, s, ops[0], f), FlagSignals(c, next, ops[1..], f));
    }
  }

  /** The threshold that a call leaves when it raises the LRNG to the minimal or the operational level. */
  lemma ThresholdOfRaised(c: D.Config, s: State, bits: seq<u32>, available: seq<u32>)
    requires c.Ok() && Sum(available) + 240 < TWO32
    ensures var r := AfterInitOps(c, s, bits, available);
      (r.operational && !s.operational) || (r.minimal && !s.minimal) ==>
        r.threshold == if c.ntg1 then Sum(available) + 240 else if c.sp80090c && !s.allNodes then c.strength + 128 else c.strength
  {
    hide Sum, D.FullySeeded;
  }

  /** The levels of a configuration with 256 bits from boot: 31 bits nothing, 32 bits the next threshold, 128, and 256. */
  lemma LevelsByBits(bits: u32)
    requires bits <= 512
    ensures var s := Next(D.Config(256, false, false, true), Boot(1), InitOps([bits]));
      && (s.operational <==> bits >= 256) && (s.minimal <==> bits >= 128)
      && s.threshold == if bits < 32 then 32 else if bits < 128 then 128 else 256
  {
    assert [bits][1..] == [];
    assert Sum([bits]) == Sum([]) + bits;
  }

  // ---------------------------------------------------------------------------------------------
  // Whether an operational LRNG has a fully seeded initial DRNG
  // ---------------------------------------------------------------------------------------------

  /** What the comment in lrng_set_operational promises. */
  predicate Backed(s: State) {
    s.operational ==> |s.nodes| > 0 && s.nodes[0]
  }

  /** The operation takes the LRNG to the operational level: the guard of lrng_init_ops. */
  predicate Raises(c: D.Config, s: State, op: Op) {
    && !s.operational
    && match op
      case InitOps(available) => D.FullySeeded(c, s.allNodes, Wrap(Sum(available)), available)
      case SeedRound(_, round) => D.FullySeeded(c, s.allNodes, Wrap(Sum(round.collected)), round.collected)
      case _ => false
  }

  /** The operation makes the initial DRNG fully seeded: it is the one being seeded, and it takes the injection. */
  predicate SeedsInitial(op: Op) {
    op.SeedRound? && op.target == Node(0) && op.round.full
  }

  /** Not raising the level, finding the initial DRNG fully seeded, or making it so. */
  predicate Harmless(c: D.Config, s: State, op: Op) {
    Raises(c, s, op) ==> (|s.nodes| > 0 && s.nodes[0]) || SeedsInitial(op)
  }

  lemma StepIsBackedExactly(c: D.Config, s: State, op: Op)
    requires LevelsAgree(s) && Backed(s) && Enabled(s, op)
    ensures Backed(Next(c, s, op)) <==> Harmless(c, s, op)
  {
    hide D.FullySeeded, Sum, Wrap, AfterInitOps;
    match op {
      case InitOps(available) => InitOpsRaises(c, s, available, available);
      case SeedRound(t, round) =>
        InitOpsRaises(c, SetSeeded(s, t, IsSeeded(s, t) || round.full), round.collected, round.available);
      case _ =>
    }
  }

  lemma InitOpsRaises(c: D.Config, s: State, bits: seq<u32>, available: seq<u32>)
    requires s.operational <==> s.fully
    ensures var r := AfterInitOps(c, s, bits, available);
      && r.nodes == s.nodes
      && (r.operational <==> s.operational || D.FullySeeded(c, s.allNodes, Wrap(Sum(bits)), bits))
  {
    hide D.FullySeeded, Sum, Wrap, NextThreshold;
  }

  predicate AlwaysBacked(c: D.Config, s: State, ops: seq<Op>)
    requires IsRun(c, s, ops)
    decreases |ops|
  {
    Backed(s) && (ops != [] ==> AlwaysBacked(c, Next(c, s, ops[0]), ops[1..]))
  }

  predicate AllHarmless(c: D.Config, s: State, ops: seq<Op>)
    requires IsRun(c, s, ops)
    decreases |ops|
  {
    ops != [] ==> Harmless(c, s, ops[0]) && AllHarmless(c, Next(c, s, ops[0]), ops[1..])
  }

  /** In a run operational always implies a fully seeded initial DRNG if and only if every operation is harmless. */
  lemma {:induction false} OperationalIsBackedExactly(c: D.Config, s: State, ops: seq<Op>)
    requires Inv(c, s) && Backed(s) && IsRun(c, s, ops)
    ensures AlwaysBacked(c, s, ops) <==> AllHarmless(c, s, ops)
    decreases |ops|
  {
    hide Next, Harmless, Backed, LevelsAgree, LevelsAreEarned;
    if ops != [] {
      var next := Next(c, s, ops[0]);
      StepKeepsInv(c, s, ops[0]);
      StepIsBackedExactly(c, s, ops[0]);
      if Backed(next) {
        OperationalIsBackedExactly(c, next, ops[1..]);
      }
    }
  }

  /**
   A round of seeding the initial DRNG itself, as the seeding loop makes it: the DRNG becomes fully seeded if it takes
   the injection and the rule holds for it. Such a round does harm exactly if the DRNG refuses the injection that
   raises the level.
   */
  lemma SeedingInitialHarmsOnlyWhenRefused(c: D.Config, s: State, taken: bool, collected: seq<u32>, available: seq<u32>)
    requires Inv(c, s) && Backed(s) && |s.nodes| > 0 && !s.nodes[0]
    ensures var full := taken && D.FullySeeded(c, s.nodes[0], Wrap(Sum(collected)), collected);
      var op := SeedRound(Node(0), Round(full, collected, available));
      Harmless(c, s, op) <==> taken || !Raises(c, s, op)
  {
    hide D.FullySeeded, Sum;
  }

  /**
   Three inputs that do harm, all from boot: the prediction-resistance DRNG is seeded instead, the initial DRNG refuses
   the injection, and the level is taken from what the sources hold without any seeding.
   */
  lemma OperationalWithoutInitialDrng(c: D.Config)
    requires Plain(c) && c.Ok()
    ensures var s := Next(c, Boot(1), SeedRound(Pr, Round(true, [c.strength], [])));
      s.operational && s.pr && !s.nodes[0]
    ensures var s := Next(c, Boot(1), SeedRound(Node(0), Round(false, [c.strength], [])));
      s.operational && !s.pr && !s.nodes[0]
    ensures var s := Next(c, Boot(1), InitOps([c.strength]));
      s.operational && !s.pr && !s.nodes[0]
  {
    assert [c.strength][1..] == [];
    assert Sum([c.strength]) == Sum([]) + c.strength;
  }

  // ---------------------------------------------------------------------------------------------
  // The code
  // ---------------------------------------------------------------------------------------------

  class Manager {
    const c: D.Config
    var operational: bool
    var fully: bool
    var minimal: bool
    var allNodes: bool
    var threshold: u32
    const nodes: array<bool>
    var pr: bool
    ghost var best: nat

    ghost function View(): State
      reads this, nodes
    {
      State(operational, fully, minimal, allNodes, threshold, nodes[..], pr, best)
    }

    constructor (c: D.Config, nodes: nat)
      ensures View() == Boot(nodes) && this.c == c && fresh(this.nodes)
    {
      this.c := c;
      operational, fully, minimal, allNodes, threshold := false, false, false, false, INIT_BITS;
      this.nodes := new bool[nodes](i => false);
      pr, best := false, 0;
      new;
      assert this.nodes[..] == Boot(nodes).nodes;
    }

    /** lrng_init_ops: without a seed buffer, what the sources hold counts. */
    method InitOps(eb: seq<u32>, useEb: bool, available: seq<u32>)
      modifies this
      ensures View() == AfterInitOps(c, old(View()), if useEb then eb else available, available)
    {
      hide Sum, D.FullySeeded, D.Requested, Wrap, Add;
      var bits := if useEb then eb else available;
      var seedBits := Wrap(Sum(bits));
      best := if seedBits > best then seedBits else best;
      if operational {
        return;
      }
      var requested := if c.ntg1 then Add(Wrap(Sum(available)), D.NTG1_BITS) else Wrap(D.Requested(c, allNodes));
      if fully {
        operational := true;
        threshold := requested;
      } else if D.FullySeeded(c, allNodes, seedBits, bits) {
        fully := true;
        operational := true;
        minimal := true;
        threshold := requested;
      } else if !minimal {
        if seedBits >= MIN_BITS {
          minimal := true;
          threshold := requested;
        } else if seedBits >= INIT_BITS {
          threshold := MIN_BITS;
        }
      }
    }

    /** lrng_unset_fully_seeded */
    method UnsetFullySeeded(t: Target)
      requires HasTarget(View(), t)
      modifies this, nodes
      ensures View() == Next(c, old(View()), Unset(t))
    {
      match t {
        case Node(i) => nodes[i] := false;
        case Pr => pr := false;
      }
      allNodes := false;
      if t == Node(0) && operational {
        operational := false;
        fully := false;
      }
    }

    /** The rounds of seeding one DRNG. */
    method SeedOne(t: Target, rounds: seq<Round>)
      requires HasTarget(View(), t)
      modifies this, nodes
      ensures IsRun(c, old(View()), SeedOps(t, rounds)) && View() == RunFrom(c, old(View()), SeedOps(t, rounds))
    {
      hide AfterInitOps, Next, IsRun, RunFrom, Enabled;
      ghost var start := View();
      NoOps(c, start);
      for k := 0 to |rounds|
        invariant HasTarget(View(), t)
        invariant IsRun(c, start, SeedOps(t, rounds[..k])) && View() == RunFrom(c, start, SeedOps(t, rounds[..k]))
      {
        ghost var before := View();
        match t {
          case Node(i) => nodes[i] := nodes[i] || rounds[k].full;
          case Pr => pr := pr || rounds[k].full;
        }
        assert View() == SetSeeded(before, t, IsSeeded(before, t) || rounds[k].full);
        InitOps(rounds[k].collected, true, rounds[k].available);
        OneMoreRound(c, start, t, rounds, k, before);
      }
      assert rounds[..|rounds|] == rounds;
    }

    /** __lrng_drng_seed_work: the first DRNG that is not fully seeded, or the flag that all are. */
    method SeedWork(rounds: seq<Round>) returns (ghost ops: seq<Op>)
      modifies this, nodes
      ensures IsRun(c, old(View()), ops) && View() == RunFrom(c, old(View()), ops)
      ensures ops == [AllSeeded] <==> EveryDrngSeeded(old(View()))
    {
      hide IsRun, RunFrom, Next;
      for i := 0 to nodes.Length
        invariant View() == old(View())
        invariant forall j :: 0 <= j < i ==> nodes[j]
      {
        if !nodes[i] {
          SeedOne(Node(i), rounds);
          ops := SeedOps(Node(i), rounds);
          NotAllSeeded(Node(i), rounds);
          assert !old(View()).nodes[i];
          return;
        }
      }
      if !pr {
        SeedOne(Pr, rounds);
        ops := SeedOps(Pr, rounds);
        NotAllSeeded(Pr, rounds);
        return;
      }
      ghost var before := View();
      allNodes := true;
      ops := [AllSeeded];
      AllSeededRun(c, before);
    }

    /** _lrng_reset */
    method ResetAll()
      modifies this, nodes
      ensures View() == Next(c, old(View()), Reset)
    {
      for i := 0 to nodes.Length
        invariant forall j :: 0 <= j < i ==> !nodes[j]
      {
        nodes[i] := false;
      }
      pr := false;
      threshold := INIT_BITS;
      operational, fully, minimal, allNodes := false, false, false, false;
      best := 0;
      assert nodes[..] == seq(nodes.Length, i => false);
    }
  }

  function SeedOps(t: Target, rounds: seq<Round>): (r: seq<Op>)
    ensures |r| == |rounds|
  {
    seq(|rounds|, i requires 0 <= i < |rounds| => SeedRound(t, rounds[i]))
  }

  lemma NotAllSeeded(t: Target, rounds: seq<Round>)
    ensures SeedOps(t, rounds) != [AllSeeded]
  {
    if |rounds| == 1 {
      assert SeedOps(t, rounds)[0].SeedRound?;
    }
  }

  lemma NoOps(c: D.Config, s: State)
    ensures forall ops: seq<Op> :: ops == [] ==> IsRun(c, s, ops) && RunFrom(c, s, ops) == s
  {
  }

  lemma AllSeededRun(c: D.Config, s: State)
    requires EveryDrngSeeded(s)
    ensures IsRun(c, s, [AllSeeded]) && RunFrom(c, s, [AllSeeded]) == s.(allNodes := true)
  {
    assert [AllSeeded][1..] == [];
  }

  lemma {:induction false} RunOneMore(c: D.Config, s: State, ops: seq<Op>, op: Op)
    requires IsRun(c, s, ops) && Enabled(RunFrom(c, s, ops), op)
    ensures IsRun(c, s, ops + [op]) && RunFrom(c, s, ops + [op]) == Next(c, RunFrom(c, s, ops), op)
    decreases |ops|
  {
    hide Next, Enabled;
    if ops == [] {
      assert ([] + [op])[1..] == [];
    } else {
      assert (ops + [op])[1..] == ops[1..] + [op];
      RunOneMore(c, Next(c, s, ops[0]), ops[1..], op);
    }
  }

  lemma OneMoreRound(c: D.Config, start: State, t: Target, rounds: seq<Round>, k: nat, before: State)
    requires k < |rounds| && HasTarget(before, t)
    requires IsRun(c, start, SeedOps(t, rounds[..k])) && before == RunFrom(c, start, SeedOps(t, rounds[..k]))
    ensures IsRun(c, start, SeedOps(t, rounds[..k + 1]))
    ensures RunFrom(c, start, SeedOps(t, rounds[..k + 1]))
         == AfterInitOps(c, SetSeeded(before, t, IsSeeded(before, t) || rounds[k].full), rounds[k].collected, rounds[k].available)
  {
    hide IsRun, RunFrom, AfterInitOps;
    assert SeedOps(t, rounds[..k + 1]) == SeedOps(t, rounds[..k]) + [SeedRound(t, rounds[k])];
    RunOneMore(c, start, SeedOps(t, rounds[..k]), SeedRound(t, rounds[k]));
  }
}
