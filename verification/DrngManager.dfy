/**
 One DRNG instance of the DRNG manager (lrng_drng_mgr.c): the request counters that decide when it reseeds, the
 injection of seed data, and the loop that collects entropy until the instance is fully seeded.
 */
module DrngManager {
  import opened Words

  /** LRNG_DRNG_RESEED_THRESH */
  const THRESH: int := 0x10_0000

  /** The counters and flags of struct lrng_drng. */
  datatype Core = Core(requests: u32, since: u32, fully: bool, force: bool)

  /** Beside the counters: the rounds counted since the last full seeding or reset, and which of the two that was. */
  datatype Book = Book(core: Core, rounds: nat, afterReset: bool)

  // ---------------------------------------------------------------------------------------------
  // Steps
  // ---------------------------------------------------------------------------------------------

  function ResetBook(b: Book): Book {
    Book(Core(1, 0, false, false), 0, true)
  }

  /** lrng_drng_inject: the seed function of the DRNG succeeds or not. */
  function Injected(b: Book, full: bool, ok: bool): Book {
    if !ok then b.(core := b.core.(force := true))
    else
      var since := if full then 0 else Wrap(b.core.since + (THRESH - b.core.requests));
      Book(Core(THRESH, since, b.core.fully || full, false), if full then 0 else b.rounds, !full && b.afterReset)
  }

  /** One seed injection: whether it counts as full seeding, and whether the DRNG took it. */
  datatype Injection = Injection(full: bool, ok: bool)

  function InjectAll(b: Book, injections: seq<Injection>): Book
    decreases |injections|
  {
    if injections == [] then b
    else
      var last := injections[|injections| - 1];
      Injected(InjectAll(b, injections[..|injections| - 1]), last.full, last.ok)
  }

  /** The decrement at the start of every round. */
  function Ticked(b: Book): Book {
    b.(core := b.core.(requests := Sub(b.core.requests, 1)), rounds := b.rounds + 1)
  }

  /** The test of lrng_drng_must_reseed after its decrement. */
  predicate MustReseed(b: Book, expired: bool) {
    b.core.requests == 0 || b.core.force || expired
  }

  datatype Event =
    | Round(expired: bool, locked: bool, injections: seq<Injection>)
    | SeedWork(force: bool, injections: seq<Injection>)
    | ForceReseed
    | UnsetFullySeeded
    | Reset

  /** A seeding injects at least once. */
  predicate EventOk(e: Event) {
    e.Round? || e.SeedWork? ==> e.injections != []
  }

  function Next(b: Book, e: Event): Book {
    match e
    case Round(expired, locked, injections) =>
      var t := Ticked(b);
      if !MustReseed(t, expired) then t
      else if !locked then t.(core := t.core.(force := true))
      else InjectAll(t, injections)
    case SeedWork(force, injections) => InjectAll(b.(core := b.core.(force := b.core.force || force)), injections)
    case ForceReseed => b.(core := b.core.(force := b.core.fully))
    case UnsetFullySeeded => b.(core := b.core.(fully := false))
    case Reset => ResetBook(b)
  }

  function RunFrom(b: Book, events: seq<Event>): Book
    decreases |events|
  {
    if events == [] then b else RunFrom(Next(b, events[0]), events[1..])
  }

  /** The static initialiser, and what lrng_drng_alloc_common makes of it. */
  const INITIAL: Book := Book(Core(THRESH, 0, false, true), 0, false)

  // ---------------------------------------------------------------------------------------------
  // Bookkeeping over all runs
  // ---------------------------------------------------------------------------------------------

  /** The counters hold the rounds since the last full seeding or reset, mod 2^32; a reset adds THRESH - 1. */
  predicate CountersAgree(b: Book) {
    Wrap(b.core.since + (THRESH - b.core.requests)) == Wrap(b.rounds + if b.afterReset then THRESH - 1 else 0)
  }

  /** A fully seeded instance has requests left, or its reseed is pending. */
  predicate ReseedIsDue(b: Book) {
    && (b.core.fully ==> !b.afterReset)
    && (b.core.fully ==> b.core.force || 1 <= b.core.requests <= THRESH)
  }

  predicate Inv(b: Book) {
    CountersAgree(b) && ReseedIsDue(b)
  }

  lemma WrapShift(a: int, b: int, d: int)
    requires Wrap(a) == Wrap(b)
    ensures Wrap(a + d) == Wrap(b + d)
  {
    WrapOfWrap(a, d);
    WrapOfWrap(b, d);
  }

  lemma TickAgrees(b: Book)
    requires CountersAgree(b)
    ensures CountersAgree(Ticked(b))
  {
    var offset := if b.afterReset then THRESH - 1 else 0;
    var sum := b.core.since + (THRESH - b.core.requests);
    assert Wrap(sum + 1) == Wrap(b.rounds + 1 + offset) by {
      WrapShift(sum, b.rounds + offset, 1);
    }
    var r := Sub(b.core.requests, 1);
    assert Wrap(b.core.since + (THRESH - r)) == Wrap(sum + 1) by {
      if b.core.requests == 0 {
        assert r == TWO32 - 1;
        WrapBack(sum + 1);
      }
    }
  }

  lemma WrapBack(a: int)
    ensures Wrap(a - TWO32) == Wrap(a)
  {
  }

  lemma InjectionAgrees(b: Book, full: bool, ok: bool)
    requires CountersAgree(b)
    ensures CountersAgree(Injected(b, full, ok))
  {
    WrapOfWrap(b.core.since + (THRESH - b.core.requests), 0);
  }

  lemma {:induction false} InjectionsAgree(b: Book, injections: seq<Injection>)
    requires CountersAgree(b)
    ensures CountersAgree(InjectAll(b, injections))
    decreases |injections|
  {
    hide CountersAgree, Injected;
    if injections != [] {
      var last := injections[|injections| - 1];
      InjectionsAgree(b, injections[..|injections| - 1]);
      InjectionAgrees(InjectAll(b, injections[..|injections| - 1]), last.full, last.ok);
    }
  }

  /** After a seeding the counter is full, or the failed injection has left a reseed pending. */
  lemma SeedingIsDue(b: Book, injections: seq<Injection>)
    requires injections != []
    requires b.core.fully ==> !b.afterReset
    ensures ReseedIsDue(InjectAll(b, injections))
  {
    SeedingClearsReset(b, injections[..|injections| - 1]);
  }

  lemma {:induction false} SeedingClearsReset(b: Book, injections: seq<Injection>)
    requires b.core.fully ==> !b.afterReset
    ensures var a := InjectAll(b, injections); a.core.fully ==> !a.afterReset
    decreases |injections|
  {
    if injections != [] {
      SeedingClearsReset(b, injections[..|injections| - 1]);
    }
  }

  lemma NextKeepsInv(b: Book, e: Event)
    requires Inv(b) && EventOk(e)
    ensures Inv(Next(b, e))
  {
    hide CountersAgree, InjectAll;
    TickAgrees(b);
    match e {
      case Round(expired, locked, injections) =>
        var t := Ticked(b);
        if MustReseed(t, expired) {
          FlagsAgree(t, t.core.fully, true);
          InjectionsAgree(t, injections);
          SeedingIsDue(t, injections);
        }
      case SeedWork(force, injections) =>
        var f := b.(core := b.core.(force := b.core.force || force));
        FlagsAgree(b, b.core.fully, b.core.force || force);
        InjectionsAgree(f, injections);
        SeedingIsDue(f, injections);
      case ForceReseed => FlagsAgree(b, b.core.fully, b.core.fully);
      case UnsetFullySeeded => FlagsAgree(b, false, b.core.force);
      case Reset => ResetAgrees(b);
    }
  }

  lemma FlagsAgree(b: Book, fully: bool, force: bool)
    requires CountersAgree(b)
    ensures CountersAgree(b.(core := b.core.(fully := fully)))
    ensures CountersAgree(b.(core := b.core.(force := force)))
  {
  }

  lemma ResetAgrees(b: Book)
    ensures CountersAgree(ResetBook(b))
  {
  }

  /**
   In every run the counters account for every round since the last full seeding or reset, and a fully seeded
   instance never runs out of requests without a pending reseed, whatever injections fail and whenever the pool
   is locked.
   */
  lemma {:induction false} BookkeepingHolds(b: Book, events: seq<Event>)
    requires Inv(b) && forall i :: 0 <= i < |events| ==> EventOk(events[i])
    ensures Inv(RunFrom(b, events))
    decreases |events|
  {
    if events != [] {
      NextKeepsInv(b, events[0]);
      BookkeepingHolds(Next(b, events[0]), events[1..]);
    }
  }

  lemma BookkeepingStarts()
    ensures Inv(INITIAL) && Inv(ResetBook(INITIAL))
  {
  }

  /**
   The check at the start of lrng_drng_get does what it is for: an instance that is still fully seeded after it,
   with no reseed pending, has made at most limit + THRESH - 1 rounds since its last full seeding (unless 2^32
   rounds went by).
   */
  lemma CheckLimitsRounds(b: Book, limit: u32)
    requires Inv(b) && b.core.fully && !b.core.force && b.core.since <= limit
    requires b.rounds < TWO32 && b.core.since + THRESH <= TWO32
    ensures b.rounds == b.core.since + THRESH - b.core.requests <= limit + THRESH - 1
  {
  }

  /** Without a pending reseed, rounds that do not expire only count down. */
  lemma {:induction false} QuietRounds(b: Book, events: seq<Event>)
    requires !b.core.force && |events| < b.core.requests <= THRESH
    requires forall i :: 0 <= i < |events| ==> events[i].Round? && !events[i].expired
    ensures RunFrom(b, events) == b.(core := b.core.(requests := b.core.requests - |events|), rounds := b.rounds + |events|)
    decreases |events|
  {
    if events != [] {
      QuietRounds(Next(b, events[0]), events[1..]);
    }
  }

  /** Rounds that neither expire nor find a pending reseed: the counter alone decides, after exactly `requests` of them. */
  lemma AttemptComesAtThreshold(b: Book, n: nat, events: seq<Event>)
    requires !b.core.force && 1 <= b.core.requests <= THRESH && n == b.core.requests - 1 && |events| == n
    requires forall i :: 0 <= i < n ==> events[i].Round? && !events[i].expired
    ensures RunFrom(b, events) == b.(core := b.core.(requests := 1), rounds := b.rounds + n)
    ensures forall k :: 0 <= k < n ==> !Attempts(RunFrom(b, events[..k]), events[k])
    ensures MustReseed(Ticked(RunFrom(b, events)), false)
  {
    QuietRounds(b, events);
    forall k | 0 <= k < n
      ensures !Attempts(RunFrom(b, events[..k]), events[k])
    {
      QuietRounds(b, events[..k]);
    }
  }

  // ---------------------------------------------------------------------------------------------
  // What a seeding settles, and what leaves a reseed pending
  // ---------------------------------------------------------------------------------------------

  /** The round finds that a reseed is due. */
  predicate Attempts(b: Book, e: Event) {
    e.Round? && MustReseed(Ticked(b), e.expired)
  }

  /** The event injects seed data. */
  predicate Seeds(b: Book, e: Event) {
    e.SeedWork? || (Attempts(b, e) && e.locked)
  }

  predicate LastTaken(injections: seq<Injection>) {
    injections != [] && injections[|injections| - 1].ok
  }

  /** The last injection of a seeding decides: a taken one fills the request counter and settles the pending reseed. */
  lemma LastInjectionDecides(b: Book, injections: seq<Injection>)
    requires injections != []
    ensures InjectAll(b, injections).core.force <==> !LastTaken(injections)
    ensures LastTaken(injections) ==> InjectAll(b, injections).core.requests == 0x10_0000
  {
  }

  /** The instance is fully seeded afterwards exactly if it was, or took an injection that counts as full. */
  lemma {:induction false} FullInjectionDecides(b: Book, injections: seq<Injection>)
    ensures InjectAll(b, injections).core.fully
      <==> b.core.fully || exists i :: 0 <= i < |injections| && injections[i].full && injections[i].ok
    decreases |injections|
  {
    if injections != [] {
      var front, last := injections[..|injections| - 1], injections[|injections| - 1];
      FullInjectionDecides(b, front);
      if exists i :: 0 <= i < |injections| && injections[i].full && injections[i].ok {
        var i :| 0 <= i < |injections| && injections[i].full && injections[i].ok;
        if i < |front| {
          assert front[i].full && front[i].ok;
        }
      }
    }
  }

  /**
   Whatever the counters and flags were before, a seeding whose last injection was taken lasts: of the rounds after it
   that do not expire, the next 2^20 - 1 attempt no reseed, and the one after them does.
   */
  lemma SeedingLasts(b: Book, e: Event, events: seq<Event>)
    requires Seeds(b, e) && LastTaken(e.injections) && |events| == 0xf_ffff
    requires forall i :: 0 <= i < |events| ==> events[i].Round? && !events[i].expired
    ensures forall k :: 0 <= k < |events| ==> !Attempts(RunFrom(Next(b, e), events[..k]), events[k])
    ensures forall next: Event :: next.Round? ==> Attempts(RunFrom(Next(b, e), events), next)
  {
    var start := if e.Round? then Ticked(b) else b.(core := b.core.(force := b.core.force || e.force));
    LastInjectionDecides(start, e.injections);
    hide InjectAll, RunFrom;
    assert Next(b, e) == InjectAll(start, e.injections);
    AttemptComesAtThreshold(Next(b, e), |events|, events);
  }

  /** A reset leaves no reseed pending, but the next round attempts one. */
  lemma ResetReseedsNext(b: Book, next: Event)
    requires next.Round?
    ensures Attempts(Next(b, Reset), next) && !Next(b, Reset).core.force
  {
  }

  /** What an event does to the pending reseed. */
  function ForceSignal(b: Book, e: Event): Signal {
    match e
    case Round(_, locked, injections) =>
      if !Attempts(b, e) then Keeps else if locked && LastTaken(injections) then Clears else Sets
    case SeedWork(_, injections) => if LastTaken(injections) then Clears else Sets
    case ForceReseed => if b.core.fully then Sets else Clears
    case UnsetFullySeeded => Keeps
    case Reset => Clears
  }

  /** What an event does to the instance being fully seeded. */
  function FullySignal(b: Book, e: Event): Signal {
    match e
    case UnsetFullySeeded => Clears
    case Reset => Clears
    case ForceReseed => Keeps
    case _ => if Seeds(b, e) && (exists i :: 0 <= i < |e.injections| && e.injections[i].full && e.injections[i].ok) then Sets else Keeps
  }

  lemma FlagsStep(b: Book, e: Event)
    requires EventOk(e)
    ensures Next(b, e).core.force <==> ForceSignal(b, e).Sets? || (b.core.force && ForceSignal(b, e).Keeps?)
    ensures Next(b, e).core.fully <==> FullySignal(b, e).Sets? || (b.core.fully && FullySignal(b, e).Keeps?)
  {
    if Seeds(b, e) {
      var start := if e.Round? then Ticked(b) else b.(core := b.core.(force := b.core.force || e.force));
      LastInjectionDecides(start, e.injections);
      FullInjectionDecides(start, e.injections);
      hide InjectAll;
      assert Next(b, e) == InjectAll(start, e.injections);
    }
  }

  function ForceSignals(b: Book, events: seq<Event>): (r: seq<Signal>)
    ensures |r| == |events|
    decreases |events|
  {
    if events == [] then [] else [ForceSignal(b, events[0])] + ForceSignals(Next(b, events[0]), events[1..])
  }

  function FullySignals(b: Book, events: seq<Event>): (r: seq<Signal>)
    ensures |r| == |events|
    decreases |events|
  {
    if events == [] then [] else [FullySignal(b, events[0])] + FullySignals(Next(b, events[0]), events[1..])
  }

  /**
   In every run a reseed is pending exactly if the last event that concerns it left it so: a refused injection, a pool
   that was locked or a forced reseed of a fully seeded instance, and since then no taken injection, no reset and no
   forced reseed of an instance that is not fully seeded. Likewise the instance is fully seeded exactly if it took a full
   injection, and has not been reset or unset since.
   */
  lemma {:induction false} FlagsExactly(b: Book, events: seq<Event>)
    requires forall i :: 0 <= i < |events| ==> EventOk(events[i])
    ensures RunFrom(b, events).core.force <==> LastWins(b.core.force, ForceSignals(b, events))
    ensures RunFrom(b, events).core.fully <==> LastWins(b.core.fully, FullySignals(b, events))
    decreases |events|
  {
    hide ForceSignal, FullySignal, Next;
    if events != [] {
      var next, rest := Next(b, events[0]), events[1..];
      FlagsStep(b, events[0]);
      FlagsExactly(next, rest);
      FirstSignal(b.core.force, ForceSignal(b, events[0]), ForceSignals(next, rest));
      FirstSignal(b.core.fully, FullySignal(b, events[0]), FullySignals(next, rest));
    }
  }

  // ---------------------------------------------------------------------------------------------
  // Collecting entropy
  // ---------------------------------------------------------------------------------------------

  /** LRNG_AIS2031_NPTRNG_MIN_ENTROPY and the extra bits for the initial seeding (LRNG_SEED_BUFFER_INIT_ADD_BITS) */
  const NTG1_BITS := 240
  const INIT_ADD_BITS := 128
  /** LRNG_DRNG_INIT_SEED_SIZE_BITS: the room for one source in the seed buffer */
  const SOURCE_BITS := 384
  /** lrng_ext_es_last is at most this. */
  const MAX_SOURCES := 6

  /** Security strength, SP800-90C mode, NTG.1 mode and the switch for emergency seeding. */
  datatype Config = Config(strength: u32, sp80090c: bool, ntg1: bool, forceSeeding: bool) {
    predicate Ok() {
      strength <= SOURCE_BITS - INIT_ADD_BITS
    }
  }

  /** lrng_get_seed_entropy_osr */
  function Requested(c: Config, fully: bool): int {
    c.strength + if c.sp80090c && !fully then INIT_ADD_BITS else 0
  }

  /** Number of sources with at least the given entropy. */
  function Reaching(bits: seq<u32>, least: u32): (r: nat)
    ensures r <= |bits|
  {
    if bits == [] then 0
    else Reaching(bits[..|bits| - 1], least) + if bits[|bits| - 1] >= least then 1 else 0
  }

  /** lrng_fully_seeded, for a seed buffer */
  predicate FullySeeded(c: Config, fully: bool, collected: u32, bits: seq<u32>) {
    if !fully && c.ntg1 then Reaching(bits, NTG1_BITS) >= 2 else collected >= Requested(c, fully)
  }

  /** What the sources put into the seed buffer in one round, and whether the DRNG takes it. */
  datatype Delivery = Delivery(bits: seq<u32>, taken: bool)

  predicate DeliveryOk(c: Config, n: nat, d: Delivery) {
    |d.bits| == n <= MAX_SOURCES && forall i :: 0 <= i < n ==> d.bits[i] <= SOURCE_BITS
  }

  datatype Seeding = Seeding(book: Book, collected: u32, bits: seq<u32>, delivered: nat)

  function AddBits(a: seq<u32>, b: seq<u32>): (r: seq<u32>)
    requires |a| == |b|
    ensures |r| == |a|
  {
    seq(|a|, i requires 0 <= i < |a| => Add(a[i], b[i]))
  }

  function Zeros(n: nat): (r: seq<u32>)
    ensures |r| == n
  {
    seq(n, i => 0)
  }

  function SeedRound(c: Config, s: Seeding, d: Delivery): (r: Seeding)
    requires |s.bits| == |d.bits|
    ensures |r.bits| == |s.bits|
  {
    var collected := Add(s.collected, Wrap(Sum(d.bits)));
    var bits := AddBits(s.bits, d.bits);
    var full := FullySeeded(c, s.book.core.fully, collected, bits);
    Seeding(Injected(s.book, full, d.taken), collected, bits, Reaching(d.bits, 1))
  }

  type Script = nat -> Delivery

  ghost predicate ScriptOk(c: Config, n: nat, script: Script) {
    forall k: nat :: DeliveryOk(c, n, script(k))
  }

  function AfterRounds(c: Config, n: nat, b: Book, script: Script, k: nat): (r: Seeding)
    requires ScriptOk(c, n, script)
    ensures |r.bits| == n
  {
    if k == 0 then Seeding(b, 0, Zeros(n), 0) else SeedRound(c, AfterRounds(c, n, b, script, k - 1), script(k - 1))
  }

  function Needed(c: Config): nat {
    if c.ntg1 then 2 else 1
  }

  /** The condition at the end of the loop. */
  predicate Again(c: Config, forced: bool, fully: bool, delivered: nat) {
    c.forceSeeding && forced && !fully && delivered >= Needed(c)
  }

  /** The loop condition is false after k rounds. */
  ghost predicate StopsAt(c: Config, n: nat, b: Book, script: Script, k: nat)
    requires ScriptOk(c, n, script)
  {
    var s := AfterRounds(c, n, b, script, k);
    1 <= k && !Again(c, b.core.force, s.book.core.fully, s.delivered)
  }

  /** Where the loop ends. */
  ghost predicate EndsAt(c: Config, n: nat, b: Book, script: Script, k: nat)
    requires ScriptOk(c, n, script)
  {
    StopsAt(c, n, b, script, k) && forall j :: 1 <= j < k ==> !StopsAt(c, n, b, script, j)
  }

  /** The loop has gone on after each of the first k rounds. */
  ghost predicate Running(c: Config, n: nat, b: Book, script: Script, k: nat)
    requires ScriptOk(c, n, script)
  {
    forall j :: 1 <= j <= k ==> !StopsAt(c, n, b, script, j)
  }

  lemma RunningStarts(c: Config, n: nat, b: Book, script: Script)
    requires ScriptOk(c, n, script)
    ensures Running(c, n, b, script, 0)
    ensures AfterRounds(c, n, b, script, 0) == Seeding(b, 0, Zeros(n), 0)
  {
  }

  lemma RunningGoesOn(c: Config, n: nat, b: Book, script: Script, k: nat)
    requires ScriptOk(c, n, script) && Running(c, n, b, script, k)
    ensures AfterRounds(c, n, b, script, k + 1) == SeedRound(c, AfterRounds(c, n, b, script, k), script(k))
    ensures var s := AfterRounds(c, n, b, script, k + 1);
      if Again(c, b.core.force, s.book.core.fully, s.delivered) then Running(c, n, b, script, k + 1)
      else EndsAt(c, n, b, script, k + 1)
  {
    hide Again, SeedRound;
  }

  lemma RunningIsShort(c: Config, n: nat, b: Book, script: Script, k: nat, stop: nat)
    requires ScriptOk(c, n, script) && Running(c, n, b, script, k) && StopsAt(c, n, b, script, stop)
    ensures k < stop
  {
    hide Again, AfterRounds;
  }

  lemma EndsInTime(c: Config, n: nat, b: Book, script: Script, k: nat, stop: nat)
    requires ScriptOk(c, n, script) && EndsAt(c, n, b, script, k) && StopsAt(c, n, b, script, stop)
    ensures 1 <= k <= stop
  {
    hide Again, AfterRounds;
  }

  /** The injections of the first k rounds. */
  function InjectionsOf(c: Config, n: nat, b: Book, script: Script, k: nat): (r: seq<Injection>)
    requires ScriptOk(c, n, script)
    ensures |r| == k
  {
    if k == 0 then []
    else
      var s := AfterRounds(c, n, b, script, k);
      var full := FullySeeded(c, AfterRounds(c, n, b, script, k - 1).book.core.fully, s.collected, s.bits);
      InjectionsOf(c, n, b, script, k - 1) + [Injection(full, script(k - 1).taken)]
  }

  lemma DeliveryLength(c: Config, n: nat, script: Script, k: nat)
    requires ScriptOk(c, n, script)
    ensures |script(k).bits| == n
  {
  }

  class Drng {
    var requests: u32
    var since: u32
    var fully: bool
    var force: bool
    ghost var rounds: nat
    ghost var afterReset: bool

    ghost function View(): Book
      reads this
    {
      Book(Core(requests, since, fully, force), rounds, afterReset)
    }

    constructor ()
      ensures View() == INITIAL
    {
      requests, since, fully, force := THRESH, 0, false, true;
      rounds, afterReset := 0, false;
    }

    method Reset()
      modifies this
      ensures View() == ResetBook(old(View()))
    {
      requests, since, fully, force := 1, 0, false, false;
      rounds, afterReset := 0, true;
    }

    method Inject(full: bool, ok: bool)
      modifies this
      ensures View() == Injected(old(View()), full, ok)
    {
      if !ok {
        force := true;
      } else {
        var gc: int := THRESH - requests;
        if full {
          since := 0;
          rounds, afterReset := 0, false;
        } else {
          since := Wrap(since + gc);
        }
        requests := THRESH;
        force := false;
        if !fully {
          fully := full;
        }
      }
    }

    /** lrng_drng_seed_es_nolock */
    method SeedEs(c: Config, n: nat, script: Script, ghost stop: nat) returns (collected: u32, ghost k: nat)
      requires ScriptOk(c, n, script) && StopsAt(c, n, View(), script, stop)
      modifies this
      ensures 1 <= k <= stop && EndsAt(c, n, old(View()), script, k)
      ensures View() == AfterRounds(c, n, old(View()), script, k).book
      ensures collected == AfterRounds(c, n, old(View()), script, k).collected
    {
      hide Injected, Again, FullySeeded, Sum, Reaching, AfterRounds, StopsAt, EndsAt, Running, ScriptOk;
      ghost var b := View();
      var forced := force;
      var delivered := 0;
      var bits := Zeros(n);
      var step := 0;
      k, collected := 0, 0;
      var again := true;
      RunningStarts(c, n, b, script);
      while again
        invariant step == k && |bits| == n
        invariant if again then Running(c, n, b, script, k) else EndsAt(c, n, b, script, k)
        invariant AfterRounds(c, n, b, script, k) == Seeding(View(), collected, bits, delivered)
        decreases stop - k, again
      {
        RunningIsShort(c, n, b, script, k, stop);
        RunningGoesOn(c, n, b, script, k);
        var d := script(step);
        assert |d.bits| == n by { DeliveryLength(c, n, script, step); }
        collected := Add(collected, Wrap(Sum(d.bits)));
        bits := AddBits(bits, d.bits);
        delivered := Reaching(d.bits, 1);
        Inject(FullySeeded(c, fully, collected, bits), d.taken);
        step, k := step + 1, k + 1;
        again := Again(c, forced, fully, delivered);
      }
      EndsInTime(c, n, b, script, k, stop);
    }

    /**
     Start of a round of lrng_drng_get: decrement, test, and reseed if the pool lock is free. A round that does not
     reseed has no injections; the list is then arbitrary.
     */
    method StartRound(expired: bool, locked: bool, c: Config, n: nat, script: Script, ghost stop: nat)
      returns (ghost injections: seq<Injection>)
      requires ScriptOk(c, n, script)
      requires locked && MustReseed(Ticked(View()), expired) ==> StopsAt(c, n, Ticked(View()), script, stop)
      modifies this
      ensures injections != [] && View() == Next(old(View()), Round(expired, locked, injections))
      ensures locked && MustReseed(Ticked(old(View())), expired) ==> exists k ::
        EndsAt(c, n, Ticked(old(View())), script, k) && injections == InjectionsOf(c, n, Ticked(old(View())), script, k)
    {
      hide Injected, Again, FullySeeded, SeedRound, AfterRounds, InjectAll, InjectionsOf, StopsAt, EndsAt;
      requests := Sub(requests, 1);
      rounds := rounds + 1;
      injections := [Injection(false, false)];
      if requests == 0 || force || expired {
        if !locked {
          force := true;
        } else {
          ghost var t := View();
          ghost var k := FirstStop(c, n, t, script, stop);
          injections := InjectionsOf(c, n, t, script, k);
          var collected, made := SeedEs(c, n, script, stop);
          EndIsUnique(c, n, t, script, k, made);
          RoundsAreInjections(c, n, t, script, k);
        }
      }
    }

    method SetForceReseed()
      modifies this
      ensures View() == Next(old(View()), ForceReseed)
    {
      force := fully;
    }

    method UnsetFully()
      modifies this
      ensures View() == Next(old(View()), UnsetFullySeeded)
    {
      fully := false;
    }
  }

  lemma {:induction false} FirstStop(c: Config, n: nat, b: Book, script: Script, stop: nat) returns (k: nat)
    requires ScriptOk(c, n, script) && StopsAt(c, n, b, script, stop)
    ensures 1 <= k <= stop && EndsAt(c, n, b, script, k)
  {
    hide Again, AfterRounds;
    k := 1;
    while !StopsAt(c, n, b, script, k)
      invariant 1 <= k <= stop
      invariant forall j :: 1 <= j < k ==> !StopsAt(c, n, b, script, j)
      decreases stop - k
    {
      k := k + 1;
    }
  }

  lemma EndIsUnique(c: Config, n: nat, b: Book, script: Script, j: nat, k: nat)
    requires ScriptOk(c, n, script) && EndsAt(c, n, b, script, j) && EndsAt(c, n, b, script, k)
    ensures j == k
  {
    hide Again, AfterRounds;
    assert StopsAt(c, n, b, script, j) && StopsAt(c, n, b, script, k);
  }

  /** The loop changes the counters as the list of its injections does. */
  lemma {:induction false} RoundsAreInjections(c: Config, n: nat, b: Book, script: Script, k: nat)
    requires ScriptOk(c, n, script)
    ensures AfterRounds(c, n, b, script, k).book == InjectAll(b, InjectionsOf(c, n, b, script, k))
  {
    hide Injected, AfterRounds, FullySeeded, SeedRound;
    RunningStarts(c, n, b, script);
    if k > 0 {
      RoundsAreInjections(c, n, b, script, k - 1);
      var before := InjectionsOf(c, n, b, script, k - 1);
      LastInjection(c, n, b, script, k - 1);
      var injections := InjectionsOf(c, n, b, script, k);
      assert injections[..k - 1] == before;
    }
  }

  lemma LastInjection(c: Config, n: nat, b: Book, script: Script, k: nat)
    requires ScriptOk(c, n, script)
    ensures var last := InjectionsOf(c, n, b, script, k + 1)[k];
      AfterRounds(c, n, b, script, k + 1).book == Injected(AfterRounds(c, n, b, script, k).book, last.full, last.ok)
  {
    hide Injected, FullySeeded, Sum, Reaching;
  }

  // ---------------------------------------------------------------------------------------------
  // The loop ends
  // ---------------------------------------------------------------------------------------------

  /** The bits that source i delivered in the first k rounds, and all sources together, without wrap-around. */
  function DeliveredBy(script: Script, i: nat, k: nat): (r: nat) {
    if k == 0 then 0
    else DeliveredBy(script, i, k - 1) + if i < |script(k - 1).bits| then script(k - 1).bits[i] else 0
  }

  function DeliveredTotal(script: Script, k: nat): (r: nat) {
    if k == 0 then 0 else DeliveredTotal(script, k - 1) + Sum(script(k - 1).bits)
  }

  /** Bits still missing per source in NTG.1 mode. */
  function Shortfall(bits: seq<u32>): (r: nat)
    ensures r <= NTG1_BITS * |bits|
  {
    if bits == [] then 0
    else
      var last := bits[|bits| - 1];
      Shortfall(bits[..|bits| - 1]) + if last < NTG1_BITS then NTG1_BITS - last else 0
  }

  function Missing(c: Config, s: Seeding): (r: nat) {
    if c.ntg1 then Shortfall(s.bits)
    else if s.collected < Requested(c, false) then Requested(c, false) - s.collected else 0
  }

  /** No more rounds than this continue the loop. */
  function RoundLimit(c: Config, n: nat): nat {
    if c.ntg1 then NTG1_BITS * n else Requested(c, false)
  }

  lemma TotalBounds(bits: seq<u32>, cap: u32)
    requires forall i :: 0 <= i < |bits| ==> bits[i] <= cap
    ensures Sum(bits) <= cap * |bits|
    ensures Reaching(bits, 1) >= 1 ==> Sum(bits) >= 1
  {
    hide Sum;
    SumAtMost(bits, cap);
    ReachesOnce(bits, 1);
    if Reaching(bits, 1) >= 1 {
      var i :| 0 <= i < |bits| && bits[i] >= 1;
      SumAtLeast(bits, i);
    }
  }

  /** If two sources deliver and not both had enough before, the shortfall gets smaller. */
  lemma {:induction false} ShortfallShrinks(a: seq<u32>, b: seq<u32>)
    requires |a| == |b| && forall i :: 0 <= i < |a| ==> a[i] + b[i] < TWO32
    ensures Shortfall(AddBits(a, b)) <= Shortfall(a)
    ensures Reaching(b, 1) > Reaching(AddBits(a, b), NTG1_BITS) ==> Shortfall(AddBits(a, b)) < Shortfall(a)
  {
    if a != [] {
      var k := |a| - 1;
      assert AddBits(a, b)[..k] == AddBits(a[..k], b[..k]);
      ShortfallShrinks(a[..k], b[..k]);
    }
  }

  lemma {:induction false} ReachesOnce(bits: seq<u32>, least: u32)
    ensures Reaching(bits, least) >= 1 <==> exists i :: 0 <= i < |bits| && bits[i] >= least
  {
    if bits != [] {
      var front := bits[..|bits| - 1];
      ReachesOnce(front, least);
      if Reaching(front, least) >= 1 {
        var i :| 0 <= i < |front| && front[i] >= least;
        assert bits[i] >= least;
      }
    }
  }

  /** Two sources that reach the level, as an index pair. */
  ghost predicate TwoReach(bits: seq<u32>, least: u32) {
    exists i, j :: 0 <= i < j < |bits| && bits[i] >= least && bits[j] >= least
  }

  lemma {:induction false} ReachesTwice(bits: seq<u32>, least: u32)
    ensures Reaching(bits, least) >= 2 <==> TwoReach(bits, least)
  {
    if bits != [] {
      var front, last := bits[..|bits| - 1], |bits| - 1;
      ReachesTwice(front, least);
      ReachesOnce(front, least);
      if TwoReach(bits, least) {
        var i, j :| 0 <= i < j < |bits| && bits[i] >= least && bits[j] >= least;
        assert front[i] >= least;
        if j < last {
          assert front[j] >= least;
        }
      }
      if Reaching(front, least) >= 2 {
        var i, j :| 0 <= i < j < |front| && front[i] >= least && front[j] >= least;
        assert bits[i] >= least && bits[j] >= least;
      } else if Reaching(bits, least) >= 2 {
        var i :| 0 <= i < |front| && front[i] >= least;
        assert bits[i] >= least && bits[last] >= least;
      }
    }
  }

  ghost predicate AllTaken(script: Script) {
    forall k: nat :: script(k).taken
  }

  /** What k rounds must have delivered together for the DRNG to count as fully seeded. */
  ghost predicate Enough(c: Config, n: nat, script: Script, k: nat) {
    if c.ntg1 then
      exists i, j :: 0 <= i < j < n && DeliveredBy(script, i, k) >= NTG1_BITS && DeliveredBy(script, j, k) >= NTG1_BITS
    else
      DeliveredTotal(script, k) >= Requested(c, false)
  }

  /** The running sums are the true sums: nothing wrapped around. */
  ghost predicate SumsExact(c: Config, n: nat, s: Seeding, script: Script, k: nat)
    requires |s.bits| == n
  {
    && (!c.ntg1 ==> s.collected == DeliveredTotal(script, k))
    && forall i :: 0 <= i < n ==> s.bits[i] == DeliveredBy(script, i, k) <= SOURCE_BITS * k
  }

  /** As long as the loop goes on, every round makes what is missing smaller. */
  ghost predicate Progress(c: Config, n: nat, s: Seeding, script: Script, k: nat)
    requires |s.bits| == n
  {
    && !s.book.core.fully
    && k + Missing(c, s) <= RoundLimit(c, n)
    && (!c.ntg1 ==> s.collected < SOURCE_BITS)
    && SumsExact(c, n, s, script, k)
  }

  lemma {:induction false} ZerosShortfall(n: nat)
    ensures Shortfall(Zeros(n)) == NTG1_BITS * n
  {
    if n > 0 {
      assert Zeros(n)[..n - 1] == Zeros(n - 1);
      ZerosShortfall(n - 1);
    }
  }

  lemma ProgressStarts(c: Config, n: nat, b: Book, script: Script)
    requires ScriptOk(c, n, script) && !b.core.fully
    ensures Progress(c, n, AfterRounds(c, n, b, script, 0), script, 0)
  {
    ZerosShortfall(n);
  }

  lemma SumsStayExact(c: Config, n: nat, s: Seeding, script: Script, k: nat)
    requires ScriptOk(c, n, script) && |s.bits| == n && c.Ok() && Progress(c, n, s, script, k)
    ensures SumsExact(c, n, SeedRound(c, s, script(k)), script, k + 1)
    ensures forall i :: 0 <= i < n ==> s.bits[i] + script(k).bits[i] < TWO32
    ensures !c.ntg1 ==> SeedRound(c, s, script(k)).collected == s.collected + Sum(script(k).bits)
  {
    hide Missing, Injected, FullySeeded;
    var d := script(k);
    assert DeliveryOk(c, n, d);
    TotalBounds(d.bits, SOURCE_BITS);
    assert k <= NTG1_BITS * MAX_SOURCES;
  }

  lemma SumsDecide(c: Config, n: nat, s: Seeding, script: Script, k: nat)
    requires |s.bits| == n && SumsExact(c, n, s, script, k)
    ensures FullySeeded(c, false, s.collected, s.bits) <==> Enough(c, n, script, k)
  {
    if c.ntg1 {
      ReachesTwice(s.bits, NTG1_BITS);
    }
  }

  /** One round: the DRNG becomes fully seeded exactly if enough was delivered; otherwise less is missing than before. */
  lemma ProgressStep(c: Config, n: nat, s: Seeding, script: Script, k: nat)
    requires ScriptOk(c, n, script) && |s.bits| == n && c.Ok() && AllTaken(script) && Progress(c, n, s, script, k)
    ensures var s' := SeedRound(c, s, script(k));
      && (s'.book.core.fully <==> Enough(c, n, script, k + 1))
      && (!s'.book.core.fully && s'.delivered >= Needed(c) ==> Progress(c, n, s', script, k + 1))
  {
    hide Enough, SumsExact, Requested;
    var d, s' := script(k), SeedRound(c, s, script(k));
    SumsStayExact(c, n, s, script, k);
    SumsDecide(c, n, s', script, k + 1);
    TotalBounds(d.bits, SOURCE_BITS) by {
      assert DeliveryOk(c, n, d);
    }
    ShortfallShrinks(s.bits, d.bits);
    assert Requested(c, false) <= SOURCE_BITS by { RequestedBound(c); }
  }

  lemma RequestedBound(c: Config)
    requires c.Ok()
    ensures 0 <= Requested(c, false) <= SOURCE_BITS
  {
  }

  lemma {:induction false} RunningMakesProgress(c: Config, n: nat, b: Book, script: Script, k: nat)
    requires ScriptOk(c, n, script) && c.Ok() && AllTaken(script) && !b.core.fully && Running(c, n, b, script, k)
    ensures Progress(c, n, AfterRounds(c, n, b, script, k), script, k)
  {
    hide Progress, SeedRound, AllTaken, ScriptOk;
    if k == 0 {
      ProgressStarts(c, n, b, script);
    } else {
      RunningMakesProgress(c, n, b, script, k - 1);
      ProgressStep(c, n, AfterRounds(c, n, b, script, k - 1), script, k - 1);
      assert !StopsAt(c, n, b, script, k);
    }
  }

  /**
   With injections that succeed the loop ends, after at most one round more than there are bits missing. When it ends,
   the DRNG is fully seeded exactly if the sources delivered enough in all rounds together, and if it is not although
   the seeding was forced, too few sources delivered anything in the last round.
   */
  lemma EmergencySeedingEnds(c: Config, n: nat, b: Book, script: Script) returns (k: nat)
    requires ScriptOk(c, n, script) && c.Ok() && AllTaken(script) && !b.core.fully
    ensures 1 <= k <= RoundLimit(c, n) + 1 && EndsAt(c, n, b, script, k)
    ensures AfterRounds(c, n, b, script, k).book.core.fully <==> Enough(c, n, script, k)
    ensures c.forceSeeding && b.core.force && !Enough(c, n, script, k) ==> Reaching(script(k - 1).bits, 1) < Needed(c)
  {
    hide Progress, SeedRound, AllTaken, ScriptOk, AfterRounds, StopsAt, EndsAt, Running, Enough;
    k := 0;
    RunningStarts(c, n, b, script);
    RunningMakesProgress(c, n, b, script, 0);
    while true
      invariant Running(c, n, b, script, k) && k <= RoundLimit(c, n)
      decreases RoundLimit(c, n) - k
    {
      RunningMakesProgress(c, n, b, script, k);
      ProgressStep(c, n, AfterRounds(c, n, b, script, k), script, k);
      RunningGoesOn(c, n, b, script, k);
      DeliveryLength(c, n, script, k);
      RoundDelivers(c, AfterRounds(c, n, b, script, k), script(k));
      var s := AfterRounds(c, n, b, script, k + 1);
      k := k + 1;
      if !Again(c, b.core.force, s.book.core.fully, s.delivered) {
        return;
      }
      RunningMakesProgress(c, n, b, script, k);
      ProgressBound(c, n, s, script, k);
    }
  }

  lemma RoundDelivers(c: Config, s: Seeding, d: Delivery)
    requires |s.bits| == |d.bits|
    ensures SeedRound(c, s, d).delivered == Reaching(d.bits, 1)
  {
  }

  lemma ProgressBound(c: Config, n: nat, s: Seeding, script: Script, k: nat)
    requires |s.bits| == n && Progress(c, n, s, script, k)
    ensures k <= RoundLimit(c, n)
  {
  }

  // ---------------------------------------------------------------------------------------------
  // When the loop ends, whichever injections are taken
  // ---------------------------------------------------------------------------------------------

  /** The running 32-bit sums of the loop, which do not depend on what the DRNG takes. */
  function CollectedAfter(script: Script, k: nat): u32 {
    if k == 0 then 0 else Add(CollectedAfter(script, k - 1), Wrap(Sum(script(k - 1).bits)))
  }

  function BitsAfter(c: Config, n: nat, script: Script, k: nat): (r: seq<u32>)
    requires ScriptOk(c, n, script)
    ensures |r| == n
  {
    if k == 0 then Zeros(n)
    else
      assert DeliveryOk(c, n, script(k - 1));
      AddBits(BitsAfter(c, n, script, k - 1), script(k - 1).bits)
  }

  /** The DRNG takes the injection of round j, and the sums up to then meet the rule. */
  ghost predicate SeedsIn(c: Config, n: nat, script: Script, j: nat)
    requires ScriptOk(c, n, script)
  {
    script(j).taken && FullySeeded(c, false, CollectedAfter(script, j + 1), BitsAfter(c, n, script, j + 1))
  }

  /** Round j is the last one: it seeds the DRNG fully, or too few sources deliver in it. */
  ghost predicate Decides(c: Config, n: nat, script: Script, j: nat)
    requires ScriptOk(c, n, script)
  {
    SeedsIn(c, n, script, j) || Reaching(script(j).bits, 1) < Needed(c)
  }

  lemma {:induction false} FullyAfterExactly(c: Config, n: nat, b: Book, script: Script, k: nat)
    requires ScriptOk(c, n, script) && !b.core.fully
    ensures var s := AfterRounds(c, n, b, script, k);
      && s.collected == CollectedAfter(script, k) && s.bits == BitsAfter(c, n, script, k)
      && s.delivered == (if k == 0 then 0 else Reaching(script(k - 1).bits, 1))
      && (s.book.core.fully <==> exists j: nat :: j < k && SeedsIn(c, n, script, j))
  {
    hide AfterRounds, SeedsIn, Reaching, CollectedAfter, BitsAfter, ScriptOk;
    if k == 0 {
      NoSumsYet(c, n, b, script);
    } else {
      FullyAfterExactly(c, n, b, script, k - 1);
      OneMoreSum(c, n, b, script, k - 1);
    }
  }

  lemma NoSumsYet(c: Config, n: nat, b: Book, script: Script)
    requires ScriptOk(c, n, script)
    ensures AfterRounds(c, n, b, script, 0) == Seeding(b, CollectedAfter(script, 0), BitsAfter(c, n, script, 0), 0)
  {
  }

  lemma OneMoreSum(c: Config, n: nat, b: Book, script: Script, k: nat)
    requires ScriptOk(c, n, script)
    ensures var s, r := AfterRounds(c, n, b, script, k), AfterRounds(c, n, b, script, k + 1);
      s.collected == CollectedAfter(script, k) && s.bits == BitsAfter(c, n, script, k) ==>
      && r.collected == CollectedAfter(script, k + 1) && r.bits == BitsAfter(c, n, script, k + 1)
      && r.delivered == Reaching(script(k).bits, 1)
      && (!s.book.core.fully ==> (r.book.core.fully <==> SeedsIn(c, n, script, k)))
      && (s.book.core.fully ==> r.book.core.fully)
  {
    hide FullySeeded, Sum, Reaching;
    DeliveryLength(c, n, script, k);
  }

  /**
   A forced seeding of a DRNG that is not fully seeded stops being repeated after round k exactly if some round so far
   seeded it fully or too few sources delivered in the last one, whatever the DRNG took or refused.
   */
  lemma StopsExactly(c: Config, n: nat, b: Book, script: Script, k: nat)
    requires ScriptOk(c, n, script) && c.forceSeeding && b.core.force && !b.core.fully && k > 0
    ensures StopsAt(c, n, b, script, k)
      <==> (exists j: nat :: j < k && SeedsIn(c, n, script, j)) || Reaching(script(k - 1).bits, 1) < Needed(c)
  {
    hide FullySeeded, Reaching, SeedsIn, AfterRounds;
    FullyAfterExactly(c, n, b, script, k);
  }

  /**
   So it ends at all if and only if some round seeds the DRNG fully or has too few deliverers. In particular, while the
   sources keep delivering, it ends if and only if the DRNG takes an injection after enough was delivered.
   */
  lemma EmergencySeedingEndsExactly(c: Config, n: nat, b: Book, script: Script)
    requires ScriptOk(c, n, script) && c.forceSeeding && b.core.force && !b.core.fully
    ensures (exists k: nat :: StopsAt(c, n, b, script, k)) <==> exists j: nat :: Decides(c, n, script, j)
    ensures (forall j: nat :: Reaching(script(j).bits, 1) >= Needed(c)) ==>
      ((exists k: nat :: StopsAt(c, n, b, script, k)) <==> exists j: nat :: SeedsIn(c, n, script, j))
  {
    hide StopsAt, SeedsIn, Reaching;
    if k: nat :| StopsAt(c, n, b, script, k) {
      assert k > 0 by { StopsAfterOne(c, n, b, script, k); }
      StopsExactly(c, n, b, script, k);
      assert Decides(c, n, script, k - 1) || exists j: nat :: j < k && SeedsIn(c, n, script, j);
      if j: nat :| j < k && SeedsIn(c, n, script, j) {
        assert Decides(c, n, script, j);
      }
    }
    if j: nat :| Decides(c, n, script, j) {
      StopsExactly(c, n, b, script, j + 1);
      assert StopsAt(c, n, b, script, j + 1);
    }
    if j: nat :| SeedsIn(c, n, script, j) {
      assert Decides(c, n, script, j);
    }
  }

  lemma StopsAfterOne(c: Config, n: nat, b: Book, script: Script, k: nat)
    requires ScriptOk(c, n, script) && StopsAt(c, n, b, script, k)
    ensures k > 0
  {
    hide Again, AfterRounds;
  }

  /** With injections that fail the loop goes on for as long as the sources deliver. */
  lemma {:induction false} FailingInjectionsNeverEnd(c: Config, n: nat, b: Book, script: Script, k: nat)
    requires ScriptOk(c, n, script) && c.forceSeeding && b.core.force && !b.core.fully
    requires forall j: nat :: !script(j).taken && Reaching(script(j).bits, 1) >= Needed(c)
    ensures Running(c, n, b, script, k) && !AfterRounds(c, n, b, script, k).book.core.fully
  {
    hide FullySeeded, Reaching;
    if k > 0 {
      FailingInjectionsNeverEnd(c, n, b, script, k - 1);
      assert !script(k - 1).taken;
    }
  }

  /** A seeding that is not forced, not allowed to repeat or not needed makes exactly one injection. */
  lemma OtherwiseOneRound(c: Config, n: nat, b: Book, script: Script)
    requires ScriptOk(c, n, script)
    requires !c.forceSeeding || !b.core.force || b.core.fully
    ensures EndsAt(c, n, b, script, 1)
  {
    RunningStarts(c, n, b, script);
    RunningGoesOn(c, n, b, script, 0);
  }

  // ---------------------------------------------------------------------------------------------
  // What the entropy estimate of a seeding is worth
  // ---------------------------------------------------------------------------------------------

  /** The sum over the sources and the sum over the rounds agree. */
  function SumOver(script: Script, n: nat, k: nat): (r: nat) {
    if n == 0 then 0 else SumOver(script, n - 1, k) + DeliveredBy(script, n - 1, k)
  }

  lemma {:induction false} SumOverRounds(c: Config, n: nat, script: Script, m: nat, k: nat)
    requires ScriptOk(c, n, script) && m <= n
    ensures SumOver(script, m, 0) == 0
    ensures k > 0 ==> SumOver(script, m, k) == SumOver(script, m, k - 1) + Sum(script(k - 1).bits[..m])
  {
    if m > 0 {
      SumOverRounds(c, n, script, m - 1, k);
      if k > 0 {
        var bits := script(k - 1).bits;
        SumLast(bits[..m]);
        assert bits[..m][..m - 1] == bits[..m - 1];
      }
    }
  }

  lemma {:induction false} SourcesMakeTotal(c: Config, n: nat, script: Script, k: nat)
    requires ScriptOk(c, n, script)
    ensures SumOver(script, n, k) == DeliveredTotal(script, k)
  {
    SumOverRounds(c, n, script, n, k);
    if k > 0 {
      SourcesMakeTotal(c, n, script, k - 1);
      assert script(k - 1).bits[..n] == script(k - 1).bits;
    }
  }

  lemma {:induction false} TwoSourcesSum(script: Script, n: nat, k: nat, i: nat, j: nat)
    requires i < j < n
    ensures SumOver(script, n, k) >= DeliveredBy(script, i, k) + DeliveredBy(script, j, k)
  {
    if j == n - 1 {
      OneSourceSums(script, n - 1, k, i);
    } else {
      TwoSourcesSum(script, n - 1, k, i, j);
    }
  }

  lemma {:induction false} OneSourceSums(script: Script, n: nat, k: nat, i: nat)
    requires i < n
    ensures SumOver(script, n, k) >= DeliveredBy(script, i, k)
  {
    if i < n - 1 {
      OneSourceSums(script, n - 1, k, i);
    }
  }

  /** Wrap-around only ever makes the sums smaller than the truth. */
  lemma {:induction false} SumsAreLowerBounds(c: Config, n: nat, b: Book, script: Script, k: nat)
    requires ScriptOk(c, n, script)
    ensures var s := AfterRounds(c, n, b, script, k);
      s.collected <= DeliveredTotal(script, k) && forall i :: 0 <= i < n ==> s.bits[i] <= DeliveredBy(script, i, k)
  {
    hide Injected, FullySeeded;
    if k > 0 {
      SumsAreLowerBounds(c, n, b, script, k - 1);
      DeliveryLength(c, n, script, k - 1);
    }
  }

  /**
   Whenever a seeding makes a DRNG fully seeded, in any mode and whatever injections fail before, its sources have
   delivered at least the security strength.
   */
  lemma {:induction false} FullySeededIsEarned(c: Config, n: nat, b: Book, script: Script, k: nat)
    requires ScriptOk(c, n, script) && c.Ok() && !b.core.fully
    ensures var s := AfterRounds(c, n, b, script, k);
      s.book.core.fully ==> DeliveredTotal(script, k) >= c.strength
  {
    hide Sum, Reaching, DeliveredTotal, FullySeeded;
    if k > 0 {
      var p, s := AfterRounds(c, n, b, script, k - 1), AfterRounds(c, n, b, script, k);
      FullySeededIsEarned(c, n, b, script, k - 1);
      TotalGrows(script, k - 1);
      if s.book.core.fully && !p.book.core.fully {
        assert FullySeeded(c, false, s.collected, s.bits);
        RuleIsEarned(c, n, b, script, k);
      }
    }
  }

  /** Sums that meet the rule stand for the strength. */
  lemma RuleIsEarned(c: Config, n: nat, b: Book, script: Script, k: nat)
    requires ScriptOk(c, n, script) && c.Ok()
    ensures var s := AfterRounds(c, n, b, script, k);
      FullySeeded(c, false, s.collected, s.bits) ==> DeliveredTotal(script, k) >= c.strength
  {
    var s := AfterRounds(c, n, b, script, k);
    hide AfterRounds, DeliveredTotal, DeliveredBy, SumOver, Reaching;
    SumsAreLowerBounds(c, n, b, script, k);
    ReachesTwice(s.bits, NTG1_BITS);
    if c.ntg1 && FullySeeded(c, false, s.collected, s.bits) {
      var i, j :| 0 <= i < j < n && s.bits[i] >= NTG1_BITS && s.bits[j] >= NTG1_BITS;
      TwoSourcesSum(script, n, k, i, j);
      SourcesMakeTotal(c, n, script, k);
    }
  }

  lemma TotalGrows(script: Script, k: nat)
    ensures DeliveredTotal(script, k) <= DeliveredTotal(script, k + 1)
  {
  }
}
