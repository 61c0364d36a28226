/**
 Where every event of the ledger machine goes: conservation as an equation, and what the conversions keep of the events
 and bits that they are given.
 */
module EventAccounting {
  import opened Words
  import opened Conversion
  import opened EntropyLedger

  /** Events in the counters and in tasks. */
  function Events(w: World): nat {
    Sum(w.counters) + Sum(Held(w.tasks))
  }

  /** The end of a harvest by the task is enabled. */
  predicate Ends(w: World, t: nat) {
    t < |w.tasks| && w.tasks[t].Visiting? && w.tasks[t].cpu >= |w.counters|
  }

  /** Events that the operation turns into the bits of a delivery. */
  function SpentBy(w: World, a: Action): nat {
    if a.Finish? && a.success && Ends(w, a.task) then w.tasks[a.task].collected else 0
  }

  /** What a counter loses when a sum wraps around. */
  function Wrapped(sum: nat): nat {
    if sum < TWO32 then 0 else TWO32
  }

  /**
   Events that the operation loses: reset counters, what exceeds a cap, everything that a failing hash call leaves behind,
   and sums that wrap around.
   */
  function LostBy(cfg: Config, w: World, a: Action): nat {
    match a
    case HealthyEvent(cpu) => if cpu < |w.counters| then Wrapped(w.counters[cpu] as int + 1) else 0
    case ZeroCounter(cpu) => if cpu < |w.counters| then w.counters[cpu] else 0
    case Start(_, _, _, _, _) => 0
    case Take(t, outcome) =>
      if t < |w.tasks| && w.tasks[t].Visiting? && w.tasks[t].cpu < |w.counters| && outcome.Hashed? then
        var counter := w.counters[w.tasks[t].cpu];
        if outcome.success then counter - Min(counter, CpuCap(cfg, outcome.digestBits)) else counter
      else 0
    case Mix(t, success) =>
      if t < |w.tasks| && w.tasks[t].Mixing? then
        var sum := w.tasks[t].collected + w.tasks[t].found;
        if success then Wrapped(sum) else sum
      else 0
    case PutBack(t) =>
      if t < |w.tasks| && w.tasks[t].PuttingBack? && w.tasks[t].cpu < |w.counters|
      then Wrapped(w.counters[w.tasks[t].cpu] + w.tasks[t].unused) else 0
    case Finish(t, success) => if !success && Ends(w, t) then w.tasks[t].collected else 0
    case SwitchTake(t, cpu, oldDigestBits) =>
      if t < |w.tasks| && w.tasks[t].Idle? && cpu < |w.counters|
      then w.counters[cpu] - Min(w.counters[cpu], EntropyToData(oldDigestBits, cfg.rate)) else 0
    case SwitchPut(t) =>
      if t < |w.tasks| && w.tasks[t].Switching? && w.tasks[t].cpu < |w.counters|
      then Wrapped(w.counters[w.tasks[t].cpu] + w.tasks[t].found) else 0
  }

  function Spent(cfg: Config, w: World, actions: seq<Action>): nat
    requires ValidConfig(cfg)
    decreases |actions|
  {
    if actions == [] then 0 else SpentBy(w, actions[0]) + Spent(cfg, Step(cfg, w, actions[0]), actions[1..])
  }

  function Lost(cfg: Config, w: World, actions: seq<Action>): nat
    requires ValidConfig(cfg)
    decreases |actions|
  {
    if actions == [] then 0 else LostBy(cfg, w, actions[0]) + Lost(cfg, Step(cfg, w, actions[0]), actions[1..])
  }

  lemma StepIsAccountedFor(cfg: Config, w: World, a: Action)
    requires ValidConfig(cfg)
    ensures Events(Step(cfg, w, a)) + SpentBy(w, a) + LostBy(cfg, w, a) == Events(w) + (Step(cfg, w, a).healthy - w.healthy)
  {
    hide EntropyToData, CpuCap, RequestedEvents, Credit, Sum, Held;
    match a
    case HealthyEvent(cpu) =>
      if cpu < |w.counters| {
        CounterUpdate(w, cpu, Add(w.counters[cpu], 1));
      }
    case ZeroCounter(cpu) =>
      if cpu < |w.counters| {
        CounterUpdate(w, cpu, 0);
      }
    case SwitchTake(t, cpu, oldDigestBits) =>
      if t < |w.tasks| && w.tasks[t].Idle? && cpu < |w.counters| {
        CounterUpdate(w, cpu, 0);
        HeldUpdate(w, t, Switching(cpu, Min(w.counters[cpu], EntropyToData(oldDigestBits, cfg.rate))));
      }
    case SwitchPut(t) =>
      if t < |w.tasks| && w.tasks[t].Switching? && w.tasks[t].cpu < |w.counters| {
        CounterUpdate(w, w.tasks[t].cpu, Add(w.counters[w.tasks[t].cpu], w.tasks[t].found));
        WrapLoses(w.counters[w.tasks[t].cpu], w.tasks[t].found);
        HeldUpdate(w, t, Idle);
      }
    case _ =>
      HarvestStepIsAccountedFor(cfg, w, a);
  }

  lemma WrapLoses(a: u32, b: u32)
    ensures Add(a, b) + Wrapped(a + b) == a + b
  {
  }

  lemma TakeIsAccountedFor(cfg: Config, w: World, t: nat, outcome: Outcome)
    requires ValidConfig(cfg) && t < |w.tasks| && w.tasks[t].Visiting? && w.tasks[t].cpu < |w.counters|
    ensures Events(TakeCounter(cfg, w, t, outcome)) + LostBy(cfg, w, Take(t, outcome)) == Events(w)
  {
    hide CpuCap, Sum, Held;
    var Visiting(cpu, collected, requested, limit) := w.tasks[t];
    CounterUpdate(w, cpu, LeftAfterTake(w.counters[cpu], outcome));
    HeldUpdate(w, t, Visiting(cpu + 1, collected, requested, limit));
    HeldUpdate(w, t, Mixing(cpu, Found(cfg, w.counters[cpu], outcome), collected, requested, limit));
  }

  lemma MixIsAccountedFor(cfg: Config, w: World, t: nat, success: bool)
    requires ValidConfig(cfg) && t < |w.tasks| && w.tasks[t].Mixing?
    ensures Events(Step(cfg, w, Mix(t, success))) + LostBy(cfg, w, Mix(t, success)) == Events(w)
  {
    hide Sum, Held, Wrapped, Add;
    var Mixing(cpu, found, collected, requested, limit) := w.tasks[t];
    var sum := Add(collected, found);
    WrapLoses(collected, found);
    HeldUpdate(w, t, Idle);
    HeldUpdate(w, t, Visiting(cpu + 1, sum, requested, limit));
    if sum > requested {
      HeldUpdate(w, t, PuttingBack(cpu, sum - requested, requested, limit));
    }
  }

  lemma HarvestStepIsAccountedFor(cfg: Config, w: World, a: Action)
    requires ValidConfig(cfg)
    requires a.Start? || a.Take? || a.Mix? || a.PutBack? || a.Finish?
    ensures Events(Step(cfg, w, a)) + SpentBy(w, a) + LostBy(cfg, w, a) == Events(w) && Step(cfg, w, a).healthy == w.healthy
  {
    hide EntropyToData, CpuCap, RequestedEvents, Credit, Sum, Held, Wrapped, Add, TakeCounter;
    var t := a.task;
    if t < |w.tasks| {
      match w.tasks[t]
      case Idle =>
        HeldUpdate(w, t, Idle);
        if a.Start? {
          var limit: u32 := Min(a.digestBits, a.requestedBits);
          HeldUpdate(w, t, Visiting(0, 0, RequestedEvents(cfg, limit), limit));
        }
      case Visiting(cpu, collected, requested, limit) =>
        HeldUpdate(w, t, Idle);
        if a.Take? && cpu < |w.counters| {
          TakeIsAccountedFor(cfg, w, t, a.outcome);
          StepCounts(cfg, w, a);
        }
      case Mixing(cpu, found, collected, requested, limit) =>
        if a.Mix? {
          MixIsAccountedFor(cfg, w, t, a.success);
        }
      case PuttingBack(cpu, unused, requested, limit) =>
        if a.PutBack? && cpu < |w.counters| {
          WrapLoses(w.counters[cpu], unused);
          CounterUpdate(w, cpu, Add(w.counters[cpu], unused));
          HeldUpdate(w, t, Visiting(cpu + 1, requested, requested, limit));
        }
      case Switching(_, _) =>
    }
  }

  /**
   Conservation as an equation: in every run, every event that passed the health test is in a counter, in a task, was
   turned into bits, or was lost in one of the ways that LostBy names.
   */
  lemma {:induction false} EventsAreAccountedFor(cfg: Config, w: World, actions: seq<Action>)
    requires ValidConfig(cfg)
    ensures Events(Run(cfg, w, actions)) + Spent(cfg, w, actions) + Lost(cfg, w, actions)
         == Events(w) + HealthyEvents(actions, |w.counters|)
    decreases |actions|
  {
    hide Step, LostBy, SpentBy, Events;
    if actions != [] {
      StepIsAccountedFor(cfg, w, actions[0]);
      StepCounts(cfg, w, actions[0]);
      EventsAreAccountedFor(cfg, Step(cfg, w, actions[0]), actions[1..]);
    }
  }

  /** Time stamps that passed the health test on one of the CPUs. */
  function HealthyEvents(actions: seq<Action>, cpus: nat): nat {
    if actions == [] then 0
    else (if actions[0].HealthyEvent? && actions[0].cpu < cpus then 1 else 0) + HealthyEvents(actions[1..], cpus)
  }

  lemma StepCounts(cfg: Config, w: World, a: Action)
    requires ValidConfig(cfg)
    ensures |Step(cfg, w, a).counters| == |w.counters|
    ensures Step(cfg, w, a).healthy == w.healthy + if a.HealthyEvent? && a.cpu < |w.counters| then 1 else 0
  {
    hide EntropyToData, Credit, RequestedEvents;
  }

  /** What was turned into bits is credited, less the discount, up to the last bit. */
  lemma CreditExactly(cfg: Config, collected: u32)
    requires ValidConfig(cfg) && 256 * collected < TWO32
    ensures Credit(cfg, collected) > 0 ==> cfg.rate * (Credit(cfg, collected) + cfg.osr) <= 256 * collected
    ensures 256 * collected < cfg.rate * (Credit(cfg, collected) + cfg.osr + 1)
  {
    ConversionsAreQuotients(0, collected, cfg.rate);
    var bits := DataToEntropy(collected, cfg.rate);
    MulOrder(cfg.rate, bits + 1, Credit(cfg, collected) + cfg.osr + 1);
  }

  /** A visit counts as many of the events as the digest can hold, and as the array can where that is a limit too. */
  lemma FoundExactly(cfg: Config, counter: u32, digestBits: u32)
    ensures var found := Found(cfg, counter, Hashed(digestBits, true));
      && found <= counter && 256 * found <= digestBits * cfg.rate && (cfg.capArray ==> found <= cfg.arraySize)
      && (digestBits * cfg.rate < TWO32 ==>
            found == counter || 256 * (found + 1) > digestBits * cfg.rate || (cfg.capArray && found == cfg.arraySize))
  {
    ConversionsAreQuotients(digestBits, 0, cfg.rate);
  }

  /** The events that a harvest asks for make up for the discount: kept in full they are credited as requested, up to a bit. */
  lemma RequestIsMet(cfg: Config, limit: u32)
    requires cfg.rate >= 256 && limit + cfg.osr < TWO32
    ensures (limit + cfg.osr) * cfg.rate < TWO32 ==> limit - 1 <= Credit(cfg, RequestedEvents(cfg, limit)) <= limit
  {
    if (limit + cfg.osr) * cfg.rate < TWO32 {
      ConversionRoundTrip(limit + cfg.osr, cfg.rate);
      CreditBounds(cfg, RequestedEvents(cfg, limit), limit);
    }
  }
}
