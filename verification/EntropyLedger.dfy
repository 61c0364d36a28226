/**
 The entropy ledger of the two timer sources (lrng_es_irq.c, lrng_es_sched.c) at the granularity
 of their atomic operations.

 Every per-CPU event counter is an `atomic_t`. Harvests and hash switches are tasks: each takes a
 counter with an exchange to zero and may add a part back later, and any event, reset or other task
 may run in between. Any number of tasks may be under way; nothing below relies on the pool lock.
 */
module EntropyLedger {
  import opened Words
  import opened Conversion

  /** `capArray`: the array size caps a counter too (scheduler source; IRQ source without continuous compression). */
  datatype Config = Config(rate: u32, osr: u32, capArray: bool, arraySize: u32)

  predicate ValidConfig(cfg: Config) {
    cfg.rate > 0
  }

  /** What happens when a harvest visits a CPU. */
  datatype Outcome =
    | Offline                                  // IRQ source: pool of that CPU not online yet
    | InitFailed                               // scheduler source: first use and hash_init failed
    | Hashed(digestBits: u32, success: bool)   // counter taken; `success` is the result of the four hash calls

  datatype Task =
    | Idle
    | Visiting(cpu: nat, collected: u32, requested: u32, limit: u32)
    | Mixing(cpu: nat, found: u32, collected: u32, requested: u32, limit: u32)
    | PuttingBack(cpu: nat, unused: u32, requested: u32, limit: u32)
    | Switching(cpu: nat, found: u32)

  /** One filling of the seed buffer: the bits credited and the request they answer, capped to the digest. */
  datatype Delivery = Delivery(limit: u32, bits: u32)

  datatype World = World(counters: seq<u32>, tasks: seq<Task>, healthy: nat, deliveries: seq<Delivery>)

  datatype Action =
    | HealthyEvent(cpu: nat)
    | ZeroCounter(cpu: nat)      // lrng_irq_reset, lrng_sched_reset, or an array handed to raw recording
    | Start(task: nat, requestedBits: u32, digestBits: u32, startupComplete: bool, initOk: bool)
    | Take(task: nat, outcome: Outcome)
    | Mix(task: nat, success: bool)
    | PutBack(task: nat)
    | Finish(task: nat, success: bool)
    | SwitchTake(task: nat, cpu: nat, oldDigestBits: u32)
    | SwitchPut(task: nat)

  /** Cap of one counter when it is harvested. */
  function CpuCap(cfg: Config, digestBits: u32): u32 {
    var inHash := EntropyToData(digestBits, cfg.rate);
    if cfg.capArray then Min(inHash, cfg.arraySize) else inHash
  }

  /** Events that one harvest asks for. */
  function RequestedEvents(cfg: Config, limit: u32): u32 {
    EntropyToData(Add(limit, cfg.osr), cfg.rate)
  }

  /** Bits credited for the events that a harvest kept. */
  function Credit(cfg: Config, collected: u32): u32
    requires ValidConfig(cfg)
  {
    ReduceByOsr(DataToEntropy(collected, cfg.rate), cfg.osr)
  }

  function SetTask(w: World, t: nat, task: Task): World
    requires t < |w.tasks|
  {
    w.(tasks := w.tasks[t := task])
  }

  function SetCounter(w: World, cpu: nat, value: u32): World
    requires cpu < |w.counters|
  {
    w.(counters := w.counters[cpu := value])
  }

  function Deliver(w: World, t: nat, d: Delivery): World
    requires t < |w.tasks|
  {
    SetTask(w, t, Idle).(deliveries := w.deliveries + [d])
  }

  /** One atomic operation. An operation that is not enabled changes nothing. */
  function Step(cfg: Config, w: World, a: Action): World
    requires ValidConfig(cfg)
  {
    match a
    case HealthyEvent(cpu) =>
      if cpu >= |w.counters| then w
      else SetCounter(w, cpu, Add(w.counters[cpu], 1)).(healthy := w.healthy + 1)
    case ZeroCounter(cpu) =>
      if cpu >= |w.counters| then w else SetCounter(w, cpu, 0)
    case Start(t, requestedBits, digestBits, startupComplete, initOk) =>
      if t >= |w.tasks| || !w.tasks[t].Idle? then w
      else
        var limit: u32 := Min(digestBits, requestedBits);
        if !startupComplete || !initOk then Deliver(w, t, Delivery(limit, 0))
        else SetTask(w, t, Visiting(0, 0, RequestedEvents(cfg, limit), limit))
    case Take(t, outcome) =>
      if t >= |w.tasks| || !w.tasks[t].Visiting? || w.tasks[t].cpu >= |w.counters| then w
      else TakeCounter(cfg, w, t, outcome)
    case Mix(t, success) =>
      if t >= |w.tasks| || !w.tasks[t].Mixing? then w
      else
        var Mixing(cpu, found, collected, requested, limit) := w.tasks[t];
        if !success then Deliver(w, t, Delivery(limit, 0))
        else
          var sum := Add(collected, found);
          if sum > requested
          then SetTask(w, t, PuttingBack(cpu, sum - requested, requested, limit))
          else SetTask(w, t, Visiting(cpu + 1, sum, requested, limit))
    case PutBack(t) =>
      if t >= |w.tasks| || !w.tasks[t].PuttingBack? || w.tasks[t].cpu >= |w.counters| then w
      else
        var PuttingBack(cpu, unused, requested, limit) := w.tasks[t];
        SetTask(SetCounter(w, cpu, Add(w.counters[cpu], unused)), t, Visiting(cpu + 1, requested, requested, limit))
    case Finish(t, success) =>
      if t >= |w.tasks| || !w.tasks[t].Visiting? || w.tasks[t].cpu < |w.counters| then w
      else
        var limit := w.tasks[t].limit;
        Deliver(w, t, Delivery(limit, if success then Credit(cfg, w.tasks[t].collected) else 0))
    case SwitchTake(t, cpu, oldDigestBits) =>
      if t >= |w.tasks| || !w.tasks[t].Idle? || cpu >= |w.counters| then w
      else
        var found: u32 := Min(w.counters[cpu], EntropyToData(oldDigestBits, cfg.rate));
        SetTask(SetCounter(w, cpu, 0), t, Switching(cpu, found))
    case SwitchPut(t) =>
      if t >= |w.tasks| || !w.tasks[t].Switching? || w.tasks[t].cpu >= |w.counters| then w
      else
        var Switching(cpu, found) := w.tasks[t];
        SetTask(SetCounter(w, cpu, Add(w.counters[cpu], found)), t, Idle)
  }

  /** What one visit finds, and the counter it leaves. */
  function Found(cfg: Config, counter: u32, outcome: Outcome): u32 {
    match outcome
    case Hashed(digestBits, success) => if success then Min(counter, CpuCap(cfg, digestBits)) else 0
    case _ => 0
  }

  function LeftAfterTake(counter: u32, outcome: Outcome): u32 {
    if outcome.Hashed? then 0 else counter
  }

  function TakeCounter(cfg: Config, w: World, t: nat, outcome: Outcome): World
    requires t < |w.tasks| && w.tasks[t].Visiting? && w.tasks[t].cpu < |w.counters|
  {
    var Visiting(cpu, collected, requested, limit) := w.tasks[t];
    if outcome.Offline? then SetTask(w, t, Visiting(cpu + 1, collected, requested, limit))
    else
      var found := Found(cfg, w.counters[cpu], outcome);
      SetTask(SetCounter(w, cpu, LeftAfterTake(w.counters[cpu], outcome)), t,
              Mixing(cpu, found, collected, requested, limit))
  }

  function Run(cfg: Config, w: World, actions: seq<Action>): World
    requires ValidConfig(cfg)
    decreases |actions|
  {
    if actions == [] then w else Run(cfg, Step(cfg, w, actions[0]), actions[1..])
  }

  lemma {:induction false} RunAppend(cfg: Config, w: World, a: seq<Action>, b: seq<Action>)
    requires ValidConfig(cfg)
    ensures Run(cfg, w, a + b) == Run(cfg, Run(cfg, w, a), b)
    decreases |a|
  {
    if a == [] {
      assert a + b == b;
    } else {
      assert (a + b)[1..] == a[1..] + b;
      RunAppend(cfg, Step(cfg, w, a[0]), a[1..], b);
    }
  }

  // ---------------------------------------------------------------------------------------------
  // Conservation
  // ---------------------------------------------------------------------------------------------

  /** Events that a task has taken out of the counters and not yet delivered or returned. */
  function InFlight(task: Task): nat {
    match task
    case Idle => 0
    case Visiting(_, collected, _, _) => collected
    case Mixing(_, found, collected, _, _) => found + collected
    case PuttingBack(_, unused, requested, _) => unused + requested
    case Switching(_, found) => found
  }

  function Held(tasks: seq<Task>): seq<nat> {
    seq(|tasks|, i requires 0 <= i < |tasks| => InFlight(tasks[i]))
  }

  function Bits(ds: seq<Delivery>): seq<nat> {
    seq(|ds|, i requires 0 <= i < |ds| => ds[i].bits)
  }

  function DeliveredBits(w: World): nat {
    Sum(Bits(w.deliveries))
  }

  /** A task never holds more than it asked for, and it asked for the events its bit limit stands for. */
  predicate TaskOk(cfg: Config, task: Task) {
    match task
    case Idle => true
    case Switching(_, _) => true
    case Visiting(_, collected, requested, limit) => collected <= requested == RequestedEvents(cfg, limit)
    case Mixing(_, _, collected, requested, limit) => collected <= requested == RequestedEvents(cfg, limit)
    case PuttingBack(_, _, requested, limit) => requested == RequestedEvents(cfg, limit)
  }

  /** Events still somewhere in the machine plus 1/256 of the rate-weighted bits already handed out. */
  function Ledger(cfg: Config, w: World): nat {
    cfg.rate * DeliveredBits(w) + 256 * (Sum(w.counters) + Sum(Held(w.tasks)))
  }

  ghost predicate Inv(cfg: Config, w: World) {
    && (forall t | 0 <= t < |w.tasks| :: TaskOk(cfg, w.tasks[t]))
    && (forall k | 0 <= k < |w.deliveries| :: w.deliveries[k].bits <= w.deliveries[k].limit)
    && Ledger(cfg, w) <= 256 * w.healthy
  }

  lemma HeldUpdate(w: World, t: nat, task: Task)
    requires t < |w.tasks|
    ensures Sum(Held(SetTask(w, t, task).tasks)) == Sum(Held(w.tasks)) - InFlight(w.tasks[t]) + InFlight(task)
    ensures Held(w.tasks)[t] <= Sum(Held(w.tasks))
  {
    assert Held(w.tasks[t := task]) == Held(w.tasks)[t := InFlight(task)];
    SumUpdate(Held(w.tasks), t, InFlight(task));
    SumAtLeast(Held(w.tasks), t);
  }

  lemma CounterUpdate(w: World, cpu: nat, v: u32)
    requires cpu < |w.counters|
    ensures Sum(SetCounter(w, cpu, v).counters) == Sum(w.counters) - w.counters[cpu] + v
    ensures w.counters[cpu] <= Sum(w.counters)
  {
    SumUpdate(w.counters, cpu, v);
    SumAtLeast(w.counters, cpu);
  }

  /** The credit for collected events is covered by those events and by the bits that were asked for. */
  lemma CreditBounds(cfg: Config, collected: u32, limit: u32)
    requires ValidConfig(cfg) && collected <= RequestedEvents(cfg, limit)
    ensures cfg.rate * Credit(cfg, collected) <= 256 * collected
    ensures Credit(cfg, collected) <= limit
  {
    var bits := DataToEntropy(collected, cfg.rate);
    MulOrder(cfg.rate, Credit(cfg, collected), bits);
    assert cfg.rate * bits <= cfg.rate * Add(limit, cfg.osr);
    MulCancel(bits, Add(limit, cfg.osr), cfg.rate);
  }

  lemma DeliverKeepsInv(cfg: Config, w: World, t: nat, bits: u32)
    requires ValidConfig(cfg) && Inv(cfg, w)
    requires t < |w.tasks|
    requires w.tasks[t].Idle? ==> bits == 0
    requires !w.tasks[t].Idle? ==> cfg.rate * bits <= 256 * InFlight(w.tasks[t])
    ensures forall limit: u32 | bits <= limit :: Inv(cfg, Deliver(w, t, Delivery(limit, bits)))
  {
    forall limit: u32 | bits <= limit
      ensures Inv(cfg, Deliver(w, t, Delivery(limit, bits)))
    {
      var d := Delivery(limit, bits);
      HeldUpdate(w, t, Idle);
      assert Bits(w.deliveries + [d]) == Bits(w.deliveries) + [bits as nat];
      SumAppend(Bits(w.deliveries), [bits as nat]);
      assert Sum([bits as nat]) == bits;
      assert cfg.rate * (DeliveredBits(w) + bits) == cfg.rate * DeliveredBits(w) + cfg.rate * bits;
    }
  }

  /** Giving a task no more than it held before, while the counters stay, keeps the ledger balanced. */
  lemma RetaskKeepsInv(cfg: Config, w: World, t: nat, task: Task)
    requires ValidConfig(cfg) && Inv(cfg, w)
    requires t < |w.tasks| && TaskOk(cfg, task) && InFlight(task) <= InFlight(w.tasks[t])
    ensures Inv(cfg, SetTask(w, t, task))
  {
    HeldUpdate(w, t, task);
  }

  /** Moving events between a counter and a task, losing some or none, keeps the ledger balanced. */
  lemma TransferKeepsInv(cfg: Config, w: World, cpu: nat, v: u32, t: nat, task: Task)
    requires ValidConfig(cfg) && Inv(cfg, w)
    requires cpu < |w.counters| && t < |w.tasks| && TaskOk(cfg, task)
    requires v + InFlight(task) <= w.counters[cpu] + InFlight(w.tasks[t])
    ensures Inv(cfg, SetTask(SetCounter(w, cpu, v), t, task))
  {
    CounterUpdate(w, cpu, v);
    HeldUpdate(w, t, task);
  }

  /** Every atomic operation keeps the ledger balanced. */
  lemma StepKeepsInv(cfg: Config, w: World, a: Action)
    requires ValidConfig(cfg) && Inv(cfg, w)
    ensures Inv(cfg, Step(cfg, w, a))
  {
    match a
    case HealthyEvent(cpu) =>
      if cpu < |w.counters| {
        CounterUpdate(w, cpu, Add(w.counters[cpu], 1));
      }
    case ZeroCounter(cpu) =>
      if cpu < |w.counters| {
        CounterUpdate(w, cpu, 0);
      }
    case SwitchTake(t, cpu, oldDigestBits) =>
      if t < |w.tasks| && w.tasks[t].Idle? && cpu < |w.counters| {
        var found: u32 := Min(w.counters[cpu], EntropyToData(oldDigestBits, cfg.rate));
        TransferKeepsInv(cfg, w, cpu, 0, t, Switching(cpu, found));
      }
    case SwitchPut(t) =>
      if t < |w.tasks| && w.tasks[t].Switching? && w.tasks[t].cpu < |w.counters| {
        var Switching(cpu, found) := w.tasks[t];
        TransferKeepsInv(cfg, w, cpu, Add(w.counters[cpu], found), t, Idle);
      }
    case _ =>
      HarvestStepKeepsInv(cfg, w, a);
  }

  lemma HarvestStepKeepsInv(cfg: Config, w: World, a: Action)
    requires ValidConfig(cfg) && Inv(cfg, w)
    requires a.Start? || a.Take? || a.Mix? || a.PutBack? || a.Finish?
    ensures Inv(cfg, Step(cfg, w, a))
  {
    var t := a.task;
    if t < |w.tasks| {
      assert TaskOk(cfg, w.tasks[t]);
      match w.tasks[t]
      case Idle =>
        if a.Start? {
          var limit: u32 := Min(a.digestBits, a.requestedBits);
          DeliverKeepsInv(cfg, w, t, 0);
          RetaskKeepsInv(cfg, w, t, Visiting(0, 0, RequestedEvents(cfg, limit), limit));
        }
      case Visiting(cpu, collected, requested, limit) =>
        if a.Take? && cpu < |w.counters| {
          TakeKeepsInv(cfg, w, t, a.outcome);
        } else if a.Finish? {
          CreditBounds(cfg, collected, limit);
          DeliverKeepsInv(cfg, w, t, if a.success then Credit(cfg, collected) else 0);
        }
      case Mixing(cpu, found, collected, requested, limit) =>
        if a.Mix? {
          MixKeepsInv(cfg, w, t, a.success);
        }
      case PuttingBack(cpu, unused, requested, limit) =>
        if a.PutBack? && cpu < |w.counters| {
          TransferKeepsInv(cfg, w, cpu, Add(w.counters[cpu], unused), t, Visiting(cpu + 1, requested, requested, limit));
        }
      case Switching(_, _) =>
    }
  }

  lemma TakeKeepsInv(cfg: Config, w: World, t: nat, outcome: Outcome)
    requires ValidConfig(cfg) && Inv(cfg, w)
    requires t < |w.tasks| && w.tasks[t].Visiting? && w.tasks[t].cpu < |w.counters|
    ensures Inv(cfg, TakeCounter(cfg, w, t, outcome))
  {
    var Visiting(cpu, collected, requested, limit) := w.tasks[t];
    assert TaskOk(cfg, w.tasks[t]);
    if outcome.Offline? {
      RetaskKeepsInv(cfg, w, t, Visiting(cpu + 1, collected, requested, limit));
    } else {
      var found := Found(cfg, w.counters[cpu], outcome);
      var left := LeftAfterTake(w.counters[cpu], outcome);
      TransferKeepsInv(cfg, w, cpu, left, t, Mixing(cpu, found, collected, requested, limit));
    }
  }

  lemma MixKeepsInv(cfg: Config, w: World, t: nat, success: bool)
    requires ValidConfig(cfg) && Inv(cfg, w)
    requires t < |w.tasks| && w.tasks[t].Mixing?
    ensures Inv(cfg, Step(cfg, w, Mix(t, success)))
  {
    var Mixing(cpu, found, collected, requested, limit) := w.tasks[t];
    assert TaskOk(cfg, w.tasks[t]);
    var sum := Add(collected, found);
    if !success {
      DeliverKeepsInv(cfg, w, t, 0);
    } else if sum > requested {
      RetaskKeepsInv(cfg, w, t, PuttingBack(cpu, sum - requested, requested, limit));
    } else {
      RetaskKeepsInv(cfg, w, t, Visiting(cpu + 1, sum, requested, limit));
    }
  }

  /** Boot: all counters zero, nothing under way, nothing delivered. */
  predicate Boot(w: World) {
    && (forall c | 0 <= c < |w.counters| :: w.counters[c] == 0)
    && (forall t | 0 <= t < |w.tasks| :: w.tasks[t] == Idle)
    && w.healthy == 0 && w.deliveries == []
  }

  lemma {:induction false} SumOfZeros(s: seq<nat>)
    requires forall i | 0 <= i < |s| :: s[i] == 0
    ensures Sum(s) == 0
  {
    if s != [] {
      SumOfZeros(s[1..]);
    }
  }

  lemma {:induction false} RunKeepsInv(cfg: Config, w: World, actions: seq<Action>)
    requires ValidConfig(cfg) && Inv(cfg, w)
    ensures Inv(cfg, Run(cfg, w, actions))
    decreases |actions|
  {
    if actions != [] {
      StepKeepsInv(cfg, w, actions[0]);
      RunKeepsInv(cfg, Step(cfg, w, actions[0]), actions[1..]);
    }
  }

  /**
   Whole-run conservation: however events, resets, hash switches and harvests interleave, on any
   number of CPUs and for every rate (including those whose 32-bit conversions wrap), the bits ever
   delivered are paid for by events that passed the health test, and no delivery exceeds its request.
   */
  lemma EntropyIsConserved(cfg: Config, boot: World, actions: seq<Action>)
    requires ValidConfig(cfg) && Boot(boot)
    ensures var w := Run(cfg, boot, actions);
      && cfg.rate * DeliveredBits(w) + 256 * (Sum(w.counters) + Sum(Held(w.tasks))) <= 256 * w.healthy
      && forall k | 0 <= k < |w.deliveries| :: w.deliveries[k].bits <= w.deliveries[k].limit
  {
    SumOfZeros(boot.counters);
    SumOfZeros(Held(boot.tasks));
    RunKeepsInv(cfg, boot, actions);
  }
}
