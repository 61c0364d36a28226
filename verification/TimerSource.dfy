/**
 A timer entropy source run to completion: the harvest loop, the estimator, hash switching and reset
 of lrng_es_irq.c and lrng_es_sched.c as methods over the per-CPU counters, and what they promise each
 other. Without interference a harvest is one particular run of the machine in EntropyLedger.
 */
module TimerSource {
  import opened Words
  import opened Conversion
  import opened EntropyLedger

  /** A CPU as one harvest meets it: the per-CPU hash calls, then mixing its digest into the result. */
  datatype Visit = Visit(outcome: Outcome, mixOk: bool)

  /** Counters and collected events at some point of a harvest; `failed` once it was abandoned. */
  datatype Harvest = Harvest(counters: seq<u32>, collected: u32, failed: bool)

  /** One iteration of the harvest loop. */
  function VisitCpu(cfg: Config, visit: Visit, counters: seq<u32>, requested: u32, cpu: nat, collected: u32): (h: Harvest)
    requires cpu < |counters|
    ensures |h.counters| == |counters|
  {
    if visit.outcome.Offline? then Harvest(counters, collected, false)
    else
      var left := LeftAfterTake(counters[cpu], visit.outcome);
      var sum := Add(collected, Found(cfg, counters[cpu], visit.outcome));
      if !visit.mixOk then Harvest(counters[cpu := left], collected, true)
      else if sum > requested then Harvest(counters[cpu := Add(left, sum - requested)], requested, false)
      else Harvest(counters[cpu := left], sum, false)
  }

  /** The rest of the loop, from `cpu` on. */
  function HarvestFrom(cfg: Config, visits: seq<Visit>, counters: seq<u32>, requested: u32,
                       cpu: nat, collected: u32): (h: Harvest)
    requires |visits| == |counters| && cpu <= |counters|
    ensures |h.counters| == |counters|
    decreases |counters| - cpu
  {
    if cpu == |counters| then Harvest(counters, collected, false)
    else
      var h := VisitCpu(cfg, visits[cpu], counters, requested, cpu, collected);
      if h.failed then h else HarvestFrom(cfg, visits, h.counters, requested, cpu + 1, h.collected)
  }

  /** Sum over the first n CPUs of what the estimator counts: online counters, each capped. */
  function CapSum(cap: u32, online: seq<bool>, counters: seq<u32>, n: nat): nat
    requires n <= |online| == |counters|
  {
    if n == 0 then 0
    else CapSum(cap, online, counters, n - 1) + if online[n - 1] then Min(cap, counters[n - 1]) else 0
  }

  /** The estimate of available entropy for given counters. */
  function Available(cfg: Config, digestBits: u32, online: seq<bool>, counters: seq<u32>): u32
    requires ValidConfig(cfg) && |online| == |counters|
  {
    Credit(cfg, Wrap(CapSum(CpuCap(cfg, digestBits), online, counters, |counters|)))
  }

  /** lrng_irq_es_init / lrng_sched_es_init: the rate in force, from the built-in and the requested one. */
  function InitialRate(builtIn: u32, requested: u32, highResTimer: bool): (rate: u32)
    ensures rate >= builtIn && rate >= requested
    ensures highResTimer ==> rate == builtIn || rate == requested
    ensures !highResTimer && 10 * builtIn < TWO32 && 10 * requested < TWO32 ==> rate == 10 * builtIn || rate == 10 * requested
  {
    var r: u32 := if builtIn > requested then builtIn else requested;
    if highResTimer then r
    else
      var oversampled := Wrap(r * 10);
      if r < oversampled then oversampled else r
  }

  class Source {
    const cfg: Config
    const counters: array<u32>

    constructor (cfg: Config, cpus: nat)
      ensures this.cfg == cfg && fresh(counters) && counters.Length == cpus
      ensures forall c | 0 <= c < cpus :: counters[c] == 0
    {
      this.cfg := cfg;
      counters := new u32[cpus](_ => 0);
    }

    /** A time stamp that passed the health test was stored on the given CPU. */
    method HealthyEvent(cpu: nat)
      requires cpu < counters.Length
      modifies counters
      ensures counters[..] == old(counters[..])[cpu := Add(old(counters[cpu]), 1)]
    {
      counters[cpu] := Add(counters[cpu], 1);
    }

    /** lrng_irq_reset and lrng_sched_reset: the counters of the online CPUs. */
    method Reset(online: seq<bool>)
      requires |online| == counters.Length
      modifies counters
      ensures forall c | 0 <= c < counters.Length :: counters[c] == if online[c] then 0 else old(counters[c])
    {
      for cpu := 0 to counters.Length
        invariant forall c | 0 <= c < counters.Length :: counters[c] == if c < cpu && online[c] then 0 else old(counters[c])
      {
        if online[cpu] {
          counters[cpu] := 0;
        }
      }
    }

    /** curr_entropy: unused events in all per-CPU pools, as bits. */
    method AvailEntropy(digestBits: u32, online: seq<bool>, startupComplete: bool) returns (bits: u32)
      requires ValidConfig(cfg) && |online| == counters.Length
      ensures bits == if startupComplete then Available(cfg, digestBits, online, counters[..]) else 0
    {
      if !startupComplete {
        return 0;
      }
      var cap := EntropyToData(digestBits, cfg.rate);
      if cfg.capArray {
        cap := Min(cap, cfg.arraySize);
      }
      var events: u32 := 0;
      for cpu := 0 to counters.Length
        invariant events == Wrap(CapSum(cap, online, counters[..], cpu))
      {
        if online[cpu] {
          WrapOfWrap(CapSum(cap, online, counters[..], cpu), Min(cap, counters[cpu]));
          events := Add(events, Min(cap, counters[cpu]));
        }
      }
      bits := ReduceByOsr(DataToEntropy(events, cfg.rate), cfg.osr);
    }

    /** get_ent: harvest every CPU, put the surplus back, and credit the rest. */
    method PoolHash(requestedBits: u32, digestBits: u32, startupComplete: bool, initOk: bool,
                    visits: seq<Visit>, finalOk: bool) returns (bits: u32)
      requires ValidConfig(cfg) && |visits| == counters.Length
      modifies counters
      ensures !startupComplete || !initOk ==> bits == 0 && counters[..] == old(counters[..])
      ensures startupComplete && initOk ==>
        var h := HarvestFrom(cfg, visits, old(counters[..]),
                             RequestedEvents(cfg, Min(digestBits, requestedBits)), 0, 0);
        && counters[..] == h.counters
        && bits == if h.failed || !finalOk then 0 else Credit(cfg, h.collected)
    {
      if !startupComplete || !initOk {
        return 0;
      }
      var limit: u32 := Min(digestBits, requestedBits);
      var requested := EntropyToData(Add(limit, cfg.osr), cfg.rate);
      var collected: u32 := 0;
      for cpu := 0 to counters.Length
        invariant HarvestFrom(cfg, visits, old(counters[..]), requested, 0, 0)
               == HarvestFrom(cfg, visits, counters[..], requested, cpu, collected)
      {
        var Visit(outcome, mixOk) := visits[cpu];
        if outcome.Offline? {
          continue;
        }
        ghost var before := counters[..];
        var found := Found(cfg, counters[cpu], outcome);
        counters[cpu] := LeftAfterTake(counters[cpu], outcome);
        assert counters[..] == before[cpu := LeftAfterTake(before[cpu], outcome)];
        if !mixOk {
          return 0;
        }
        collected := Add(collected, found);
        if collected > requested {
          ghost var taken := counters[..];
          counters[cpu] := Add(counters[cpu], collected - requested);
          assert counters[..] == before[cpu := Add(taken[cpu], collected - requested)];
          collected := requested;
        }
      }
      if !finalOk {
        return 0;
      }
      bits := ReduceByOsr(DataToEntropy(collected, cfg.rate), cfg.osr);
    }

    /**
     switch_hash: cap each counter of the switched CPUs to what the old digest could hold. `concerned`
     marks the online CPUs of the node that do not use the new hash yet; `hashOk` the outcome per CPU.
     A failing CPU ends the switch; `done` CPUs were passed.
     */
    method SwitchHash(oldDigestBits: u32, concerned: seq<bool>, hashOk: seq<bool>) returns (done: nat)
      requires |concerned| == |hashOk| == counters.Length
      modifies counters
      ensures done <= counters.Length
      ensures forall c | 0 <= c < done :: concerned[c] ==> hashOk[c]
      ensures done < counters.Length ==> concerned[done] && !hashOk[done]
      ensures counters[..] == Switched(old(counters[..]), EntropyToData(oldDigestBits, cfg.rate), concerned, done)
    {
      var cap := EntropyToData(oldDigestBits, cfg.rate);
      done := 0;
      while done < counters.Length
        invariant done <= counters.Length
        invariant forall c | 0 <= c < done :: concerned[c] ==> hashOk[c]
        invariant counters[..] == Switched(old(counters[..]), cap, concerned, done)
      {
        if concerned[done] {
          if !hashOk[done] {
            return;
          }
          var found: u32 := Min(counters[done], cap);
          counters[done] := 0;
          counters[done] := Add(counters[done], found);
        }
        done := done + 1;
      }
    }
  }

  /** Counters after the first n CPUs were passed: those concerned are capped. */
  function Switched(counters: seq<u32>, cap: u32, concerned: seq<bool>, n: nat): (r: seq<u32>)
    requires n <= |counters| == |concerned|
    ensures |r| == |counters|
    ensures forall c | 0 <= c < |r| :: r[c] == if c < n && concerned[c] then Min(counters[c], cap) else counters[c]
  {
    seq(|counters|, c requires 0 <= c < |counters| =>
      if c < n && concerned[c] then Min(counters[c], cap) else counters[c])
  }

  // ---------------------------------------------------------------------------------------------
  // A sequential harvest is a run of the ledger machine
  // ---------------------------------------------------------------------------------------------

  /** The atomic operations of one iteration by task t, when nothing interferes. */
  function VisitScript(cfg: Config, visit: Visit, counter: u32, requested: u32, collected: u32, t: nat): seq<Action> {
    [Take(t, visit.outcome)] +
    if visit.outcome.Offline? then []
    else
      [Mix(t, visit.mixOk)] +
      if visit.mixOk && Add(collected, Found(cfg, counter, visit.outcome)) > requested then [PutBack(t)] else []
  }

  /** The atomic operations of task t from `cpu` on, when nothing interferes. */
  function Script(cfg: Config, visits: seq<Visit>, counters: seq<u32>, requested: u32,
                  cpu: nat, collected: u32, t: nat, finalOk: bool): seq<Action>
    requires |visits| == |counters| && cpu <= |counters|
    decreases |counters| - cpu
  {
    if cpu == |counters| then [Finish(t, finalOk)]
    else
      var h := VisitCpu(cfg, visits[cpu], counters, requested, cpu, collected);
      VisitScript(cfg, visits[cpu], counters[cpu], requested, collected, t) +
      if h.failed then [] else Script(cfg, visits, h.counters, requested, cpu + 1, h.collected, t, finalOk)
  }

  /** The world in which a harvest by task t has ended. */
  function Harvested(cfg: Config, w: World, t: nat, h: Harvest, limit: u32, finalOk: bool): World
    requires ValidConfig(cfg) && t < |w.tasks|
  {
    Deliver(w.(counters := h.counters), t,
            Delivery(limit, if h.failed || !finalOk then 0 else Credit(cfg, h.collected)))
  }

  lemma RunOne(cfg: Config, w: World, a: Action, rest: seq<Action>)
    requires ValidConfig(cfg)
    ensures Run(cfg, w, [a] + rest) == Run(cfg, Step(cfg, w, a), rest)
  {
    assert ([a] + rest)[1..] == rest;
  }

  lemma RunNone(cfg: Config, w: World)
    requires ValidConfig(cfg)
    ensures Run(cfg, w, []) == w
  {
  }

  /** The world after one iteration that ended in h. */
  function Visited(cfg: Config, w: World, t: nat, h: Harvest): World
    requires ValidConfig(cfg) && t < |w.tasks| && w.tasks[t].Visiting?
  {
    var Visiting(cpu, collected, requested, limit) := w.tasks[t];
    if h.failed then Harvested(cfg, w, t, h, limit, true)
    else w.(counters := h.counters, tasks := w.tasks[t := Visiting(cpu + 1, h.collected, requested, limit)])
  }

  /** One iteration of the loop is the same as its atomic operations one after the other. */
  lemma VisitScriptRuns(cfg: Config, w: World, visit: Visit, t: nat)
    requires ValidConfig(cfg)
    requires t < |w.tasks| && w.tasks[t].Visiting? && w.tasks[t].cpu < |w.counters|
    ensures var Visiting(cpu, collected, requested, limit) := w.tasks[t];
      Run(cfg, w, VisitScript(cfg, visit, w.counters[cpu], requested, collected, t))
      == Visited(cfg, w, t, VisitCpu(cfg, visit, w.counters, requested, cpu, collected))
  {
    hide EntropyToData, Run, Step, TakeCounter, Visited, VisitCpu, Found;
    var Visiting(cpu, collected, requested, limit) := w.tasks[t];
    var rest := VisitScript(cfg, visit, w.counters[cpu], requested, collected, t)[1..];
    assert VisitScript(cfg, visit, w.counters[cpu], requested, collected, t) == [Take(t, visit.outcome)] + rest;
    TakeRuns(cfg, w, visit.outcome, t, rest);
    VisitResult(cfg, w, visit, t);
    if visit.outcome.Offline? {
      assert rest == [];
      RunNone(cfg, SetTask(w, t, Visiting(cpu + 1, collected, requested, limit)));
    } else {
      MixScriptRuns(cfg, AfterTake(cfg, w, visit.outcome, t), visit.mixOk, t);
      if visit.mixOk && Add(collected, Found(cfg, w.counters[cpu], visit.outcome)) > requested {
        assert rest == [Mix(t, true)] + [PutBack(t)];
      } else {
        assert rest == [Mix(t, visit.mixOk)];
      }
    }
  }

  /** The world after the counter was taken, before the digest is mixed in. */
  function AfterTake(cfg: Config, w: World, outcome: Outcome, t: nat): World
    requires t < |w.tasks| && w.tasks[t].Visiting? && w.tasks[t].cpu < |w.counters|
  {
    var Visiting(cpu, collected, requested, limit) := w.tasks[t];
    SetTask(SetCounter(w, cpu, LeftAfterTake(w.counters[cpu], outcome)), t,
            Mixing(cpu, Found(cfg, w.counters[cpu], outcome), collected, requested, limit))
  }

  lemma VisitResult(cfg: Config, w: World, visit: Visit, t: nat)
    requires ValidConfig(cfg)
    requires t < |w.tasks| && w.tasks[t].Visiting? && w.tasks[t].cpu < |w.counters|
    ensures var Visiting(cpu, collected, requested, limit) := w.tasks[t];
      var w1 := AfterTake(cfg, w, visit.outcome, t);
      var sum := Add(collected, Found(cfg, w.counters[cpu], visit.outcome));
      Visited(cfg, w, t, VisitCpu(cfg, visit, w.counters, requested, cpu, collected)) ==
        if visit.outcome.Offline? then SetTask(w, t, Visiting(cpu + 1, collected, requested, limit))
        else if !visit.mixOk then Deliver(w1, t, Delivery(limit, 0))
        else if sum > requested then
          SetTask(SetCounter(w1, cpu, Add(w1.counters[cpu], sum - requested)), t,
                  Visiting(cpu + 1, requested, requested, limit))
        else SetTask(w1, t, Visiting(cpu + 1, sum, requested, limit))
  {
    hide EntropyToData, Found;
  }

  /** The first half of an iteration: take the counter. */
  lemma TakeRuns(cfg: Config, w: World, outcome: Outcome, t: nat, rest: seq<Action>)
    requires ValidConfig(cfg)
    requires t < |w.tasks| && w.tasks[t].Visiting? && w.tasks[t].cpu < |w.counters|
    ensures var Visiting(cpu, collected, requested, limit) := w.tasks[t];
      Run(cfg, w, [Take(t, outcome)] + rest) == Run(cfg,
        if outcome.Offline? then SetTask(w, t, Visiting(cpu + 1, collected, requested, limit))
        else AfterTake(cfg, w, outcome, t),
        rest)
  {
    hide Run, Found;
    RunOne(cfg, w, Take(t, outcome), rest);
  }

  /** The second half of an iteration: mix the digest, and put the surplus back. */
  lemma MixScriptRuns(cfg: Config, w: World, mixOk: bool, t: nat)
    requires ValidConfig(cfg)
    requires t < |w.tasks| && w.tasks[t].Mixing? && w.tasks[t].cpu < |w.counters|
    ensures var Mixing(cpu, found, collected, requested, limit) := w.tasks[t];
      var sum := Add(collected, found);
      && (!mixOk ==> Run(cfg, w, [Mix(t, false)]) == Deliver(w, t, Delivery(limit, 0)))
      && (mixOk && sum <= requested ==>
            Run(cfg, w, [Mix(t, true)]) == SetTask(w, t, Visiting(cpu + 1, sum, requested, limit)))
      && (mixOk && sum > requested ==>
            Run(cfg, w, [Mix(t, true)] + [PutBack(t)])
            == SetTask(SetCounter(w, cpu, Add(w.counters[cpu], sum - requested)), t,
                       Visiting(cpu + 1, requested, requested, limit)))
  {
    var Mixing(cpu, found, collected, requested, limit) := w.tasks[t];
    hide EntropyToData, DataToEntropy, Run, SetTask, Deliver;
    var sum := Add(collected, found);
    RunOne(cfg, w, Mix(t, mixOk), []);
    RunNone(cfg, Step(cfg, w, Mix(t, mixOk)));
    if mixOk && sum > requested {
      var w2 := SetTask(w, t, PuttingBack(cpu, sum - requested, requested, limit));
      RunOne(cfg, w, Mix(t, true), [PutBack(t)]);
      RunOne(cfg, w2, PutBack(t), []);
      RunNone(cfg, Step(cfg, w2, PutBack(t)));
    }
  }

  lemma {:induction false} ScriptHarvests(cfg: Config, w: World, visits: seq<Visit>, t: nat, finalOk: bool)
    requires ValidConfig(cfg) && |visits| == |w.counters|
    requires t < |w.tasks| && w.tasks[t].Visiting? && w.tasks[t].cpu <= |w.counters|
    ensures var Visiting(cpu, collected, requested, limit) := w.tasks[t];
      Run(cfg, w, Script(cfg, visits, w.counters, requested, cpu, collected, t, finalOk))
      == Harvested(cfg, w, t, HarvestFrom(cfg, visits, w.counters, requested, cpu, collected), limit, finalOk)
    decreases |w.counters| - w.tasks[t].cpu
  {
    var Visiting(cpu, collected, requested, limit) := w.tasks[t];
    hide EntropyToData, DataToEntropy, VisitCpu, VisitScript, Run, Harvested, Found, LeftAfterTake, Credit, Sum;
    if cpu == |w.counters| {
      FinishRuns(cfg, w, t, finalOk);
    } else {
      ScriptUnfolds(cfg, visits, w.counters, requested, cpu, collected, t, finalOk);
      hide Step, Script, HarvestFrom;
      var h := VisitCpu(cfg, visits[cpu], w.counters, requested, cpu, collected);
      var first := VisitScript(cfg, visits[cpu], w.counters[cpu], requested, collected, t);
      var rest := if h.failed then [] else Script(cfg, visits, h.counters, requested, cpu + 1, h.collected, t, finalOk);
      VisitScriptRuns(cfg, w, visits[cpu], t);
      RunAppend(cfg, w, first, rest);
      if h.failed {
        FailedHarvest(cfg, w, t, h, limit, finalOk);
        RunNone(cfg, Visited(cfg, w, t, h));
      } else {
        var w1 := Visited(cfg, w, t, h);
        VisitGoesOn(cfg, w, t, h);
        hide Visited, SetTask;
        ScriptHarvests(cfg, w1, visits, t, finalOk);
        SameHarvest(cfg, w, w1, t, HarvestFrom(cfg, visits, w.counters, requested, cpu, collected), limit, finalOk);
      }
    }
  }

  lemma VisitGoesOn(cfg: Config, w: World, t: nat, h: Harvest)
    requires ValidConfig(cfg) && t < |w.tasks| && w.tasks[t].Visiting? && !h.failed
    ensures var w1 := Visited(cfg, w, t, h);
      && w1.counters == h.counters && |w1.tasks| == |w.tasks| && w1 == w.(counters := w1.counters, tasks := w1.tasks)
      && w1.tasks == w.tasks[t := w1.tasks[t]]
      && w1.tasks[t] == Visiting(w.tasks[t].cpu + 1, h.collected, w.tasks[t].requested, w.tasks[t].limit)
  {
  }

  lemma ScriptUnfolds(cfg: Config, visits: seq<Visit>, counters: seq<u32>, requested: u32,
                      cpu: nat, collected: u32, t: nat, finalOk: bool)
    requires |visits| == |counters| && cpu < |counters|
    ensures var h := VisitCpu(cfg, visits[cpu], counters, requested, cpu, collected);
      && Script(cfg, visits, counters, requested, cpu, collected, t, finalOk)
         == VisitScript(cfg, visits[cpu], counters[cpu], requested, collected, t)
            + (if h.failed then [] else Script(cfg, visits, h.counters, requested, cpu + 1, h.collected, t, finalOk))
      && HarvestFrom(cfg, visits, counters, requested, cpu, collected)
         == if h.failed then h else HarvestFrom(cfg, visits, h.counters, requested, cpu + 1, h.collected)
  {
    hide VisitCpu, VisitScript;
  }

  lemma FinishRuns(cfg: Config, w: World, t: nat, finalOk: bool)
    requires ValidConfig(cfg) && t < |w.tasks| && w.tasks[t].Visiting? && w.tasks[t].cpu == |w.counters|
    ensures Run(cfg, w, [Finish(t, finalOk)])
         == Harvested(cfg, w, t, Harvest(w.counters, w.tasks[t].collected, false), w.tasks[t].limit, finalOk)
  {
    hide EntropyToData, DataToEntropy, Run;
    RunOne(cfg, w, Finish(t, finalOk), []);
    assert [Finish(t, finalOk)] + [] == [Finish(t, finalOk)];
    RunNone(cfg, Step(cfg, w, Finish(t, finalOk)));
  }

  lemma FailedHarvest(cfg: Config, w: World, t: nat, h: Harvest, limit: u32, finalOk: bool)
    requires ValidConfig(cfg) && t < |w.tasks| && h.failed
    ensures Harvested(cfg, w, t, h, limit, true) == Harvested(cfg, w, t, h, limit, finalOk)
  {
  }

  lemma SameHarvest(cfg: Config, w: World, w': World, t: nat, h: Harvest, limit: u32, finalOk: bool)
    requires ValidConfig(cfg) && t < |w.tasks|
    requires w' == w.(counters := w'.counters, tasks := w'.tasks)
    requires |w'.tasks| == |w.tasks| && w'.tasks == w.tasks[t := w'.tasks[t]]
    ensures Harvested(cfg, w', t, h, limit, finalOk) == Harvested(cfg, w, t, h, limit, finalOk)
  {
    hide EntropyToData, DataToEntropy;
    assert w'.tasks[t := Idle] == w.tasks[t := Idle];
  }

  /** What PoolHash computes is what the ledger machine does when one task runs undisturbed. */
  lemma SequentialHarvestIsARun(cfg: Config, w: World, t: nat, requestedBits: u32, digestBits: u32,
                                visits: seq<Visit>, finalOk: bool) returns (actions: seq<Action>)
    requires ValidConfig(cfg) && |visits| == |w.counters|
    requires t < |w.tasks| && w.tasks[t].Idle?
    ensures var limit: u32 := Min(digestBits, requestedBits);
      Run(cfg, w, actions)
      == Harvested(cfg, w, t, HarvestFrom(cfg, visits, w.counters, RequestedEvents(cfg, limit), 0, 0), limit, finalOk)
  {
    var limit: u32 := Min(digestBits, requestedBits);
    var start := Start(t, requestedBits, digestBits, true, true);
    var w1 := Step(cfg, w, start);
    var rest := Script(cfg, visits, w.counters, RequestedEvents(cfg, limit), 0, 0, t, finalOk);
    actions := [start] + rest;
    RunOne(cfg, w, start, rest);
    ScriptHarvests(cfg, w1, visits, t, finalOk);
  }

  // ---------------------------------------------------------------------------------------------
  // The estimator and the collector agree
  // ---------------------------------------------------------------------------------------------

  /** Visits in which every hash call succeeds and all digests have the given size. */
  function HealthyVisits(digestBits: u32, online: seq<bool>): (visits: seq<Visit>)
    ensures |visits| == |online|
  {
    seq(|online|, i requires 0 <= i < |online| =>
      Visit(if online[i] then Hashed(digestBits, true) else Offline, true))
  }

  /** Events left in the online counters from `n` on. */
  function LeftFrom(online: seq<bool>, counters: seq<u32>, n: nat): nat
    requires |online| == |counters| && n <= |counters|
    decreases |counters| - n
  {
    if n == |counters| then 0
    else (if online[n] then counters[n] else 0) + LeftFrom(online, counters, n + 1)
  }

  lemma {:induction false} CapSumAgree(cap: u32, online: seq<bool>, a: seq<u32>, b: seq<u32>, n: nat, m: nat)
    requires n <= m <= |online| == |a| == |b| && a[n..] == b[n..]
    ensures CapSum(cap, online, a, m) - CapSum(cap, online, a, n) == CapSum(cap, online, b, m) - CapSum(cap, online, b, n)
    decreases m
  {
    if n < m {
      assert a[m - 1] == a[n..][m - 1 - n] == b[n..][m - 1 - n] == b[m - 1];
      CapSumAgree(cap, online, a, b, n, m - 1);
    }
  }

  lemma {:induction false} CapSumMonotone(cap: u32, online: seq<bool>, counters: seq<u32>, n: nat, m: nat)
    requires n <= m <= |online| == |counters|
    ensures CapSum(cap, online, counters, n) <= CapSum(cap, online, counters, m)
    decreases m
  {
    if n < m {
      CapSumMonotone(cap, online, counters, n, m - 1);
    }
  }

  /** One healthy visit with the counter at most `cap` times counted, starting from `collected` events. */
  lemma HealthyVisit(cfg: Config, digestBits: u32, counters: seq<u32>, requested: u32, cpu: nat, collected: u32)
    requires cpu < |counters| && collected <= requested && 256 * requested < TWO32
    ensures var h := VisitCpu(cfg, Visit(Hashed(digestBits, true), true), counters, requested, cpu, collected);
      var found: u32 := Min(CpuCap(cfg, digestBits), counters[cpu]);
      && !h.failed && h.collected == Min(requested, collected + found)
      && h.counters == counters[cpu := collected + found - h.collected]
  {
    assert 256 * CpuCap(cfg, digestBits) < TWO32;
  }

  /** A harvest from `cpu` on touches neither the CPUs before it nor the ones that are offline. */
  lemma {:induction false} HarvestFrame(cfg: Config, visits: seq<Visit>, counters: seq<u32>, requested: u32,
                                        cpu: nat, collected: u32)
    requires |visits| == |counters| && cpu <= |counters|
    ensures var h := HarvestFrom(cfg, visits, counters, requested, cpu, collected);
      forall c | 0 <= c < |counters| && (c < cpu || visits[c].outcome.Offline?) :: h.counters[c] == counters[c]
    decreases |counters| - cpu
  {
    if cpu < |counters| {
      var v := VisitCpu(cfg, visits[cpu], counters, requested, cpu, collected);
      HarvestFrame(cfg, visits, v.counters, requested, cpu + 1, v.collected);
    }
  }

  /** What the visits from `cpu` on may count in total. */
  function Countable(cfg: Config, digestBits: u32, online: seq<bool>, counters: seq<u32>, cpu: nat): int
    requires |online| == |counters| && cpu <= |counters|
  {
    var cap := CpuCap(cfg, digestBits);
    CapSum(cap, online, counters, |counters|) - CapSum(cap, online, counters, cpu)
  }

  lemma CountableStep(cfg: Config, digestBits: u32, online: seq<bool>, a: seq<u32>, b: seq<u32>, cpu: nat)
    requires |online| == |a| == |b| && cpu < |a| && a[cpu + 1..] == b[cpu + 1..]
    ensures var now: nat := if online[cpu] then Min(CpuCap(cfg, digestBits), a[cpu]) else 0;
      Countable(cfg, digestBits, online, a, cpu) == now + Countable(cfg, digestBits, online, b, cpu + 1)
    ensures Countable(cfg, digestBits, online, b, cpu + 1) >= 0
  {
    var cap := CpuCap(cfg, digestBits);
    CapSumAgree(cap, online, a, b, cpu + 1, |a|);
    CapSumMonotone(cap, online, b, cpu + 1, |b|);
  }

  /**
   A quiescent harvest keeps the smaller of the request and everything it may count; what it does not
   keep stays in the counters.
   */
  lemma {:induction false} HarvestCollects(cfg: Config, digestBits: u32, online: seq<bool>, counters: seq<u32>,
                                           requested: u32, cpu: nat, collected: u32)
    requires |online| == |counters| && cpu <= |counters| && collected <= requested
    requires 256 * requested < TWO32
    ensures var h := HarvestFrom(cfg, HealthyVisits(digestBits, online), counters, requested, cpu, collected);
      var total := collected + Countable(cfg, digestBits, online, counters, cpu);
      && !h.failed
      && h.collected == Min(requested, total)
      && h.collected + LeftFrom(online, h.counters, cpu) == total
    decreases |counters| - cpu
  {
    hide VisitCpu, Countable;
    if cpu == |counters| {
      NothingCountable(cfg, digestBits, online, counters);
    } else {
      var visits := HealthyVisits(digestBits, online);
      var v := VisitCpu(cfg, visits[cpu], counters, requested, cpu, collected);
      VisitCounts(cfg, digestBits, online, counters, requested, cpu, collected);
      HarvestCollects(cfg, digestBits, online, v.counters, requested, cpu + 1, v.collected);
      HarvestFrame(cfg, visits, v.counters, requested, cpu + 1, v.collected);
    }
  }

  lemma NothingCountable(cfg: Config, digestBits: u32, online: seq<bool>, counters: seq<u32>)
    requires |online| == |counters|
    ensures Countable(cfg, digestBits, online, counters, |counters|) == 0
  {
  }

  /** One visit of a quiescent harvest: what it moves from the counter to the collected events. */
  lemma VisitCounts(cfg: Config, digestBits: u32, online: seq<bool>, counters: seq<u32>,
                    requested: u32, cpu: nat, collected: u32)
    requires |online| == |counters| && cpu < |counters| && collected <= requested && 256 * requested < TWO32
    ensures var v := VisitCpu(cfg, HealthyVisits(digestBits, online)[cpu], counters, requested, cpu, collected);
      var before := collected + Countable(cfg, digestBits, online, counters, cpu);
      var after := v.collected + Countable(cfg, digestBits, online, v.counters, cpu + 1);
      && !v.failed && v.collected <= requested
      && before == after + (if online[cpu] then v.counters[cpu] else 0)
      && (v.collected < requested ==> before == after)
      && v.collected <= after
  {
    hide CpuCap, CapSum, Countable;
    var v := VisitCpu(cfg, HealthyVisits(digestBits, online)[cpu], counters, requested, cpu, collected);
    if online[cpu] {
      HealthyVisit(cfg, digestBits, counters, requested, cpu, collected);
    }
    CountableStep(cfg, digestBits, online, counters, v.counters, cpu);
  }

  lemma CreditMonotone(cfg: Config, a: u32, b: u32)
    requires ValidConfig(cfg) && a <= b && 256 * b < TWO32
    ensures Credit(cfg, a) <= Credit(cfg, b)
  {
    QuotientMonotone(a * 256, b * 256, cfg.rate);
  }

  /**
   The estimator and the collector are separate loops with separate conversions. For quiescent
   counters, equal digests and working hash calls, as long as the counted events times 256 fit in 32
   bits, a harvest is credited exactly the smaller of the estimate and the credit for the request.
   */
  lemma EstimatorEqualsCollector(cfg: Config, digestBits: u32, requestedBits: u32, online: seq<bool>, counters: seq<u32>)
    requires ValidConfig(cfg) && |online| == |counters|
    requires 256 * CapSum(CpuCap(cfg, digestBits), online, counters, |counters|) < TWO32
    ensures var requested := RequestedEvents(cfg, Min(digestBits, requestedBits));
      var h := HarvestFrom(cfg, HealthyVisits(digestBits, online), counters, requested, 0, 0);
      && !h.failed
      && Credit(cfg, h.collected) == Min(Credit(cfg, requested), Available(cfg, digestBits, online, counters))
      && h.collected + LeftFrom(online, h.counters, 0) == CapSum(CpuCap(cfg, digestBits), online, counters, |counters|)
      && forall c | 0 <= c < |counters| && !online[c] :: h.counters[c] == counters[c]
  {
    var requested := RequestedEvents(cfg, Min(digestBits, requestedBits));
    var total := CapSum(CpuCap(cfg, digestBits), online, counters, |counters|);
    assert 256 * requested < TWO32;
    hide EntropyToData, RequestedEvents, CpuCap, HarvestFrom, Credit;
    HarvestCollects(cfg, digestBits, online, counters, requested, 0, 0);
    HarvestFrame(cfg, HealthyVisits(digestBits, online), counters, requested, 0, 0);
    if requested <= total {
      CreditMonotone(cfg, requested, total);
    } else {
      CreditMonotone(cfg, total, requested);
    }
  }
}
