/**
 Filling the seed buffer (lrng_es_mgr.c) from any set of sources: the gate that compares the estimated
 entropy with 128 bits, and what the sources then deliver.

 Setting: no SP800-90C oversampling, sources that do not fail, no concurrent events, and one digest size
 everywhere. `digestBits` is that digest, and `strength` the security strength that is requested.
 */
module SeedBuffer {
  import opened Words
  import opened Conversion
  import opened EntropyLedger
  import opened TimerSource
  import AuxPool
  import D = DrngManager

  /** LRNG_MIN_SEED_ENTROPY_BITS */
  const MIN_SEED_BITS: u32 := 128

  datatype EntropySource =
    | Timer(cfg: Config, online: seq<bool>, counters: seq<u32>)
    | Fast(rate: u32)          // Jitter RNG, CPU, kernel RNG: bits of entropy per 256 bits of data
    | Aux(bits: u32)

  /** lrng_security_strength */
  function SecurityStrength(digestBits: u32): u32 {
    Min(STRENGTH_BITS, digestBits)
  }

  /** lrng_fast_noise_entropylevel */
  function FastLevel(rate: u32, requestedBits: u32): u32 {
    assert rate * requestedBits >= 0;
    Min(Wrap(rate * requestedBits) / STRENGTH_BITS, requestedBits)
  }

  predicate ValidSource(s: EntropySource) {
    s.Timer? ==> ValidConfig(s.cfg) && s.cfg.osr == 0 && |s.online| == |s.counters|
  }

  /** curr_entropy */
  function Estimate(s: EntropySource, digestBits: u32): u32
    requires ValidSource(s)
  {
    match s
    case Timer(cfg, online, counters) => Available(cfg, digestBits, online, counters)
    case Fast(rate) => FastLevel(rate, SecurityStrength(digestBits))
    case Aux(bits) => Min(digestBits, bits)
  }

  /** get_ent: the source afterwards and the bits it delivers. */
  function Collect(s: EntropySource, digestBits: u32, requestedBits: u32): (EntropySource, u32)
    requires ValidSource(s)
  {
    match s
    case Timer(cfg, online, counters) =>
      var h := HarvestFrom(cfg, HealthyVisits(digestBits, online), counters,
                           RequestedEvents(cfg, Min(digestBits, requestedBits)), 0, 0);
      (Timer(cfg, online, h.counters), if h.failed then 0 else Credit(cfg, h.collected))
    case Fast(rate) => (s, FastLevel(rate, requestedBits))
    case Aux(bits) =>
      var e := AuxPool.Extract(bits, digestBits, requestedBits, 0);
      (Aux(e.unused), e.kept)
  }

  function Delivered(s: EntropySource, digestBits: u32): u32
    requires ValidSource(s)
  {
    Collect(s, digestBits, SecurityStrength(digestBits)).1
  }

  function Estimates(sources: seq<EntropySource>, digestBits: u32): seq<nat>
    requires forall i | 0 <= i < |sources| :: ValidSource(sources[i])
  {
    seq(|sources|, i requires 0 <= i < |sources| => Estimate(sources[i], digestBits))
  }

  function Deliveries(sources: seq<EntropySource>, digestBits: u32): seq<nat>
    requires forall i | 0 <= i < |sources| :: ValidSource(sources[i])
  {
    seq(|sources|, i requires 0 <= i < |sources| => Delivered(sources[i], digestBits))
  }

  /** lrng_avail_entropy and lrng_entropy_rate_eb: 32-bit sums over the sources. */
  method SumBits(bits: seq<u32>) returns (sum: u32)
    ensures sum == Wrap(Sum(bits))
  {
    sum := 0;
    for i := 0 to |bits|
      invariant sum == Wrap(Sum(bits[..i]))
    {
      assert bits[..i + 1] == bits[..i] + [bits[i]];
      SumAppend(bits[..i], [bits[i]]);
      WrapOfWrap(Sum(bits[..i]), bits[i]);
      sum := Add(sum, bits[i]);
    }
    assert bits[..|bits|] == bits;
  }

  /** The gate: a reseed that is not forced needs an estimate of at least 128 bits. */
  predicate Refused(sources: seq<EntropySource>, digestBits: u32, lrngFullySeeded: bool, force: bool)
    requires forall i | 0 <= i < |sources| :: ValidSource(sources[i])
  {
    !force && lrngFullySeeded && Wrap(Sum(Estimates(sources, digestBits))) < MIN_SEED_BITS
  }

  /** The bits per source of a filled seed buffer. */
  function FilledBits(sources: seq<EntropySource>, digestBits: u32, lrngFullySeeded: bool, force: bool): seq<u32>
    requires forall i | 0 <= i < |sources| :: ValidSource(sources[i])
  {
    seq(|sources|, i requires 0 <= i < |sources| =>
      if Refused(sources, digestBits, lrngFullySeeded, force) then 0 else Delivered(sources[i], digestBits))
  }

  /** The sources after filling the seed buffer. */
  function SourcesAfter(sources: seq<EntropySource>, digestBits: u32, lrngFullySeeded: bool, force: bool): seq<EntropySource>
    requires forall i | 0 <= i < |sources| :: ValidSource(sources[i])
  {
    seq(|sources|, i requires 0 <= i < |sources| =>
      if Refused(sources, digestBits, lrngFullySeeded, force) then sources[i]
      else Collect(sources[i], digestBits, SecurityStrength(digestBits)).0)
  }

  /** lrng_fill_seed_buffer outside SP800-90C mode: the bits per source and the sources afterwards. */
  method FillSeedBuffer(sources: seq<EntropySource>, digestBits: u32, lrngFullySeeded: bool, force: bool)
    returns (eBits: seq<u32>, after: seq<EntropySource>)
    requires forall i | 0 <= i < |sources| :: ValidSource(sources[i])
    ensures eBits == FilledBits(sources, digestBits, lrngFullySeeded, force)
    ensures after == SourcesAfter(sources, digestBits, lrngFullySeeded, force)
  {
    hide Collect, Estimate;
    var estimates := seq(|sources|, i requires 0 <= i < |sources| => Estimate(sources[i], digestBits));
    var available := SumBits(estimates);
    assert estimates == Estimates(sources, digestBits);
    if !force && lrngFullySeeded && available < MIN_SEED_BITS {
      eBits := seq(|sources|, _ => 0);
      after := sources;
      return;
    }
    eBits, after := [], [];
    for i := 0 to |sources|
      invariant eBits == FilledBits(sources, digestBits, lrngFullySeeded, force)[..i]
      invariant after == SourcesAfter(sources, digestBits, lrngFullySeeded, force)[..i]
    {
      var (source, bits) := Collect(sources[i], digestBits, SecurityStrength(digestBits));
      eBits, after := eBits + [bits], after + [source];
    }
  }

  // ---------------------------------------------------------------------------------------------
  // What the bits of a filling are paid with
  // ---------------------------------------------------------------------------------------------

  /** A fast source is credited what its rate per 256 bits pays for, and the most of that unless the product wraps. */
  lemma FastLevelIsPaid(rate: u32, requestedBits: u32)
    ensures var level := FastLevel(rate, requestedBits);
      && 256 * level <= rate * requestedBits && level <= requestedBits
      && (rate * requestedBits < TWO32 ==> level == requestedBits || 256 * (level + 1) > rate * requestedBits)
  {
    assert rate * requestedBits >= 0;
    WrappedQuotient(rate * requestedBits);
  }

  lemma WrappedQuotient(x: nat)
    ensures 256 * (Wrap(x) / 256) <= x && (x < TWO32 ==> x < 256 * (Wrap(x) / 256 + 1))
  {
  }

  /**
   One source before and after a filling: a fast source pays with its rate, the auxiliary pool with its counter, and a
   timer source with the events of its online CPUs.
   */
  predicate Paid(before: EntropySource, bits: u32, after: EntropySource, digestBits: u32)
    requires ValidSource(before)
  {
    match before
    case Timer(cfg, online, counters) =>
      && after.Timer? && after.cfg == cfg && after.online == online && |after.counters| == |counters|
      && cfg.rate * bits + 256 * LeftFrom(online, after.counters, 0) <= 256 * LeftFrom(online, counters, 0)
    case Fast(rate) => after == before && 256 * bits <= rate * SecurityStrength(digestBits)
    case Aux(content) => after.Aux? && bits + after.bits <= content
  }

  lemma {:induction false} CapSumAtMostLeft(cap: u32, online: seq<bool>, counters: seq<u32>, n: nat)
    requires n <= |online| == |counters|
    ensures CapSum(cap, online, counters, n) + LeftFrom(online, counters, n) <= LeftFrom(online, counters, 0)
  {
    if n > 0 {
      CapSumAtMostLeft(cap, online, counters, n - 1);
    }
  }

  lemma CollectIsPaid(s: EntropySource, digestBits: u32)
    requires ValidSource(s)
    ensures Paid(s, Delivered(s, digestBits), Collect(s, digestBits, SecurityStrength(digestBits)).0, digestBits)
  {
    match s
    case Timer(cfg, online, counters) => TimerIsPaid(cfg, digestBits, online, counters);
    case Fast(rate) => FastLevelIsPaid(rate, SecurityStrength(digestBits));
    case Aux(_) =>
  }

  lemma TimerIsPaid(cfg: Config, digestBits: u32, online: seq<bool>, counters: seq<u32>)
    requires ValidSource(Timer(cfg, online, counters))
    ensures var s := Timer(cfg, online, counters);
      Paid(s, Delivered(s, digestBits), Collect(s, digestBits, SecurityStrength(digestBits)).0, digestBits)
  {
    hide EntropyToData, CpuCap, CapSum, LeftFrom, HarvestFrom, SecurityStrength;
    var strength := SecurityStrength(digestBits);
    var requested := RequestedEvents(cfg, Min(digestBits, strength));
    HarvestCollects(cfg, digestBits, online, counters, requested, 0, 0);
    CapSumAtMostLeft(CpuCap(cfg, digestBits), online, counters, |counters|);
    NothingCounted(CpuCap(cfg, digestBits), online, counters);
    var h := HarvestFrom(cfg, HealthyVisits(digestBits, online), counters, requested, 0, 0);
    CreditBounds(cfg, h.collected, Min(digestBits, strength));
  }

  lemma NothingCounted(cap: u32, online: seq<bool>, counters: seq<u32>)
    requires |online| == |counters|
    ensures CapSum(cap, online, counters, 0) == 0 && LeftFrom(online, counters, |counters|) == 0
  {
  }

  /** No source is ever credited more than it pays for, whatever the gate says. */
  lemma FillingIsPaid(sources: seq<EntropySource>, digestBits: u32, lrngFullySeeded: bool, force: bool, i: nat)
    requires (forall j | 0 <= j < |sources| :: ValidSource(sources[j])) && i < |sources|
    ensures Paid(sources[i], FilledBits(sources, digestBits, lrngFullySeeded, force)[i],
                 SourcesAfter(sources, digestBits, lrngFullySeeded, force)[i], digestBits)
  {
    hide Collect, Refused, LeftFrom;
    CollectIsPaid(sources[i], digestBits);
  }

  /** A fast source that passes the gate is credited all that it pays for, unless the product wraps. */
  lemma FastFillingExactly(sources: seq<EntropySource>, digestBits: u32, lrngFullySeeded: bool, force: bool, i: nat)
    requires (forall j | 0 <= j < |sources| :: ValidSource(sources[j])) && i < |sources| && sources[i].Fast?
    requires sources[i].rate * SecurityStrength(digestBits) < TWO32
    ensures var bits := FilledBits(sources, digestBits, lrngFullySeeded, force)[i];
      && (Refused(sources, digestBits, lrngFullySeeded, force) ==> bits == 0)
      && (!Refused(sources, digestBits, lrngFullySeeded, force) ==>
            bits == SecurityStrength(digestBits) || 256 * bits <= sources[i].rate * SecurityStrength(digestBits) < 256 * (bits + 1))
  {
    FastLevelIsPaid(sources[i].rate, SecurityStrength(digestBits));
  }

  /**
   One fast source alone delivers its rate. Below 128 bits it does not open the gate of a fully seeded LRNG, but before
   that, and when a reseed is forced, there is no gate.
   */
  lemma OneSource(rate: u32, lrngFullySeeded: bool, force: bool)
    requires rate <= 256
    ensures FilledBits([Fast(rate)], 256, lrngFullySeeded, force) == [if lrngFullySeeded && !force && rate < 128 then 0 else rate]
  {
    OnlyOneCounts(Estimates([Fast(rate)], 256), 0);
  }

  // ---------------------------------------------------------------------------------------------
  // When a timer source falls short of its own estimate
  // ---------------------------------------------------------------------------------------------

  /** The most a timer source can deliver: the credit for everything that is requested. */
  function Saturated(cfg: Config, digestBits: u32): u32
    requires ValidConfig(cfg)
  {
    Credit(cfg, RequestedEvents(cfg, SecurityStrength(digestBits)))
  }

  /** The largest number of events whose conversion to bits does not wrap around. */
  const MAX_EVENTS := 0xff_ffff

  /** The most that a timer source of so many CPUs can be estimated at. */
  function LargestEstimate(cfg: Config, digestBits: u32, cpus: nat): nat
    requires ValidConfig(cfg)
  {
    QuotientBounds(256 * EventsUpTo(cpus, CpuCap(cfg, digestBits)), cfg.rate);
    256 * EventsUpTo(cpus, CpuCap(cfg, digestBits)) / cfg.rate
  }

  function EventsUpTo(cpus: nat, cap: nat): (r: nat)
    ensures r <= MAX_EVENTS && r <= cpus * cap
  {
    MulOrder(cap, 0, cpus);
    Min(cpus * cap, MAX_EVENTS)
  }

  /**
   A timer source beside fast sources of the given total level does no harm: it can count nothing, or together they reach
   128 bits whenever it is saturated, or it is never estimated above its saturation.
   */
  predicate RateSuits(cfg: Config, digestBits: u32, cpus: nat, fast: nat)
    requires ValidConfig(cfg)
  {
    || CpuCap(cfg, digestBits) == 0
    || fast + Saturated(cfg, digestBits) >= MIN_SEED_BITS
    || Saturated(cfg, digestBits) >= LargestEstimate(cfg, digestBits, cpus)
  }

  /** The source delivers its estimate, or at least 128 bits. */
  predicate KeepsItsWord(s: EntropySource, digestBits: u32)
    requires ValidSource(s)
  {
    Delivered(s, digestBits) >= Min(Estimate(s, digestBits), MIN_SEED_BITS)
  }

  /** What a quiescent timer source delivers, in terms of the events it may count. */
  lemma TimerDelivers(cfg: Config, digestBits: u32, online: seq<bool>, counters: seq<u32>)
    requires ValidSource(Timer(cfg, online, counters))
    ensures var total := CapSum(CpuCap(cfg, digestBits), online, counters, |counters|);
      var requested := RequestedEvents(cfg, SecurityStrength(digestBits));
      && Delivered(Timer(cfg, online, counters), digestBits) == Credit(cfg, Min(requested, total))
      && Estimate(Timer(cfg, online, counters), digestBits) == Credit(cfg, Wrap(total))
      && 256 * requested < TWO32
  {
    hide EntropyToData, DataToEntropy;
    var requested := RequestedEvents(cfg, SecurityStrength(digestBits));
    assert Min(digestBits, SecurityStrength(digestBits)) == SecurityStrength(digestBits);
    HarvestCollects(cfg, digestBits, online, counters, requested, 0, 0);
  }

  lemma {:induction false} CapSumAtMost(cap: u32, online: seq<bool>, counters: seq<u32>, n: nat)
    requires n <= |online| == |counters|
    ensures CapSum(cap, online, counters, n) <= n * cap
  {
    if n > 0 {
      CapSumAtMost(cap, online, counters, n - 1);
      assert n * cap == (n - 1) * cap + cap;
    }
  }

  lemma EstimateAtMost(cfg: Config, digestBits: u32, online: seq<bool>, counters: seq<u32>)
    requires ValidSource(Timer(cfg, online, counters))
    ensures Estimate(Timer(cfg, online, counters), digestBits) <= LargestEstimate(cfg, digestBits, |counters|)
  {
    hide EntropyToData, CpuCap;
    var cap := CpuCap(cfg, digestBits);
    var total := CapSum(cap, online, counters, |counters|);
    TimerDelivers(cfg, digestBits, online, counters);
    CapSumAtMost(cap, online, counters, |counters|);
    WrappedProduct(total);
    QuotientMonotone(Wrap(Wrap(total) * 256), 256 * EventsUpTo(|counters|, cap), cfg.rate);
  }

  lemma WrappedProduct(total: nat)
    ensures Wrap(Wrap(total) * 256) <= 256 * Min(total, MAX_EVENTS)
  {
    assert Wrap(total) <= total;
  }

  /** With a suitable rate the source delivers its estimate, or with the fast sources 128 bits. */
  lemma SuitableRateSuffices(cfg: Config, digestBits: u32, online: seq<bool>, counters: seq<u32>, fast: nat)
    requires ValidSource(Timer(cfg, online, counters)) && RateSuits(cfg, digestBits, |counters|, fast)
    ensures var s := Timer(cfg, online, counters);
      Delivered(s, digestBits) >= Estimate(s, digestBits) || fast + Delivered(s, digestBits) >= MIN_SEED_BITS
  {
    hide EntropyToData, LargestEstimate, Credit, Delivered, Estimate;
    var cap := CpuCap(cfg, digestBits);
    var total := CapSum(cap, online, counters, |counters|);
    var requested := RequestedEvents(cfg, SecurityStrength(digestBits));
    TimerDelivers(cfg, digestBits, online, counters);
    EstimateAtMost(cfg, digestBits, online, counters);
    if cap == 0 {
      NoCapNoSum(online, counters, |counters|);
    } else if total <= requested {
      assert Wrap(total) == total;
    }
  }

  lemma {:induction false} NoCapNoSum(online: seq<bool>, counters: seq<u32>, n: nat)
    requires n <= |online| == |counters|
    ensures CapSum(0, online, counters, n) == 0
  {
    if n > 0 {
      NoCapNoSum(online, counters, n - 1);
    }
  }

  /** Counters of n CPUs of which exactly t events may be counted. */
  function Spread(cap: u32, n: nat, t: nat): (r: seq<u32>)
    ensures |r| == n
    ensures forall i :: 0 <= i < n ==> r[i] <= cap
  {
    if n == 0 then [] else Spread(cap, n - 1, t - Min(cap, t)) + [Min(cap, t)]
  }

  lemma {:induction false} SpreadSum(cap: u32, n: nat, t: nat, online: seq<bool>, counters: seq<u32>)
    requires n <= |online| == |counters| && counters[..n] == Spread(cap, n, t) && t <= n * cap
    requires forall i :: 0 <= i < n ==> online[i]
    ensures CapSum(cap, online, counters, n) == t
  {
    if n > 0 {
      var rest := t - Min(cap, t);
      assert rest <= (n - 1) * cap by {
        assert n * cap == (n - 1) * cap + cap;
        MulOrder(cap, 0, n - 1);
      }
      assert counters[..n - 1] == counters[..n][..n - 1] == Spread(cap, n - 1, rest);
      assert counters[n - 1] == counters[..n][n - 1] == Min(cap, t);
      SpreadSum(cap, n - 1, rest, online, counters);
    }
  }

  /** With an unsuitable rate, the CPUs at hand can be in a state that is estimated above what it delivers. */
  lemma UnsuitableRateFails(cfg: Config, digestBits: u32, cpus: nat, fast: nat) returns (online: seq<bool>, counters: seq<u32>)
    requires ValidConfig(cfg) && cfg.osr == 0
    ensures |online| == |counters| == cpus
    ensures !RateSuits(cfg, digestBits, cpus, fast) ==>
      var s := Timer(cfg, online, counters);
      && Estimate(s, digestBits) == LargestEstimate(cfg, digestBits, cpus)
      && Delivered(s, digestBits) == Saturated(cfg, digestBits)
  {
    hide EntropyToData, CpuCap;
    var cap, requested := CpuCap(cfg, digestBits), RequestedEvents(cfg, SecurityStrength(digestBits));
    var t := EventsUpTo(cpus, cap);
    online, counters := seq(cpus, _ => true), Spread(cap, cpus, t);
    SpreadSum(cap, cpus, t, online, counters);
    TimerDelivers(cfg, digestBits, online, counters);
    WholeRange(cfg, t);
    if t <= requested {
      WholeRange(cfg, requested);
      QuotientMonotone(256 * t, 256 * requested, cfg.rate);
    }
  }

  lemma WholeRange(cfg: Config, events: nat)
    requires ValidConfig(cfg) && cfg.osr == 0 && 256 * events < TWO32
    ensures Credit(cfg, events) == 256 * events / cfg.rate
  {
  }

  /** The rates for which a timer source of the given number of CPUs keeps its word in every state, exactly. */
  lemma KeepsItsWordExactly(cfg: Config, digestBits: u32, cpus: nat)
    requires ValidConfig(cfg) && cfg.osr == 0
    ensures (forall online: seq<bool>, counters: seq<u32> | |online| == |counters| == cpus ::
               KeepsItsWord(Timer(cfg, online, counters), digestBits))
       <==> RateSuits(cfg, digestBits, cpus, 0)
  {
    hide LargestEstimate, Saturated, Estimate, Delivered;
    if RateSuits(cfg, digestBits, cpus, 0) {
      forall online: seq<bool>, counters: seq<u32> | |online| == |counters| == cpus
        ensures KeepsItsWord(Timer(cfg, online, counters), digestBits)
      {
        SuitableRateSuffices(cfg, digestBits, online, counters, 0);
      }
    } else {
      var online, counters := UnsuitableRateFails(cfg, digestBits, cpus, 0);
      assert !KeepsItsWord(Timer(cfg, online, counters), digestBits);
    }
  }

  /** Rates whose conversions do not overflow are suitable for every digest longer than 128 bits. */
  lemma OrdinaryRatesSuit(cfg: Config, digestBits: u32, cpus: nat, fast: nat)
    requires 256 <= cfg.rate < 0x100_0000 && cfg.osr == 0 && digestBits > MIN_SEED_BITS
    ensures RateSuits(cfg, digestBits, cpus, fast)
  {
    var s := SecurityStrength(digestBits);
    var requested := EntropyToData(s, cfg.rate);
    LongProduct(s, cfg.rate);
    assert 256 * requested > 128 * cfg.rate;
    AtLeast128(256 * requested, cfg.rate);
  }

  lemma LongProduct(s: u32, r: u32)
    requires 129 <= s <= 256 <= r < 0x100_0000
    ensures 128 * r + 256 <= s * r < TWO32
  {
    MulOrder(r, 129, s);
    MulOrder(r, s, 256);
  }

  lemma AtLeast128(x: nat, r: u32)
    requires r > 0 && x >= 128 * r
    ensures x / r >= 128
  {
    QuotientMonotone(128 * r, x, r);
  }

  /**
   The rate 24_000_000 overflows the conversion: with two CPUs the estimate passes the gate of 128 bits
   and half of it is delivered.
   */
  lemma OverflowingRateFallsShort()
    ensures var s := Timer(Config(24_000_000, 0, false, 1024), [true, true], [7_222_784, 7_222_784]);
      Estimate(s, 256) == 154 && Delivered(s, 256) == 77
  {
    var cfg := Config(24_000_000, 0, false, 1024);
    TimerDelivers(cfg, 256, [true, true], [7_222_784, 7_222_784]);
  }

  // ---------------------------------------------------------------------------------------------
  // All or nothing
  // ---------------------------------------------------------------------------------------------

  lemma DeliveredWithinRequest(s: EntropySource, digestBits: u32)
    requires ValidSource(s)
    ensures Delivered(s, digestBits) <= SecurityStrength(digestBits)
  {
    if s.Timer? {
      TimerDelivers(s.cfg, digestBits, s.online, s.counters);
      var total := CapSum(CpuCap(s.cfg, digestBits), s.online, s.counters, |s.counters|);
      var requested := RequestedEvents(s.cfg, SecurityStrength(digestBits));
      CreditBounds(s.cfg, Min(requested, total), SecurityStrength(digestBits));
    }
  }

  /** An unforced filling of a fully seeded LRNG carries at least 128 bits, or none with every source as it was. */
  predicate AllOrNothingOutcome(sources: seq<EntropySource>, digestBits: u32)
    requires forall i | 0 <= i < |sources| :: ValidSource(sources[i])
  {
    var eBits := FilledBits(sources, digestBits, true, false);
    || Wrap(Sum(eBits)) >= MIN_SEED_BITS
    || (Sum(eBits) == 0 && SourcesAfter(sources, digestBits, true, false) == sources)
  }

  /** A filling that the gate refuses is nothing. */
  lemma RefusedIsNothing(sources: seq<EntropySource>, digestBits: u32)
    requires forall i | 0 <= i < |sources| :: ValidSource(sources[i])
    requires Refused(sources, digestBits, true, false)
    ensures AllOrNothingOutcome(sources, digestBits)
  {
    hide Refused;
    assert FilledBits(sources, digestBits, true, false) == seq(|sources|, _ => 0);
    SumOfZeros(FilledBits(sources, digestBits, true, false));
    assert SourcesAfter(sources, digestBits, true, false) == sources;
  }

  /** What the fast sources contribute, to the estimate and to the delivery alike. */
  function FastParts(sources: seq<EntropySource>, digestBits: u32): (r: seq<nat>)
    ensures |r| == |sources|
  {
    seq(|sources|, i requires 0 <= i < |sources| =>
      if sources[i].Fast? then FastLevel(sources[i].rate, SecurityStrength(digestBits)) else 0)
  }

  function FastSum(sources: seq<EntropySource>, digestBits: u32): nat {
    Sum(FastParts(sources, digestBits))
  }

  /** The fast sources alone reach 128 bits, or every timer source has a rate that suits beside them. */
  predicate SourcesSuit(sources: seq<EntropySource>, digestBits: u32)
    requires forall i | 0 <= i < |sources| :: ValidSource(sources[i])
  {
    var fast := FastSum(sources, digestBits);
    || fast >= MIN_SEED_BITS
    || forall i | 0 <= i < |sources| ::
         ValidSource(sources[i]) && (sources[i].Timer? ==> RateSuits(sources[i].cfg, digestBits, |sources[i].counters|, fast))
  }

  lemma PartsAtMostDelivered(sources: seq<EntropySource>, digestBits: u32)
    requires forall i | 0 <= i < |sources| :: ValidSource(sources[i])
    ensures FastSum(sources, digestBits) <= Sum(Deliveries(sources, digestBits)) <= 256 * |sources|
  {
    hide Sum;
    forall i | 0 <= i < |sources|
      ensures FastParts(sources, digestBits)[i] <= Deliveries(sources, digestBits)[i] <= 256
    {
      DeliveredWithinRequest(sources[i], digestBits);
    }
    SumDominates(Deliveries(sources, digestBits), FastParts(sources, digestBits));
    SumAtMost(Deliveries(sources, digestBits), 256);
  }

  /** One source beside the fast ones. */
  lemma OneBesideFast(sources: seq<EntropySource>, digestBits: u32, i: nat)
    requires forall j | 0 <= j < |sources| :: ValidSource(sources[j])
    requires i < |sources| && !sources[i].Fast?
    ensures Sum(Deliveries(sources, digestBits)) >= FastSum(sources, digestBits) + Delivered(sources[i], digestBits)
  {
    hide Sum;
    var parts, delivered := FastParts(sources, digestBits), Deliveries(sources, digestBits);
    SumUpdate(parts, i, delivered[i]);
    forall j | 0 <= j < |sources|
      ensures delivered[j] >= parts[i := delivered[i]][j]
    {
      if sources[j].Fast? {
        assert delivered[j] == parts[j];
      }
    }
    SumDominates(delivered, parts[i := delivered[i]]);
  }

  /** Whatever passes the gate delivers 128 bits. */
  lemma GateIsKept(sources: seq<EntropySource>, digestBits: u32)
    requires |sources| <= D.MAX_SOURCES && digestBits >= MIN_SEED_BITS
    requires forall i | 0 <= i < |sources| :: ValidSource(sources[i])
    requires SourcesSuit(sources, digestBits)
    ensures Sum(Deliveries(sources, digestBits)) <= 256 * |sources|
    ensures Sum(Estimates(sources, digestBits)) >= MIN_SEED_BITS ==> Sum(Deliveries(sources, digestBits)) >= MIN_SEED_BITS
  {
    hide Sum, RateSuits;
    var fast, delivered, estimates := FastSum(sources, digestBits), Deliveries(sources, digestBits), Estimates(sources, digestBits);
    PartsAtMostDelivered(sources, digestBits);
    if i :| 0 <= i < |sources| && !sources[i].Fast? && fast + delivered[i] >= MIN_SEED_BITS {
      OneBesideFast(sources, digestBits, i);
    } else if fast < MIN_SEED_BITS {
      forall i | 0 <= i < |sources|
        ensures delivered[i] >= estimates[i]
      {
        DeliversOrHelps(sources[i], digestBits, fast);
        assert !sources[i].Fast? ==> fast + delivered[i] < MIN_SEED_BITS;
      }
      SumDominates(delivered, estimates);
    }
  }

  lemma DeliversOrHelps(s: EntropySource, digestBits: u32, fast: nat)
    requires ValidSource(s) && digestBits >= MIN_SEED_BITS
    requires s.Timer? ==> RateSuits(s.cfg, digestBits, |s.counters|, fast)
    ensures Delivered(s, digestBits) >= Estimate(s, digestBits) || (!s.Fast? && fast + Delivered(s, digestBits) >= MIN_SEED_BITS)
  {
    if s.Timer? {
      hide RateSuits, Collect, Estimate;
      SuitableRateSuffices(s.cfg, digestBits, s.online, s.counters, fast);
    }
  }

  /** All-or-nothing reseed, for any set of sources in any state that suit each other. */
  lemma AllOrNothing(sources: seq<EntropySource>, digestBits: u32)
    requires |sources| <= D.MAX_SOURCES && digestBits >= MIN_SEED_BITS
    requires forall i | 0 <= i < |sources| :: ValidSource(sources[i])
    requires SourcesSuit(sources, digestBits)
    ensures AllOrNothingOutcome(sources, digestBits)
  {
    hide SourcesSuit, Sum;
    if Refused(sources, digestBits, true, false) {
      RefusedIsNothing(sources, digestBits);
    } else {
      GateIsKept(sources, digestBits);
      assert FilledBits(sources, digestBits, true, false) == Deliveries(sources, digestBits);
    }
  }

  // ---------------------------------------------------------------------------------------------
  // The exact condition, for the sources of a kernel
  // ---------------------------------------------------------------------------------------------

  datatype TimerSetup = TimerSetup(cfg: Config, cpus: nat)

  /** A kernel's sources: timer sources with their CPUs, fast sources, and last the auxiliary pool, which is always there. */
  datatype Setup = Setup(timers: seq<TimerSetup>, fast: seq<u32>)

  predicate ValidSetup(k: Setup) {
    && |k.timers| + |k.fast| + 1 <= D.MAX_SOURCES
    && forall i | 0 <= i < |k.timers| :: ValidConfig(k.timers[i].cfg) && k.timers[i].cfg.osr == 0
  }

  /** The timer sources in some state. */
  predicate TimersOf(k: Setup, timers: seq<EntropySource>) {
    && |timers| == |k.timers|
    && forall i | 0 <= i < |timers| ::
         timers[i].Timer? && timers[i].cfg == k.timers[i].cfg && |timers[i].online| == |timers[i].counters| == k.timers[i].cpus
  }

  function Fasts(rates: seq<u32>): (r: seq<EntropySource>)
    ensures |r| == |rates|
  {
    seq(|rates|, i requires 0 <= i < |rates| => Fast(rates[i]))
  }

  function SourcesOf(k: Setup, timers: seq<EntropySource>, auxBits: u32): (r: seq<EntropySource>)
    requires ValidSetup(k) && TimersOf(k, timers)
    ensures |r| == |k.timers| + |k.fast| + 1 && forall i | 0 <= i < |r| :: ValidSource(r[i])
  {
    timers + Fasts(k.fast) + [Aux(auxBits)]
  }

  /** The level of the fast sources together. */
  function FastTotal(k: Setup, digestBits: u32): nat {
    Sum(FastParts(Fasts(k.fast), digestBits))
  }

  /** What a configuration must meet. */
  predicate SetupSuits(k: Setup, digestBits: u32)
    requires ValidSetup(k)
  {
    || FastTotal(k, digestBits) >= MIN_SEED_BITS
    || forall i | 0 <= i < |k.timers| :: RateSuits(k.timers[i].cfg, digestBits, k.timers[i].cpus, FastTotal(k, digestBits))
  }

  lemma SplitSums(k: Setup, timers: seq<EntropySource>, auxBits: u32, digestBits: u32)
    requires ValidSetup(k) && TimersOf(k, timers) && digestBits >= MIN_SEED_BITS
    ensures var sources := SourcesOf(k, timers, auxBits);
      && FastSum(sources, digestBits) == FastTotal(k, digestBits)
      && Sum(Estimates(sources, digestBits)) == Sum(Estimates(timers, digestBits)) + FastTotal(k, digestBits) + Min(digestBits, auxBits)
      && Sum(Deliveries(sources, digestBits)) == Sum(Deliveries(timers, digestBits)) + FastTotal(k, digestBits)
         + Min(SecurityStrength(digestBits), auxBits)
  {
    hide FastLevel, Available, HarvestFrom;
    var fasts, aux := Fasts(k.fast), [Aux(auxBits)];
    var sources := SourcesOf(k, timers, auxBits);
    var zeros := seq(|timers|, i => 0 as nat);
    assert FastParts(sources, digestBits) == zeros + FastParts(fasts, digestBits) + [0];
    assert Estimates(sources, digestBits) == Estimates(timers, digestBits) + FastParts(fasts, digestBits) + [Min(digestBits, auxBits) as nat];
    assert Deliveries(sources, digestBits) == Deliveries(timers, digestBits) + FastParts(fasts, digestBits)
      + [Min(SecurityStrength(digestBits), auxBits) as nat];
    SumOfZeros(zeros);
    SumThree(zeros, FastParts(fasts, digestBits), 0);
    SumThree(Estimates(timers, digestBits), FastParts(fasts, digestBits), Min(digestBits, auxBits));
    SumThree(Deliveries(timers, digestBits), FastParts(fasts, digestBits), Min(SecurityStrength(digestBits), auxBits));
  }

  lemma SumThree(a: seq<nat>, b: seq<nat>, x: nat)
    ensures Sum(a + b + [x]) == Sum(a) + Sum(b) + x
  {
    SumAppend(a + b, [x]);
    SumAppend(a, b);
    assert [x][1..] == [];
  }

  /** All timer sources without events, but for one. */
  function OneActive(k: Setup, i: nat, active: EntropySource): (r: seq<EntropySource>)
    requires i < |k.timers|
    ensures |r| == |k.timers|
  {
    seq(|k.timers|, j requires 0 <= j < |k.timers| =>
      if j == i then active else Timer(k.timers[j].cfg, seq(k.timers[j].cpus, _ => true), seq(k.timers[j].cpus, _ => 0)))
  }

  lemma NoEventsNoBits(cfg: Config, digestBits: u32, online: seq<bool>, counters: seq<u32>)
    requires ValidSource(Timer(cfg, online, counters)) && forall i | 0 <= i < |counters| :: counters[i] == 0
    ensures Estimate(Timer(cfg, online, counters), digestBits) == 0 == Delivered(Timer(cfg, online, counters), digestBits)
  {
    hide EntropyToData, CpuCap;
    TimerDelivers(cfg, digestBits, online, counters);
    NoEventsNoSum(CpuCap(cfg, digestBits), online, counters, |counters|);
    WholeRange(cfg, 0);
  }

  lemma {:induction false} NoEventsNoSum(cap: u32, online: seq<bool>, counters: seq<u32>, n: nat)
    requires n <= |online| == |counters| && forall i | 0 <= i < |counters| :: counters[i] == 0
    ensures CapSum(cap, online, counters, n) == 0
  {
    if n > 0 {
      NoEventsNoSum(cap, online, counters, n - 1);
    }
  }

  lemma OneActiveSums(k: Setup, i: nat, active: EntropySource, digestBits: u32)
    requires ValidSetup(k) && i < |k.timers|
    requires active.Timer? && active.cfg == k.timers[i].cfg && |active.online| == |active.counters| == k.timers[i].cpus
    ensures var timers := OneActive(k, i, active);
      && TimersOf(k, timers)
      && Sum(Estimates(timers, digestBits)) == Estimate(active, digestBits)
      && Sum(Deliveries(timers, digestBits)) == Delivered(active, digestBits)
  {
    hide Estimate, Collect;
    var timers := OneActive(k, i, active);
    forall j | 0 <= j < |timers| && j != i
      ensures Estimates(timers, digestBits)[j] == 0 == Deliveries(timers, digestBits)[j]
    {
      NoEventsNoBits(timers[j].cfg, digestBits, timers[j].online, timers[j].counters);
    }
    OnlyOneCounts(Estimates(timers, digestBits), i);
    OnlyOneCounts(Deliveries(timers, digestBits), i);
  }

  lemma OnlyOneCounts(s: seq<nat>, i: nat)
    requires i < |s| && forall j | 0 <= j < |s| && j != i :: s[j] == 0
    ensures Sum(s) == s[i]
  {
    SumUpdate(s, i, 0);
    SumOfZeros(s[i := 0]);
  }

  /** The content of the auxiliary pool that just opens the gate, without making up for what falls short. */
  function OpeningAux(estimate: nat, saturated: nat): u32 {
    if estimate < MIN_SEED_BITS then MIN_SEED_BITS - estimate else if saturated == 0 then 1 else 0
  }

  lemma UnsuitableBreaks(k: Setup, digestBits: u32, i: nat) returns (timers: seq<EntropySource>, auxBits: u32)
    requires ValidSetup(k) && digestBits >= MIN_SEED_BITS && i < |k.timers|
    ensures TimersOf(k, timers)
    ensures FastTotal(k, digestBits) < MIN_SEED_BITS
      && !RateSuits(k.timers[i].cfg, digestBits, k.timers[i].cpus, FastTotal(k, digestBits))
      ==> !AllOrNothingOutcome(SourcesOf(k, timers, auxBits), digestBits)
  {
    var cfg, fast := k.timers[i].cfg, FastTotal(k, digestBits);
    var online, counters := UnsuitableRateFails(cfg, digestBits, k.timers[i].cpus, fast);
    var active := Timer(cfg, online, counters);
    timers := OneActive(k, i, active);
    auxBits := OpeningAux(fast + Estimate(active, digestBits), fast + Delivered(active, digestBits));
    OneActiveSums(k, i, active, digestBits);
    SplitSums(k, timers, auxBits, digestBits);
    var sources := SourcesOf(k, timers, auxBits);
    hide Estimate, Collect, FastTotal, Saturated, LargestEstimate, SourcesOf, OneActive, CpuCap;
    if fast < MIN_SEED_BITS && !RateSuits(cfg, digestBits, k.timers[i].cpus, fast) {
      EstimateIsBelow(cfg, digestBits, k.timers[i].cpus);
      FallsBetween(sources, digestBits);
    }
  }

  lemma EstimateIsBelow(cfg: Config, digestBits: u32, cpus: nat)
    requires ValidConfig(cfg)
    ensures LargestEstimate(cfg, digestBits, cpus) <= TWO32 - 256
  {
    QuotientBounds(256 * EventsUpTo(cpus, CpuCap(cfg, digestBits)), cfg.rate);
  }

  /** Sources that pass the gate and deliver something, but not enough. */
  lemma FallsBetween(sources: seq<EntropySource>, digestBits: u32)
    requires forall i | 0 <= i < |sources| :: ValidSource(sources[i])
    ensures
      && MIN_SEED_BITS <= Sum(Estimates(sources, digestBits)) < TWO32
      && 0 < Sum(Deliveries(sources, digestBits)) < MIN_SEED_BITS
      ==> !AllOrNothingOutcome(sources, digestBits)
  {
    hide Estimate, Collect, Sum;
    if !Refused(sources, digestBits, true, false) {
      assert FilledBits(sources, digestBits, true, false) == Deliveries(sources, digestBits);
    }
  }

  /**
   A rate so large that the timer source alone never passes the gate is no excuse: 50 bits in the auxiliary pool open it,
   at an estimate of 132 bits of which 91 are delivered.
   */
  lemma AuxiliaryPoolOpensTheGate()
    ensures var timer := Timer(Config(40_000_000, 0, false, 1024), [true, true], [6_445_568, 6_445_568]);
      && Estimate(timer, 256) == 82 && Delivered(timer, 256) == 41
      && !AllOrNothingOutcome([timer, Aux(50)], 256)
  {
    var cfg := Config(40_000_000, 0, false, 1024);
    var timer := Timer(cfg, [true, true], [6_445_568, 6_445_568]);
    var k := Setup([TimerSetup(cfg, 2)], []);
    TimerDelivers(cfg, 256, [true, true], [6_445_568, 6_445_568]);
    hide Available, HarvestFrom, Credit;
    SplitSums(k, [timer], 50, 256);
    OnlyOneCounts(Estimates([timer], 256), 0);
    OnlyOneCounts(Deliveries([timer], 256), 0);
    assert SourcesOf(k, [timer], 50) == [timer, Aux(50)];
    FallsBetween([timer, Aux(50)], 256);
  }

  /**
   All-or-nothing in every state of a kernel's sources, with any events on its CPUs and any content of the auxiliary
   pool, holds exactly if the fast sources alone reach 128 bits or every timer rate suits beside them.
   */
  lemma AllOrNothingExactly(k: Setup, digestBits: u32)
    requires ValidSetup(k) && digestBits >= MIN_SEED_BITS
    ensures (forall timers: seq<EntropySource>, auxBits: u32 | TimersOf(k, timers) ::
               AllOrNothingOutcome(SourcesOf(k, timers, auxBits), digestBits))
       <==> SetupSuits(k, digestBits)
  {
    hide AllOrNothingOutcome, RateSuits, FastTotal, FastSum;
    if SetupSuits(k, digestBits) {
      forall timers: seq<EntropySource>, auxBits: u32 | TimersOf(k, timers)
        ensures AllOrNothingOutcome(SourcesOf(k, timers, auxBits), digestBits)
      {
        SplitSums(k, timers, auxBits, digestBits);
        AllOrNothing(SourcesOf(k, timers, auxBits), digestBits);
      }
    } else {
      var i :| 0 <= i < |k.timers| && !RateSuits(k.timers[i].cfg, digestBits, k.timers[i].cpus, FastTotal(k, digestBits));
      var timers, auxBits := UnsuitableBreaks(k, digestBits, i);
      assert !AllOrNothingOutcome(SourcesOf(k, timers, auxBits), digestBits);
    }
  }
}
