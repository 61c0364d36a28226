/**
 The auxiliary pool (lrng_es_aux.c): its counter is filled by credited input, capped to the digest,
 emptied by exchange, partly refilled, and can be overwritten at any time from outside the pool lock.
 */
module AuxPool {
  import opened Words
  import opened Conversion

  /** LRNG_MAX_DIGESTSIZE in bits, for kernels that support hash switching */
  const MAX_DIGEST_BITS: u32 := 512

  /** Credit for one insertion: no more than the bits of the buffer. */
  function InsertCredit(entropyBits: u32, inbufLen: u32): u32 {
    Min(entropyBits, Wrap(inbufLen * 8))
  }

  /** What an extraction takes out of a counter: `kept` pays for the delivery, `unused` goes back. */
  datatype Extraction = Extraction(kept: u32, unused: u32)

  function CappedRequest(requestedBits: u32, digestBits: u32): u32 {
    Min(Min(digestBits, requestedBits), MAX_DIGEST_BITS)
  }

  function Extract(bits: u32, digestBits: u32, requestedBits: u32, osr: u32): (e: Extraction)
    ensures e.kept + e.unused == Min(digestBits, bits)
  {
    var available: u32 := Min(digestBits, bits);
    var wanted := Add(CappedRequest(requestedBits, digestBits), osr);
    if available > wanted then Extraction(wanted, available - wanted) else Extraction(available, 0)
  }

  class Pool {
    var entropyBits: u32
    var digestSize: u32
    var initialized: bool
    const osr: u32

    constructor (osr: u32, digestSize: u32)
      ensures entropyBits == 0 && this.digestSize == digestSize && !initialized && this.osr == osr
    {
      entropyBits := 0;
      this.digestSize := digestSize;
      initialized := false;
      this.osr := osr;
    }

    /** lrng_get_digestsize */
    function DigestBits(): u32
      reads this
    {
      Wrap(digestSize * 8)
    }

    method AvailEntropy() returns (bits: u32)
      ensures bits == ReduceByOsr(Min(DigestBits(), entropyBits), osr)
    {
      var avail: u32 := Min(DigestBits(), entropyBits);
      bits := ReduceByOsr(avail, osr);
    }

    method SetEntropy(bits: u32)
      modifies this`entropyBits
      ensures entropyBits == bits
    {
      entropyBits := bits;
    }

    /** lrng_set_digestsize, the counter part of a hash switch */
    method SetDigestSize(newSize: u32)
      modifies this`entropyBits, this`digestSize
      ensures digestSize == newSize
      ensures entropyBits == Min(old(entropyBits), old(DigestBits()))
    {
      var found := entropyBits;
      entropyBits := 0;
      var oldDigest := DigestBits();
      digestSize := newSize;
      found := Min(found, oldDigest);
      entropyBits := Add(entropyBits, found);
    }

    /** lrng_aux_pool_insert_locked; `initOk` and `updateOk` are the outcomes of the hash calls. */
    method Insert(inbufLen: u32, entropyBits: u32, initOk: bool, updateOk: bool) returns (ok: bool)
      modifies this`entropyBits, this`initialized
      ensures ok == ((old(initialized) || initOk) && updateOk)
      ensures initialized == (old(initialized) || initOk)
      ensures this.entropyBits ==
        if ok then Min(Add(InsertCredit(entropyBits, inbufLen), old(this.entropyBits)), DigestBits())
        else old(this.entropyBits)
      ensures this.entropyBits <= old(this.entropyBits) + 8 * inbufLen
    {
      var bits: u32 := Min(entropyBits, Wrap(inbufLen * 8));
      if !initialized {
        if !initOk {
          return false;
        }
        initialized := true;
      }
      if !updateOk {
        return false;
      }
      bits := Add(bits, this.entropyBits);
      this.entropyBits := Min(bits, DigestBits());
      ok := true;
    }

    /** lrng_aux_get_pool; `hashOk` tells whether the digest was produced and the state set up anew. */
    method GetPool(requestedBits: u32, hashOk: bool) returns (returned: u32)
      modifies this`entropyBits
      ensures !initialized ==> returned == 0 && entropyBits == old(entropyBits)
      ensures initialized ==>
        var e := Extract(old(entropyBits), DigestBits(), requestedBits, osr);
        && entropyBits == e.unused
        && returned == if hashOk then ReduceByOsr(e.kept, osr) else 0
    {
      if !initialized {
        return 0;
      }
      var digestBits := DigestBits();
      var requested := requestedBits;
      if digestBits < requested {
        requested := digestBits;
      }
      requested := Min(requested, MAX_DIGEST_BITS);
      var wanted := Add(requested, osr);
      var collected: u32 := Min(digestBits, entropyBits);
      entropyBits := 0;
      if collected > wanted {
        var unused := collected - wanted;
        entropyBits := Add(entropyBits, unused);
        collected := wanted;
      }
      returned := ReduceByOsr(collected, osr);
      if !hashOk {
        returned := 0;
      }
    }

    /** lrng_aux_get_backtrack: extract, then mix the seed buffer back in without credit. */
    method GetBacktrack(requestedBits: u32, bufLen: u32, hashOk: bool, initOk: bool, updateOk: bool) returns (returned: u32)
      modifies this`entropyBits, this`initialized
      ensures initialized == (old(initialized) || initOk)
      ensures !old(initialized) ==> returned == 0
      ensures !old(initialized) ==>
        entropyBits == if initOk && updateOk then Min(old(entropyBits), DigestBits()) else old(entropyBits)
      ensures old(initialized) ==>
        var e := Extract(old(entropyBits), DigestBits(), requestedBits, osr);
        && entropyBits == e.unused
        && returned == if hashOk then ReduceByOsr(e.kept, osr) else 0
    {
      returned := GetPool(requestedBits, hashOk);
      var mixed := Insert(bufLen, 0, initOk, updateOk);
    }
  }

  // ---------------------------------------------------------------------------------------------
  // The ledger over whole runs, at the granularity of the atomic operations on the counter
  // ---------------------------------------------------------------------------------------------

  /**
   Insertions, extractions and hash switches exclude each other (pool lock and hash lock), but each has
   two accesses to the counter, and SetEntropy (the ioctl and the reset) may come in between.
   */
  datatype Phase =
    | Ready
    | Inserting(sum: u32)
    | Extracting(unused: u32, credit: u32, requestedBits: u32)
    | Switching(found: u32)

  datatype Return = Return(bits: u32, requestedBits: u32, digestBits: u32)

  datatype World = World(bits: u32, digestBits: u32, phase: Phase, credited: nat, answers: seq<Return>)

  datatype Action =
    | InsertRead(entropyBits: u32, inbufLen: u32)
    | InsertWrite
    | ExtractTake(requestedBits: u32, hashOk: bool)
    | ExtractPutBack
    | SwitchTake(newDigestBits: u32)
    | SwitchPut
    | Set(value: u32)

  /** Setting the counter credits what it adds. */
  function Step(osr: u32, w: World, a: Action): World {
    match a
    case Set(value) =>
      w.(bits := value, credited := w.credited + if value > w.bits then value - w.bits else 0)
    case InsertRead(entropyBits, inbufLen) =>
      if !w.phase.Ready? then w
      else
        var credit := InsertCredit(entropyBits, inbufLen);
        w.(phase := Inserting(Add(credit, w.bits)), credited := w.credited + credit)
    case InsertWrite =>
      if !w.phase.Inserting? then w else w.(phase := Ready, bits := Min(w.phase.sum, w.digestBits))
    case ExtractTake(requestedBits, hashOk) =>
      if !w.phase.Ready? then w
      else
        var e := Extract(w.bits, w.digestBits, requestedBits, osr);
        w.(bits := 0, phase := Extracting(e.unused, if hashOk then ReduceByOsr(e.kept, osr) else 0, requestedBits))
    case ExtractPutBack =>
      if !w.phase.Extracting? then w
      else
        var Extracting(unused, credit, requestedBits) := w.phase;
        w.(phase := Ready, bits := Add(w.bits, unused), answers := w.answers + [Return(credit, requestedBits, w.digestBits)])
    case SwitchTake(newDigestBits) =>
      if !w.phase.Ready? then w
      else w.(bits := 0, phase := Switching(Min(w.bits, w.digestBits)), digestBits := newDigestBits)
    case SwitchPut =>
      if !w.phase.Switching? then w else w.(phase := Ready, bits := Add(w.bits, w.phase.found))
  }

  function Run(osr: u32, w: World, actions: seq<Action>): World
    decreases |actions|
  {
    if actions == [] then w else Run(osr, Step(osr, w, actions[0]), actions[1..])
  }

  function Returned(answers: seq<Return>): nat {
    if answers == [] then 0 else Returned(answers[..|answers| - 1]) + answers[|answers| - 1].bits
  }

  function InFlight(p: Phase): nat {
    match p
    case Extracting(unused, credit, _) => unused + credit
    case Switching(found) => found
    case _ => 0
  }

  predicate Inv(w: World) {
    && Returned(w.answers) + w.bits + InFlight(w.phase) <= w.credited
    && (w.phase.Inserting? ==> Returned(w.answers) + w.phase.sum <= w.credited)
    && (w.phase.Extracting? ==> w.phase.credit <= Min(w.phase.requestedBits, w.digestBits))
    && forall k | 0 <= k < |w.answers| :: w.answers[k].bits <= Min(w.answers[k].requestedBits, w.answers[k].digestBits)
  }

  lemma StepKeepsInv(osr: u32, w: World, a: Action)
    requires Inv(w)
    ensures Inv(Step(osr, w, a))
  {
    if a.ExtractPutBack? && w.phase.Extracting? {
      var r := Return(w.phase.credit, w.phase.requestedBits, w.digestBits);
      assert (w.answers + [r])[..|w.answers|] == w.answers;
    }
  }

  lemma {:induction false} RunKeepsInv(osr: u32, w: World, actions: seq<Action>)
    requires Inv(w)
    ensures Inv(Run(osr, w, actions))
    decreases |actions|
  {
    if actions != [] {
      StepKeepsInv(osr, w, actions[0]);
      RunKeepsInv(osr, Step(osr, w, actions[0]), actions[1..]);
    }
  }

  /**
   Over any run of insertions, extractions, explicit sets, resets and hash switches: the entropy ever
   returned is covered by the entropy ever credited, and every return is within its request and within
   the digest in use.
   */
  lemma AuxEntropyIsConserved(osr: u32, digestBits: u32, actions: seq<Action>)
    ensures var w := Run(osr, World(0, digestBits, Ready, 0, []), actions);
      && Returned(w.answers) + w.bits + InFlight(w.phase) <= w.credited
      && forall k | 0 <= k < |w.answers| ::
           w.answers[k].bits <= w.answers[k].requestedBits && w.answers[k].bits <= w.answers[k].digestBits
  {
    RunKeepsInv(osr, World(0, digestBits, Ready, 0, []), actions);
  }

  // ---------------------------------------------------------------------------------------------
  // When the raw counter stays within the digest
  // ---------------------------------------------------------------------------------------------

  predicate WithinDigest(w: World) {
    w.bits <= w.digestBits
  }

  /** Digests are at most LRNG_MAX_DIGESTSIZE, and so is what an operation under way will put back. */
  predicate Sane(w: World) {
    && w.digestBits <= MAX_DIGEST_BITS
    && (w.phase.Extracting? ==> w.phase.unused <= MAX_DIGEST_BITS)
    && (w.phase.Switching? ==> w.phase.found <= MAX_DIGEST_BITS)
  }

  predicate SaneAction(a: Action) {
    a.SwitchTake? ==> a.newDigestBits <= MAX_DIGEST_BITS
  }

  /**
   What one counter access needs to leave the counter within the digest: a set value must fit, and what is put back
   must fit on top of what came in since the counter was taken. Everything else caps or empties the counter.
   */
  predicate Fits(w: World, a: Action) {
    match a
    case Set(value) => value <= w.digestBits
    case ExtractPutBack => w.phase.Extracting? ==> w.bits + w.phase.unused <= w.digestBits
    case SwitchPut => w.phase.Switching? ==> w.bits + w.phase.found <= w.digestBits
    case _ => true
  }

  lemma StepWithinDigest(osr: u32, w: World, a: Action)
    requires Sane(w) && SaneAction(a) && WithinDigest(w)
    ensures Sane(Step(osr, w, a))
    ensures WithinDigest(Step(osr, w, a)) <==> Fits(w, a)
  {
  }

  predicate AlwaysWithinDigest(osr: u32, w: World, actions: seq<Action>)
    decreases |actions|
  {
    WithinDigest(w) && (actions != [] ==> AlwaysWithinDigest(osr, Step(osr, w, actions[0]), actions[1..]))
  }

  predicate AllFit(osr: u32, w: World, actions: seq<Action>)
    decreases |actions|
  {
    actions != [] ==> Fits(w, actions[0]) && AllFit(osr, Step(osr, w, actions[0]), actions[1..])
  }

  /** A run keeps the raw counter within the digest all along if and only if every access in it fits. */
  lemma {:induction false} CounterWithinDigestExactly(osr: u32, w: World, actions: seq<Action>)
    requires Sane(w) && WithinDigest(w) && forall i :: 0 <= i < |actions| ==> SaneAction(actions[i])
    ensures AlwaysWithinDigest(osr, w, actions) <==> AllFit(osr, w, actions)
    decreases |actions|
  {
    hide Step, Fits, Sane;
    if actions != [] {
      var next := Step(osr, w, actions[0]);
      StepWithinDigest(osr, w, actions[0]);
      if WithinDigest(next) {
        CounterWithinDigestExactly(osr, next, actions[1..]);
      }
    }
  }

  /** The counter is set to these values, one after the other. */
  function Sets(values: seq<u32>): (r: seq<Action>)
    ensures |r| == |values|
  {
    seq(|values|, i requires 0 <= i < |values| => Set(values[i]))
  }

  /** What the last of them leaves in a counter that was empty before. */
  function LastSet(values: seq<u32>): u32 {
    if values == [] then 0 else values[|values| - 1]
  }

  lemma {:induction false} RunAppend(osr: u32, w: World, a: seq<Action>, b: seq<Action>)
    ensures Run(osr, w, a + b) == Run(osr, Run(osr, w, a), b)
    decreases |a|
  {
    if a == [] {
      assert a + b == b;
    } else {
      assert (a + b)[1..] == a[1..] + b;
      RunAppend(osr, Step(osr, w, a[0]), a[1..], b);
    }
  }

  lemma RunOfOne(osr: u32, w: World, a: Action)
    ensures Run(osr, w, [a]) == Step(osr, w, a)
  {
    hide Step;
    assert [a][1..] == [];
    assert Run(osr, w, [a]) == Run(osr, Step(osr, w, a), []);
  }

  lemma {:induction false} SetsRun(osr: u32, w: World, values: seq<u32>)
    ensures var r := Run(osr, w, Sets(values));
      r.bits == (if values == [] then w.bits else LastSet(values)) && r.digestBits == w.digestBits && r.phase == w.phase
    decreases |values|
  {
    if values != [] {
      var n := |values| - 1;
      SetsRun(osr, w, values[..n]);
      assert Sets(values) == Sets(values[..n]) + [Set(values[n])];
      RunAppend(osr, w, Sets(values[..n]), [Set(values[n])]);
      RunOfOne(osr, Run(osr, w, Sets(values[..n])), Set(values[n]));
    }
  }

  /** An operation that takes the counter out and puts a part back, with sets in between. */
  lemma TakeSetPut(osr: u32, w: World, take: Action, values: seq<u32>, put: Action)
    ensures Run(osr, w, [take] + Sets(values) + [put]) == Step(osr, Run(osr, Step(osr, w, take), Sets(values)), put)
  {
    hide Step;
    RunAppend(osr, w, [take] + Sets(values), [put]);
    RunAppend(osr, w, [take], Sets(values));
    RunOfOne(osr, w, take);
    RunOfOne(osr, Run(osr, Step(osr, w, take), Sets(values)), put);
  }

  /**
   In terms of what came in between: an extraction ends within the digest exactly if the last value that the counter was
   set to meanwhile leaves room for the bits that were not needed, in the 32-bit sum.
   */
  lemma ExtractionFitsExactly(osr: u32, w: World, requestedBits: u32, hashOk: bool, values: seq<u32>)
    requires Sane(w) && w.phase.Ready?
    ensures var r := Run(osr, w, [ExtractTake(requestedBits, hashOk)] + Sets(values) + [ExtractPutBack]);
      r.phase.Ready? && (WithinDigest(r)
        <==> Add(LastSet(values), Extract(w.bits, w.digestBits, requestedBits, osr).unused) <= w.digestBits)
  {
    TakeSetPut(osr, w, ExtractTake(requestedBits, hashOk), values, ExtractPutBack);
    SetsRun(osr, Step(osr, w, ExtractTake(requestedBits, hashOk)), values);
    hide Run;
  }

  /** And a hash switch exactly if it leaves room in the new digest for what the old digest held. */
  lemma SwitchFitsExactly(osr: u32, w: World, newDigestBits: u32, values: seq<u32>)
    requires Sane(w) && w.phase.Ready? && newDigestBits <= MAX_DIGEST_BITS
    ensures var r := Run(osr, w, [SwitchTake(newDigestBits)] + Sets(values) + [SwitchPut]);
      r.phase.Ready? && (WithinDigest(r) <==> Add(LastSet(values), Min(w.bits, w.digestBits)) <= newDigestBits)
  {
    TakeSetPut(osr, w, SwitchTake(newDigestBits), values, SwitchPut);
    SetsRun(osr, Step(osr, w, SwitchTake(newDigestBits)), values);
    hide Run;
  }

  /** What the callers control: no set while the counter is taken out, none above the digest, no switch to less than is counted. */
  predicate Undisturbed(w: World, a: Action) {
    match a
    case Set(value) => !w.phase.Extracting? && !w.phase.Switching? && value <= w.digestBits
    case SwitchTake(newDigestBits) => w.phase.Ready? ==> w.bits <= newDigestBits
    case _ => true
  }

  predicate AllUndisturbed(osr: u32, w: World, actions: seq<Action>)
    decreases |actions|
  {
    actions != [] ==> Undisturbed(w, actions[0]) && AllUndisturbed(osr, Step(osr, w, actions[0]), actions[1..])
  }

  /** While a counter is taken out it stays zero, and what will be put back fits. */
  predicate Quiet(w: World) {
    && WithinDigest(w)
    && (w.phase.Extracting? ==> w.bits == 0 && w.phase.unused <= w.digestBits)
    && (w.phase.Switching? ==> w.bits == 0 && w.phase.found <= w.digestBits)
  }

  lemma {:induction false} UndisturbedRunsFit(osr: u32, w: World, actions: seq<Action>)
    requires Quiet(w) && AllUndisturbed(osr, w, actions)
    ensures AlwaysWithinDigest(osr, w, actions)
    decreases |actions|
  {
    if actions != [] {
      UndisturbedRunsFit(osr, Step(osr, w, actions[0]), actions[1..]);
    }
  }

  /** The first cause of a misfit: from boot, a switch from a 64-byte to a 32-byte digest leaves 512 bits counted. */
  lemma CounterMayExceedDigest()
    ensures var w := Run(0, World(0, 512, Ready, 0, []), [InsertRead(512, 64), InsertWrite, SwitchTake(256), SwitchPut]);
      w.phase.Ready? && w.bits == 512 > w.digestBits == 256
  {
    var a := [InsertRead(512, 64), InsertWrite, SwitchTake(256), SwitchPut];
    var w0 := World(0, 512, Ready, 0, []);
    var w1 := Step(0, w0, a[0]);
    var w2 := Step(0, w1, a[1]);
    assert a[1..][1..] == [SwitchTake(256), SwitchPut];
    assert Run(0, w0, a) == Run(0, w1, a[1..]) == Run(0, w2, a[1..][1..]);
    RunOfTwo(0, w2, SwitchTake(256), SwitchPut);
  }

  /** The second cause: the counter is set, which takes no pool lock, between the two accesses of an extraction. */
  lemma SetMayExceedDigest()
    ensures var w := Run(0, World(256, 256, Ready, 256, []), [ExtractTake(100, true), Set(256), ExtractPutBack]);
      w.phase.Ready? && w.bits == 412 > w.digestBits == 256
  {
    var w0 := World(256, 256, Ready, 256, []);
    var w1 := Step(0, w0, ExtractTake(100, true));
    assert [ExtractTake(100, true), Set(256), ExtractPutBack][1..] == [Set(256), ExtractPutBack];
    RunOfTwo(0, w1, Set(256), ExtractPutBack);
  }

  lemma RunOfTwo(osr: u32, w: World, a: Action, b: Action)
    ensures Run(osr, w, [a, b]) == Step(osr, Step(osr, w, a), b)
  {
    hide Step;
    var w1 := Step(osr, w, a);
    assert [a, b][1..] == [b];
    assert Run(osr, w, [a, b]) == Run(osr, w1, [b]);
    assert [b][1..] == [];
    assert Run(osr, w1, [b]) == Run(osr, Step(osr, w1, b), []);
  }

  /** An undisturbed extraction is the two steps of the machine; it loses nothing but the discount. */
  lemma ExtractionIsTwoSteps(osr: u32, w: World, requestedBits: u32)
    requires w.phase.Ready?
    ensures var e := Extract(w.bits, w.digestBits, requestedBits, osr);
      Run(osr, w, [ExtractTake(requestedBits, true), ExtractPutBack])
      == w.(bits := e.unused, answers := w.answers + [Return(ReduceByOsr(e.kept, osr), requestedBits, w.digestBits)])
  {
    var a := [ExtractTake(requestedBits, true), ExtractPutBack];
    var w1 := Step(osr, w, a[0]);
    assert a[1..][1..] == [];
    assert Run(osr, w, a) == Run(osr, w1, a[1..]);
  }

  // ---------------------------------------------------------------------------------------------
  // What an insertion adds and what an extraction returns
  // ---------------------------------------------------------------------------------------------

  /** An insertion adds the stated bits, but at most 8 a byte of the buffer, as far as the digest has room. */
  lemma InsertionAddsExactly(osr: u32, w: World, entropyBits: u32, inbufLen: u32)
    requires w.phase.Ready?
    ensures var r := Run(osr, w, [InsertRead(entropyBits, inbufLen), InsertWrite]);
      && r.phase.Ready? && r.bits <= w.digestBits && r.bits <= w.bits + entropyBits && r.bits <= w.bits + 8 * inbufLen
      && (w.bits + entropyBits < TWO32 && 8 * inbufLen < TWO32 ==>
            r.bits == w.digestBits || r.bits == w.bits + entropyBits || r.bits == w.bits + 8 * inbufLen)
  {
    RunOfTwo(osr, w, InsertRead(entropyBits, inbufLen), InsertWrite);
  }

  /** What an extraction returns is the request, capped to digest and maximal digest, or the estimate if that is less. */
  lemma ReturnIsRequestOrEstimate(bits: u32, digestBits: u32, requestedBits: u32, osr: u32)
    requires 512 + osr < TWO32
    ensures var returned, estimate := ReduceByOsr(Extract(bits, digestBits, requestedBits, osr).kept, osr), ReduceByOsr(Min(digestBits, bits), osr);
      && returned <= requestedBits && returned <= digestBits && returned <= 512 && returned <= estimate
      && (returned == requestedBits || returned == digestBits || returned == 512 || returned == estimate)
  {
  }
}
