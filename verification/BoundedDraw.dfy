/**
 Batched 32-bit random numbers and the draw below a bound (lrng_interface_aux.c:70-149, 182-214). What
 lrng_get_random_bytes delivers is an arbitrary stream of words; the draw is uniform over the words it accepts.
 */
module BoundedDraw {
  import opened Words

  /** LRNG_DRNG_BLOCKSIZE bytes in 32-bit words */
  const BATCH := 16

  type Stream = nat -> u32

  /** The full test of the draw: the low word reaches 2^32 mod ceil. The bound 0 accepts everything. */
  predicate Accepts(ceil: u32, x: u32) {
    ceil == 0 || Wrap(ceil * x) >= TWO32 % ceil
  }

  /** The high word of the product. */
  function Scale(ceil: u32, x: u32): int {
    ceil * x / TWO32
  }

  /** Index of the first accepted word of the stream. */
  function FirstAccepted(source: Stream, ceil: u32, from: nat, stop: nat): (r: nat)
    requires from <= stop && Accepts(ceil, source(stop))
    ensures from <= r <= stop && Accepts(ceil, source(r))
    ensures forall k: nat :: from <= k < r ==> !Accepts(ceil, source(k))
    decreases stop - from
  {
    if Accepts(ceil, source(from)) then from else FirstAccepted(source, ceil, from + 1, stop)
  }

  class Batch {
    const source: Stream
    const buf: array<u32>
    var position: nat
    /** Words taken from the stream so far. */
    var drawn: nat

    ghost predicate Valid()
      reads this, buf
    {
      && buf.Length == BATCH && position <= BATCH
      && (position % BATCH != 0 ==> drawn >= BATCH && forall k :: 0 <= k < BATCH ==> buf[k] == source(drawn - BATCH + k))
    }

    /** Index of the word of the stream that the next call delivers. */
    ghost function Cursor(): nat
      requires Valid()
      reads this, buf
    {
      if position % BATCH == 0 then drawn else drawn - BATCH + position
    }

    constructor (source: Stream)
      ensures Valid() && Cursor() == 0 && this.source == source && fresh(buf)
    {
      this.source := source;
      buf := new u32[BATCH](i => 0);
      position, drawn := 0, 0;
    }

    /** get_random_u32: every word of the stream once and in order. */
    method GetRandomU32() returns (ret: u32)
      requires Valid()
      modifies this, buf
      ensures Valid() && Cursor() == old(Cursor()) + 1
      ensures ret == source(old(Cursor()))
    {
      if position % BATCH == 0 {
        for i := 0 to BATCH
          invariant forall k :: 0 <= k < i ==> buf[k] == source(drawn + k)
          invariant position == old(position) && drawn == old(drawn)
        {
          buf[i] := source(drawn + i);
        }
        drawn := drawn + BATCH;
        position := 0;
      }
      ret := buf[position];
      position := position + 1;
    }

    /** invalidate_batched_entropy and random_prepare_cpu, for this batch: the words left over are never delivered. */
    method Invalidate()
      requires Valid()
      modifies this`position
      ensures Valid() && old(Cursor()) <= Cursor() == drawn
    {
      position := 0;
    }

    /**
     __get_random_u32_below: the scaled value of the first accepted word, and no word beyond it is taken. The
     stream must hold an accepted word for the loop to end.
     */
    method Below(ceil: u32, ghost stop: nat) returns (ret: u32)
      requires Valid() && Cursor() <= stop && Accepts(ceil, source(stop))
      modifies this, buf
      ensures Valid() && Cursor() == FirstAccepted(source, ceil, old(Cursor()), stop) + 1
      ensures ret == Scale(ceil, source(FirstAccepted(source, ceil, old(Cursor()), stop)))
      ensures ret < ceil || (ceil == 0 && ret == 0)
    {
      hide Accepts, Wrap;
      ghost var start := Cursor();
      ghost var at := start;
      var x := GetRandomU32();
      FastCheck(ceil, x);
      if Wrap(ceil * x) < ceil {
        var bound := Sub(0, ceil) % ceil;
        while Wrap(ceil * x) < bound
          invariant Valid() && start <= at <= stop && Cursor() == at + 1 && x == source(at)
          invariant FirstAccepted(source, ceil, start, stop) == FirstAccepted(source, ceil, at, stop)
          decreases stop - at
        {
          FastCheck(ceil, x);
          at := at + 1;
          x := GetRandomU32();
        }
        FastCheck(ceil, x);
      }
      ScaleBelow(ceil, x);
      ret := ceil * x / TWO32;
    }
  }

  /** The test before the loop and the computed bound decide as the full test does. */
  lemma FastCheck(ceil: u32, x: u32)
    ensures Wrap(ceil * x) >= ceil ==> Accepts(ceil, x)
    ensures Wrap(ceil * x) < ceil ==> ceil > 0 && (Accepts(ceil, x) <==> Wrap(ceil * x) >= Sub(0, ceil) % ceil)
  {
    if ceil > 0 {
      BoundIsRemainder(ceil);
    }
  }

  lemma BoundIsRemainder(ceil: u32)
    requires ceil > 0
    ensures Sub(0, ceil) % ceil == TWO32 % ceil
  {
    var q, r := TWO32 / ceil, TWO32 % ceil;
    assert Sub(0, ceil) == TWO32 - ceil;
    assert TWO32 - ceil == ceil * (q - 1) + r;
    RemainderOf(ceil, q - 1, r);
  }

  lemma ScaleBelow(ceil: u32, x: u32)
    ensures 0 <= Scale(ceil, x)
    ensures ceil > 0 ==> Scale(ceil, x) < ceil
    ensures ceil == 0 ==> Scale(ceil, x) == 0
  {
    if ceil > 0 {
      assert ceil * x < ceil * TWO32;
    }
  }

  // ---------------------------------------------------------------------------------------------
  // Uniformity
  // ---------------------------------------------------------------------------------------------

  /** The smallest word accepted for a value. */
  function Lowest(ceil: u32, v: nat): int
    requires ceil > 0
  {
    (v * TWO32 + TWO32 % ceil + ceil - 1) / ceil
  }

  function Span(lo: int, n: nat): (r: set<int>)
    ensures |r| == n
    ensures forall x :: x in r <==> lo <= x < lo + n
  {
    if n == 0 then {} else Span(lo, n - 1) + {lo + n - 1}
  }

  function HitsOf(ceil: u32, v: int): set<int> {
    set x: int | 0 <= x < TWO32 && Accepts(ceil, x) && Scale(ceil, x) == v
  }

  lemma SpanEdges(ceil: u32, v: nat) returns (lo: int, q: int, r: int)
    requires ceil > 0 && v < ceil
    ensures lo == Lowest(ceil, v) && q == TWO32 / ceil && r == TWO32 % ceil && 0 <= r < ceil
    ensures ceil * (lo - 1) < v * TWO32 + r <= ceil * lo
    ensures ceil * (lo + q - 1) < v * TWO32 + TWO32 <= ceil * (lo + q)
  {
    q, r, lo := TWO32 / ceil, TWO32 % ceil, Lowest(ceil, v);
    assert TWO32 == ceil * q + r;
    CeilingBounds(v * TWO32 + r, ceil);
    assert ceil * (lo + q) == ceil * lo + ceil * q;
    assert ceil * (lo + q - 1) == ceil * (lo - 1) + ceil * q;
  }

  /** A word hits a value exactly if it lies in the run of 2^32 / ceil words from the lowest one. */
  lemma HitsAreSpan(ceil: u32, v: nat, x: int)
    requires ceil > 0 && v < ceil
    ensures var lo := Lowest(ceil, v);
      0 <= x < TWO32 && Accepts(ceil, x) && Scale(ceil, x) == v <==> lo <= x < lo + TWO32 / ceil
  {
    hide Lowest;
    var lo, q, r := SpanEdges(ceil, v);
    if lo <= x < lo + q {
      SpanHits(ceil, v, x, lo, q, r);
    } else if 0 <= x < TWO32 && Accepts(ceil, x) && Scale(ceil, x) == v {
      assert ceil * x == v * TWO32 + Wrap(ceil * x);
      if x < lo {
        MulOrder(ceil, x, lo - 1);
      } else {
        MulOrder(ceil, lo + q, x);
      }
      assert false;
    }
  }

  lemma SpanHits(ceil: u32, v: nat, x: int, lo: int, q: int, r: int)
    requires 0 < ceil && v < ceil && r == TWO32 % ceil && lo <= x < lo + q
    requires v * TWO32 + r <= ceil * lo && ceil * (lo + q - 1) < v * TWO32 + TWO32
    ensures 0 <= x < TWO32 && Accepts(ceil, x) && Scale(ceil, x) == v
  {
    MulOrder(ceil, lo, x);
    MulOrder(ceil, x, lo + q - 1);
    InWindow(ceil * x, v);
    assert ceil * x < ceil * TWO32 by {
      MulOrder(TWO32, v + 1, ceil);
    }
    if x >= TWO32 {
      MulOrder(ceil, TWO32, x);
    }
    if x < 0 {
      MulOrder(ceil, x, -1);
    }
  }

  lemma CeilingBounds(edge: int, d: int)
    requires d > 0
    ensures var lo := (edge + d - 1) / d; d * lo >= edge && d * (lo - 1) < edge
  {
  }

  lemma InWindow(p: int, v: int)
    requires v * TWO32 <= p < v * TWO32 + TWO32
    ensures p / TWO32 == v && Wrap(p) == p - v * TWO32
  {
  }

  /** Every value below the bound is hit by the same number of accepted words. */
  lemma Uniform(ceil: u32, v: int)
    requires 0 <= v < ceil
    ensures |HitsOf(ceil, v)| == TWO32 / ceil
  {
    hide Accepts, Scale, Lowest;
    var span := Span(Lowest(ceil, v), TWO32 / ceil);
    forall x: int
      ensures x in HitsOf(ceil, v) <==> x in span
    {
      HitsAreSpan(ceil, v, x);
    }
    assert HitsOf(ceil, v) == span;
  }

  function AcceptedBelow(ceil: u32, v: int): set<int> {
    set x: int | 0 <= x < TWO32 && Accepts(ceil, x) && Scale(ceil, x) < v
  }

  lemma {:induction false} AcceptedCount(ceil: u32, v: nat)
    requires v <= ceil && ceil > 0
    ensures |AcceptedBelow(ceil, v)| == v * (TWO32 / ceil)
  {
    hide Accepts, Scale;
    if v == 0 {
      forall x: u32
        ensures !(Scale(ceil, x) < 0)
      {
        ScaleBelow(ceil, x);
      }
      assert AcceptedBelow(ceil, 0) == {};
    } else {
      AcceptedCount(ceil, v - 1);
      Uniform(ceil, v - 1);
      assert AcceptedBelow(ceil, v) == AcceptedBelow(ceil, v - 1) + HitsOf(ceil, v - 1);
      assert AcceptedBelow(ceil, v - 1) !! HitsOf(ceil, v - 1);
    }
  }

  /** Of all 2^32 words exactly 2^32 mod ceil are drawn again. */
  lemma RejectedCount(ceil: u32)
    requires ceil > 0
    ensures |set x: int | 0 <= x < TWO32 && !Accepts(ceil, x)| == TWO32 % ceil
  {
    hide Accepts, Scale, Span;
    var n := TWO32;
    assert n == ceil * (n / ceil) + n % ceil;
    var all := Span(0, n);
    var rejected := set x: int | 0 <= x < TWO32 && !Accepts(ceil, x);
    forall x: u32
      ensures Scale(ceil, x) < ceil
    {
      ScaleBelow(ceil, x);
    }
    AcceptedCount(ceil, ceil);
    assert all == AcceptedBelow(ceil, ceil) + rejected;
    assert AcceptedBelow(ceil, ceil) !! rejected;
  }
}
