/** The helpers that convert between bits of entropy and numbers of events (lrng_definitions.h). */
module Conversion {
  import opened Words

  /** LRNG_DRNG_SECURITY_STRENGTH_BITS */
  const STRENGTH_BITS: u32 := 256

  /** Number of events that stand for the given bits; the product is a 32-bit one. */
  function EntropyToData(bits: u32, rate: u32): (events: u32)
    ensures 256 * events <= bits * rate
    ensures 256 * events < TWO32
  {
    assert bits * rate >= 0;
    Wrap(bits * rate) / 256
  }

  /** Bits of entropy that the given events stand for; the product is a 32-bit one. */
  function DataToEntropy(events: u32, rate: u32): (bits: u32)
    requires rate > 0
    ensures rate * bits <= 256 * events
  {
    QuotientBounds(Wrap(events * 256), rate);
    Wrap(events * 256) / rate
  }

  /** Oversampling discount: SP800-90C mode withholds `osr` bits from every delivery. */
  function ReduceByOsr(bits: u32, osr: u32): (r: u32)
    ensures r <= bits
  {
    if bits >= osr then bits - osr else 0
  }

  lemma QuotientBounds(x: nat, d: nat)
    requires d > 0
    ensures 0 <= x / d <= x
    ensures d * (x / d) <= x < d * (x / d) + d
  {
    assert x == d * (x / d) + x % d;
    if x / d > x {
      MulOrder(x / d, 1, d);
      assert false;
    }
  }

  lemma MulCancel(a: int, b: int, c: int)
    requires 0 < c && c * a <= c * b
    ensures a <= b
  {
    if a > b {
      MulOrder(c, b + 1, a);
      assert false;
    }
  }

  lemma QuotientMonotone(x: nat, y: nat, d: nat)
    requires d > 0 && x <= y
    ensures x / d <= y / d
  {
    QuotientBounds(x, d);
    QuotientBounds(y, d);
    if x / d > y / d {
      MulOrder(d, y / d + 1, x / d);
      assert false;
    }
  }

  /** Where the 32-bit products do not wrap, both conversions give the most that is paid for. */
  lemma ConversionsAreQuotients(bits: u32, events: u32, rate: u32)
    ensures bits * rate < TWO32 ==> bits * rate < 256 * (EntropyToData(bits, rate) + 1)
    ensures rate > 0 && events * 256 < TWO32 ==> events * 256 < rate * (DataToEntropy(events, rate) + 1)
  {
    assert bits * rate >= 0;
    if rate > 0 && events * 256 < TWO32 {
      QuotientBounds(events * 256, rate);
      assert rate * (events * 256 / rate + 1) == rate * (events * 256 / rate) + rate;
    }
  }

  /** Asking for the events of some bits and crediting them gives the bits back, up to one. */
  lemma ConversionRoundTrip(bits: u32, rate: u32)
    requires rate >= 256 && bits * rate < TWO32
    ensures bits - 1 <= DataToEntropy(EntropyToData(bits, rate), rate) <= bits
    ensures bits * rate % 256 == 0 ==> DataToEntropy(EntropyToData(bits, rate), rate) == bits
  {
    var events := EntropyToData(bits, rate);
    var back := DataToEntropy(events, rate);
    ConversionsAreQuotients(bits, events, rate);
    assert bits * rate % 256 == 0 ==> 256 * events == bits * rate;
    hide EntropyToData, DataToEntropy;
    assert rate * back <= rate * bits;
    MulCancel(back, bits, rate);
    assert rate * (back + 2) == rate * (back + 1) + rate;
    MulCancel(bits, back + 2, rate);
  }
}
