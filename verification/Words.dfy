/** Unsigned 32-bit machine words with the wrap-around of C's `u32` and `atomic_t`. */
module Words {

  const TWO32: int := 0x1_0000_0000

  type u32 = x: int | 0 <= x < 0x1_0000_0000

  /** The value kept when an integer is stored in 32 bits. */
  function Wrap(x: int): (r: u32)
    ensures 0 <= x < TWO32 ==> r == x
    ensures 0 <= x ==> r <= x
    ensures -TWO32 <= x < 0 ==> r == x + TWO32
  {
    x % TWO32
  }

  /** Wrapping an operand first makes no difference. */
  lemma WrapOfWrap(a: int, b: int)
    ensures Wrap(Wrap(a) + b) == Wrap(a + b)
  {
  }

  function Add(a: u32, b: u32): (r: u32) {
    Wrap(a + b)
  }

  function Sub(a: u32, b: u32): (r: u32) {
    Wrap(a - b)
  }

  function Min(a: int, b: int): int {
    if a < b then a else b
  }

  /** Sum of a sequence of counters, without wrap-around. */
  function Sum(s: seq<nat>): nat {
    if s == [] then 0 else s[0] + Sum(s[1..])
  }

  lemma {:induction false} SumUpdate(s: seq<nat>, i: nat, v: nat)
    requires i < |s|
    ensures Sum(s[i := v]) == Sum(s) - s[i] + v
  {
    if i == 0 {
      assert s[0 := v][1..] == s[1..];
    } else {
      assert s[i := v][1..] == s[1..][i - 1 := v];
      SumUpdate(s[1..], i - 1, v);
    }
  }

  lemma {:induction false} SumAtLeast(s: seq<nat>, i: nat)
    requires i < |s|
    ensures s[i] <= Sum(s)
  {
    if i > 0 {
      SumAtLeast(s[1..], i - 1);
    }
  }

  lemma {:induction false} SumAppend(s: seq<nat>, t: seq<nat>)
    ensures Sum(s + t) == Sum(s) + Sum(t)
  {
    if s == [] {
      assert s + t == t;
    } else {
      assert (s + t)[1..] == s[1..] + t;
      SumAppend(s[1..], t);
    }
  }

  lemma SumLast(s: seq<nat>)
    requires s != []
    ensures Sum(s) == Sum(s[..|s| - 1]) + s[|s| - 1]
  {
    var n := |s| - 1;
    assert s == s[..n] + [s[n]];
    SumAppend(s[..n], [s[n]]);
  }

  lemma {:induction false} SumDominates(a: seq<nat>, b: seq<nat>)
    requires |a| == |b| && forall i :: 0 <= i < |a| ==> a[i] >= b[i]
    ensures Sum(a) >= Sum(b)
  {
    if a != [] {
      SumDominates(a[1..], b[1..]);
    }
  }

  lemma {:induction false} SumAtMost(s: seq<nat>, cap: nat)
    requires forall i :: 0 <= i < |s| ==> s[i] <= cap
    ensures Sum(s) <= cap * |s|
  {
    if s != [] {
      SumAtMost(s[1..], cap);
      assert cap * |s| == cap * |s[1..]| + cap;
    }
  }

  // ---------------------------------------------------------------------------------------------
  // Flags over a run
  // ---------------------------------------------------------------------------------------------

  /** What one step of a run does to a flag. */
  datatype Signal = Sets | Clears | Keeps

  /** Some step sets the flag and no later one clears it; or it was set before, and no step clears it. */
  ghost predicate LastWins(start: bool, signals: seq<Signal>) {
    || (exists k :: 0 <= k < |signals| && signals[k].Sets? && NoneClears(signals, k + 1))
    || (start && NoneClears(signals, 0))
  }

  predicate NoneClears(signals: seq<Signal>, from: nat) {
    forall j :: from <= j < |signals| ==> !signals[j].Clears?
  }

  lemma NoSignals(start: bool)
    ensures LastWins(start, []) <==> start
  {
  }

  lemma FirstSignal(start: bool, x: Signal, rest: seq<Signal>)
    ensures LastWins(start, [x] + rest) <==> LastWins(x.Sets? || (start && x.Keeps?), rest)
  {
    var all := [x] + rest;
    forall k: nat | k <= |rest|
      ensures NoneClears(all, k + 1) <==> NoneClears(rest, k)
    {
      assert forall j :: k <= j < |rest| ==> all[j + 1] == rest[j];
    }
    assert all[0] == x;
    hide NoneClears;
    if LastWins(start, all) {
      if k :| 0 <= k < |all| && all[k].Sets? && NoneClears(all, k + 1) {
        assert k > 0 ==> rest[k - 1].Sets? && NoneClears(rest, k - 1 + 1);
      }
    }
    if LastWins(x.Sets? || (start && x.Keeps?), rest) {
      if k :| 0 <= k < |rest| && rest[k].Sets? && NoneClears(rest, k + 1) {
        assert all[k + 1].Sets? && NoneClears(all, k + 1 + 1);
      } else if x.Sets? {
        assert all[0].Sets? && NoneClears(all, 0 + 1);
      }
    }
  }

  // ---------------------------------------------------------------------------------------------
  // Products and remainders
  // ---------------------------------------------------------------------------------------------

  lemma MulOrder(d: int, a: int, b: int)
    requires d >= 0 && a <= b
    ensures d * a <= d * b
  {
  }

  lemma RemainderOf(d: int, q: int, r: int)
    requires 0 <= r < d
    ensures (d * q + r) % d == r && (d * q + r) / d == q
  {
    var a := d * q + r;
    SameQuotient(d, q, r, a / d, a % d);
  }

  lemma SameQuotient(d: int, q: int, r: int, q': int, r': int)
    requires 0 <= r < d && 0 <= r' < d && d * q + r == d * q' + r'
    ensures q == q' && r == r'
  {
    var k := q - q';
    assert d * k == d * q - d * q';
    if k >= 1 {
      MulOrder(d, 1, k);
    } else if k <= -1 {
      MulOrder(d, k, -1);
    }
  }
}
