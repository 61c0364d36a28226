/**
 The LFSR conditioner (addon/lfsr): one input byte is rotated and folded, with four taps, into one of
 32 pool bytes. Absorbing loses nothing, is linear, and its schedule covers every position and rotation.
 */
module Lfsr {

  /** LRNG_LFSR_STATESIZE */
  const SIZE := 32

  /** `ptr` and `rotate` are the position and the rotation used for the latest byte. */
  datatype Context = Context(ptr: nat, rotate: nat, pool: seq<bv8>)

  predicate Valid(c: Context) {
    c.ptr < SIZE && c.rotate < 8 && |c.pool| == SIZE
  }

  const INIT := Context(0, 0, seq(SIZE, _ => 0))

  /** rol8 for amounts below 8 */
  function Rol8(b: bv8, k: bv8): bv8
    requires k < 8
  {
    (b << k) | (b >> (8 - k))
  }

  function Ror8(b: bv8, k: bv8): bv8
    requires k < 8
  {
    (b >> k) | (b << (8 - k))
  }

  function Amount(n: nat): (k: bv8)
    requires n < 8
    ensures k < 8
  {
    n as bv8
  }

  function Rol(b: bv8, n: nat): bv8
    requires n < 8
  {
    Rol8(b, Amount(n))
  }

  function Ror(b: bv8, n: nat): bv8
    requires n < 8
  {
    Ror8(b, Amount(n))
  }

  function Xor8(a: bv8, b: bv8): bv8 {
    a ^ b
  }

  lemma Rol8Cancels(b: bv8, k: bv8)
    requires k < 8
    ensures Ror8(Rol8(b, k), k) == b && Rol8(Ror8(b, k), k) == b
  {
  }

  lemma Rol8IsLinear(a: bv8, b: bv8, k: bv8)
    requires k < 8
    ensures Rol8(a ^ b, k) == Rol8(a, k) ^ Rol8(b, k)
  {
  }

  lemma RotationsCancel(b: bv8, n: nat)
    requires n < 8
    ensures Ror(Rol(b, n), n) == b && Rol(Ror(b, n), n) == b
  {
    hide Rol8, Ror8, Amount;
    Rol8Cancels(b, Amount(n));
  }

  lemma RotationIsLinear(a: bv8, b: bv8, n: nat)
    requires n < 8
    ensures Rol(Xor8(a, b), n) == Xor8(Rol(a, n), Rol(b, n))
  {
    hide Rol8, Ror8, Amount;
    Rol8IsLinear(a, b, Amount(n));
  }

  lemma Mod32(x: int, q: int, r: int)
    requires x == 32 * q + r && 0 <= r < 32
    ensures x / 32 == q && x % 32 == r
  {
  }

  lemma Mod8(x: int, q: int, r: int)
    requires x == 8 * q + r && 0 <= r < 8
    ensures x / 8 == q && x % 8 == r
  {
  }

  /** Position and rotation for the byte after the one that used (ptr, rotate). */
  function NextPtr(ptr: nat): (p: nat)
    ensures p < SIZE
  {
    (ptr + 13) % SIZE
  }

  function NextRotate(ptr: nat, rotate: nat): (r: nat)
    ensures r < 8
  {
    (rotate + if NextPtr(ptr) == 0 then 6 else 3) % 8
  }

  /** The bytes at the polynomial's taps 31, 29, 25 and 24, relative to position p. */
  function Taps(pool: seq<bv8>, p: nat): bv8
    requires |pool| == SIZE && p < SIZE
  {
    Xor8(Xor8(Xor8(pool[(p + 31) % SIZE], pool[(p + 29) % SIZE]), pool[(p + 25) % SIZE]), pool[(p + 24) % SIZE])
  }

  /** The new pool byte from the rotated input, the old byte and the taps. */
  function Fold(rolled: bv8, previous: bv8, taps: bv8): bv8 {
    Xor8(Xor8(rolled, previous), taps)
  }

  /** Absorb one byte. */
  function Step(c: Context, value: bv8): (r: Context)
    requires Valid(c)
    ensures Valid(r)
  {
    var p, rot := NextPtr(c.ptr), NextRotate(c.ptr, c.rotate);
    Context(p, rot, c.pool[p := Fold(Rol(value, rot), c.pool[p], Taps(c.pool, p))])
  }

  function Absorb(c: Context, input: seq<bv8>): (r: Context)
    requires Valid(c)
    ensures Valid(r)
    decreases |input|
  {
    if input == [] then c else Absorb(Step(c, input[0]), input[1..])
  }

  lemma Xor8Associates(a: bv8, b: bv8, c: bv8)
    ensures Xor8(Xor8(a, b), c) == Xor8(a, Xor8(b, c))
  {
  }

  lemma Xor8Commutes(a: bv8, b: bv8)
    ensures Xor8(a, b) == Xor8(b, a)
  {
  }

  lemma OneByOne(rolled: bv8, previous: bv8, a: bv8, b: bv8, c: bv8, d: bv8)
    ensures Xor8(Xor8(Xor8(Xor8(Xor8(rolled, previous), a), b), c), d)
         == Fold(rolled, previous, Xor8(Xor8(Xor8(a, b), c), d))
  {
    hide Xor8;
    var w := Xor8(rolled, previous);
    Xor8Associates(w, a, b);
    Xor8Associates(w, Xor8(a, b), c);
    Xor8Associates(w, Xor8(Xor8(a, b), c), d);
  }

  class Conditioner {
    var ptr: nat
    var rotate: nat
    const pool: array<bv8>

    predicate Ok()
      reads this
    {
      ptr < SIZE && rotate < 8 && pool.Length == SIZE
    }

    function View(): (c: Context)
      requires Ok()
      reads this, pool
      ensures Valid(c)
    {
      Context(ptr, rotate, pool[..])
    }

    /** lrng_lfsr_init */
    constructor ()
      ensures Ok() && View() == INIT && fresh(pool)
    {
      ptr, rotate := 0, 0;
      pool := new bv8[SIZE](_ => 0);
      new;
      assert pool[..] == INIT.pool;
    }

    /** lrng_lfsr_u8 */
    method AbsorbByte(value: bv8)
      requires Ok()
      modifies this, pool
      ensures Ok() && View() == Step(old(View()), value)
    {
      hide Rol, Fold, Xor8;
      ghost var c := View();
      ptr := (ptr + 13) % SIZE;
      rotate := (rotate + if ptr != 0 then 3 else 6) % 8;
      assert ptr == NextPtr(c.ptr) && rotate == NextRotate(c.ptr, c.rotate);
      hide NextPtr, NextRotate;
      var word := Rol(value, rotate);
      OneByOne(word, pool[ptr], pool[(ptr + 31) % SIZE], pool[(ptr + 29) % SIZE], pool[(ptr + 25) % SIZE], pool[(ptr + 24) % SIZE]);
      word := Xor8(word, pool[ptr]);
      word := Xor8(word, pool[(ptr + 31) % SIZE]);
      word := Xor8(word, pool[(ptr + 29) % SIZE]);
      word := Xor8(word, pool[(ptr + 25) % SIZE]);
      word := Xor8(word, pool[(ptr + 24) % SIZE]);
      assert word == Fold(Rol(value, rotate), c.pool[ptr], Taps(c.pool, ptr));
      hide Taps;
      pool[ptr] := word;
      assert pool[..] == c.pool[ptr := word];
    }

    /** lrng_lfsr_update */
    method Update(input: seq<bv8>)
      requires Ok()
      modifies this, pool
      ensures Ok() && View() == Absorb(old(View()), input)
    {
      for i := 0 to |input|
        invariant Ok() && Absorb(View(), input[i..]) == Absorb(old(View()), input)
      {
        AbsorbByte(input[i]);
      }
    }

    /** lrng_lfsr_final */
    method Final() returns (digest: seq<bv8>)
      requires Ok()
      ensures digest == View().pool
    {
      digest := pool[..];
    }
  }

  lemma {:induction false} AbsorbAppend(c: Context, a: seq<bv8>, b: seq<bv8>)
    requires Valid(c)
    ensures Absorb(c, a + b) == Absorb(Absorb(c, a), b)
    decreases |a|
  {
    if a == [] {
      assert a + b == b;
    } else {
      assert (a + b)[1..] == a[1..] + b;
      AbsorbAppend(Step(c, a[0]), a[1..], b);
    }
  }

  // ---------------------------------------------------------------------------------------------
  // Each step can be undone
  // ---------------------------------------------------------------------------------------------

  function PrevPtr(ptr: nat): (p: nat)
    ensures p < SIZE
  {
    (ptr + 19) % SIZE
  }

  function PrevRotate(ptr: nat, rotate: nat): (r: nat)
    ensures r < 8
  {
    (rotate + if ptr == 0 then 2 else 5) % 8
  }

  /** The context before the given byte was absorbed. */
  function Undo(c: Context, value: bv8): (r: Context)
    requires Valid(c)
    ensures Valid(r)
  {
    var p := c.ptr;
    Context(PrevPtr(p), PrevRotate(p, c.rotate), c.pool[p := Fold(Rol(value, c.rotate), c.pool[p], Taps(c.pool, p))])
  }

  lemma TapsAreElsewhere(pool: seq<bv8>, p: nat, b: bv8)
    requires |pool| == SIZE && p < SIZE
    ensures Taps(pool[p := b], p) == Taps(pool, p)
  {
  }

  /** Folding the same input and taps in twice gives the old byte back. */
  lemma FoldUndone(rolled: bv8, previous: bv8, taps: bv8)
    ensures Fold(rolled, Fold(rolled, previous, taps), taps) == previous
  {
  }

  lemma PrevUndoesNext(ptr: nat, rotate: nat)
    requires ptr < SIZE && rotate < 8
    ensures PrevPtr(NextPtr(ptr)) == ptr && PrevRotate(NextPtr(ptr), NextRotate(ptr, rotate)) == rotate
    ensures NextPtr(PrevPtr(ptr)) == ptr && NextRotate(PrevPtr(ptr), PrevRotate(ptr, rotate)) == rotate
  {
    Mod32((ptr + 13) % 32 + 19, 1 - (ptr + 13) / 32, ptr);
    Mod32((ptr + 19) % 32 + 13, 1 - (ptr + 19) / 32, ptr);
    var k := if NextPtr(ptr) == 0 then 6 else 3;
    Mod8((rotate + k) % 8 + 8 - k, 1 - (rotate + k) / 8, rotate);
    var m := if ptr == 0 then 2 else 5;
    Mod8((rotate + m) % 8 + 8 - m, 1 - (rotate + m) / 8, rotate);
  }

  /** For a known input byte, a step is a bijection on contexts. */
  lemma StepIsInvertible(c: Context, value: bv8)
    requires Valid(c)
    ensures Undo(Step(c, value), value) == c
    ensures Step(Undo(c, value), value) == c
  {
    hide Taps, Rol, Fold;
    PrevUndoesNext(c.ptr, c.rotate);
    hide NextPtr, NextRotate, PrevPtr, PrevRotate;
    var s := Step(c, value);
    TapsAreElsewhere(c.pool, s.ptr, s.pool[s.ptr]);
    FoldUndone(Rol(value, s.rotate), c.pool[s.ptr], Taps(c.pool, s.ptr));
    assert Undo(s, value).pool == c.pool;
    var u := Undo(c, value);
    TapsAreElsewhere(c.pool, c.ptr, u.pool[c.ptr]);
    FoldUndone(Rol(value, c.rotate), c.pool[c.ptr], Taps(c.pool, c.ptr));
    assert Step(u, value).pool == c.pool;
  }

  /** So no input, of any length, makes two different pools equal. */
  lemma {:induction false} AbsorbingKeepsPoolsApart(a: Context, b: Context, input: seq<bv8>)
    requires Valid(a) && Valid(b) && Absorb(a, input) == Absorb(b, input)
    ensures a == b
    decreases |input|
  {
    if input != [] {
      AbsorbingKeepsPoolsApart(Step(a, input[0]), Step(b, input[0]), input[1..]);
      StepIsInvertible(a, input[0]);
      StepIsInvertible(b, input[0]);
    }
  }

  // ---------------------------------------------------------------------------------------------
  // Linearity
  // ---------------------------------------------------------------------------------------------

  function Xor(a: seq<bv8>, b: seq<bv8>): (r: seq<bv8>)
    requires |a| == |b|
    ensures |r| == |a|
  {
    seq(|a|, i requires 0 <= i < |a| => Xor8(a[i], b[i]))
  }

  lemma TapsAreLinear(a: seq<bv8>, b: seq<bv8>, p: nat)
    requires |a| == |b| == SIZE && p < SIZE
    ensures Taps(Xor(a, b), p) == Xor8(Taps(a, p), Taps(b, p))
  {
  }

  lemma Xor8Shuffle(a: bv8, b: bv8, c: bv8, d: bv8)
    ensures Xor8(Xor8(a, b), Xor8(c, d)) == Xor8(Xor8(a, c), Xor8(b, d))
  {
    Xor8Commutes(b, c);
    hide Xor8;
    Xor8Associates(Xor8(a, b), c, d);
    Xor8Associates(a, b, c);
    Xor8Associates(a, c, b);
    Xor8Associates(Xor8(a, c), b, d);
  }

  lemma FoldIsLinear(a: bv8, b: bv8, c: bv8, d: bv8, e: bv8, f: bv8)
    ensures Fold(Xor8(a, d), Xor8(b, e), Xor8(c, f)) == Xor8(Fold(a, b, c), Fold(d, e, f))
  {
    hide Xor8;
    Xor8Shuffle(a, d, b, e);
    Xor8Shuffle(Xor8(a, b), Xor8(d, e), c, f);
  }

  /** The sum of two contexts at the same point of the schedule. */
  function Both(a: Context, b: Context): (c: Context)
    requires Valid(a) && Valid(b)
    ensures Valid(c)
  {
    Context(a.ptr, a.rotate, Xor(a.pool, b.pool))
  }

  lemma StepIsLinear(a: Context, b: Context, x: bv8, y: bv8)
    requires Valid(a) && Valid(b) && a.ptr == b.ptr && a.rotate == b.rotate
    ensures Step(a, x).ptr == Step(b, y).ptr && Step(a, x).rotate == Step(b, y).rotate
    ensures Step(Both(a, b), Xor8(x, y)) == Both(Step(a, x), Step(b, y))
  {
    hide Taps, Rol, Fold, Xor8, NextPtr, NextRotate;
    var p, rot := NextPtr(a.ptr), NextRotate(a.ptr, a.rotate);
    TapsAreLinear(a.pool, b.pool, p);
    RotationIsLinear(x, y, rot);
    FoldIsLinear(Rol(x, rot), a.pool[p], Taps(a.pool, p), Rol(y, rot), b.pool[p], Taps(b.pool, p));
    assert Step(Both(a, b), Xor8(x, y)).pool == Xor(Step(a, x).pool, Step(b, y).pool);
  }

  /** Absorption is linear over GF(2), in the pool and the input together. */
  lemma {:induction false} AbsorptionIsLinear(a: Context, b: Context, x: seq<bv8>, y: seq<bv8>)
    requires Valid(a) && Valid(b) && a.ptr == b.ptr && a.rotate == b.rotate && |x| == |y|
    ensures Absorb(a, x).ptr == Absorb(b, y).ptr && Absorb(a, x).rotate == Absorb(b, y).rotate
    ensures Absorb(Both(a, b), Xor(x, y)) == Both(Absorb(a, x), Absorb(b, y))
    decreases |x|
  {
    hide Step, Both, Xor8;
    if x == [] {
      assert Xor(x, y) == [];
    } else {
      StepIsLinear(a, b, x[0], y[0]);
      assert Xor(x, y)[0] == Xor8(x[0], y[0]);
      assert Xor(x, y)[1..] == Xor(x[1..], y[1..]);
      hide Xor;
      AbsorptionIsLinear(Step(a, x[0]), Step(b, y[0]), x[1..], y[1..]);
    }
  }

  // ---------------------------------------------------------------------------------------------
  // 32 bytes determine the pool, and the pool determines them
  // ---------------------------------------------------------------------------------------------

  /** Position used by the n-th byte from now. */
  function PtrAfter(ptr: nat, n: nat): (p: nat)
    requires ptr < SIZE
    ensures p < SIZE
  {
    (ptr + 13 * n) % SIZE
  }

  lemma PtrAfterNext(ptr: nat, n: nat)
    requires ptr < SIZE
    ensures PtrAfter(NextPtr(ptr), n) == PtrAfter(ptr, n + 1)
  {
    var x := ptr + 13 * (n + 1);
    Mod32((ptr + 13) % 32 + 13 * n, x / 32 - (ptr + 13) / 32, x % 32);
  }

  lemma NoMultiple(d: int, k: int)
    requires 0 < d < 32
    ensures 13 * d != 32 * k
  {
  }

  /** The positions of 32 consecutive bytes are all different. */
  lemma PositionsDiffer(ptr: nat, m: nat, n: nat)
    requires ptr < SIZE && m < n < m + SIZE
    ensures PtrAfter(ptr, m) != PtrAfter(ptr, n)
  {
    NoMultiple(n - m, (ptr + 13 * n) / 32 - (ptr + 13 * m) / 32);
  }

  lemma {:induction false} UntouchedByAbsorb(c: Context, input: seq<bv8>, p: nat)
    requires Valid(c) && p < SIZE
    requires forall k | 1 <= k <= |input| :: PtrAfter(c.ptr, k) != p
    ensures Absorb(c, input).pool[p] == c.pool[p]
    decreases |input|
  {
    if input != [] {
      var s := Step(c, input[0]);
      assert PtrAfter(c.ptr, 1) == s.ptr;
      forall k | 1 <= k <= |input| - 1
        ensures PtrAfter(s.ptr, k) != p
      {
        PtrAfterNext(c.ptr, k);
        assert PtrAfter(c.ptr, k + 1) != p;
      }
      UntouchedByAbsorb(s, input[1..], p);
    }
  }

  /** The n bytes that put the bytes of `target` at the next n positions. */
  function Solve(c: Context, target: seq<bv8>, n: nat): (input: seq<bv8>)
    requires Valid(c) && |target| == SIZE
    ensures |input| == n
    decreases n
  {
    if n == 0 then []
    else
      var p, rot := NextPtr(c.ptr), NextRotate(c.ptr, c.rotate);
      var value := Ror(Fold(target[p], c.pool[p], Taps(c.pool, p)), rot);
      [value] + Solve(Step(c, value), target, n - 1)
  }

  /** Folding the old byte and the taps out again recovers the rotated input. */
  lemma FoldSolves(rolled: bv8, previous: bv8, taps: bv8)
    ensures Fold(Fold(rolled, previous, taps), previous, taps) == rolled
  {
  }

  /** One step of a solution puts the wanted byte in place. */
  lemma StepSolves(c: Context, target: bv8)
    requires Valid(c)
    ensures var p, rot := NextPtr(c.ptr), NextRotate(c.ptr, c.rotate);
      Step(c, Ror(Fold(target, c.pool[p], Taps(c.pool, p)), rot)).pool[p] == target
  {
    hide Taps, Rol, Ror, Fold, NextPtr, NextRotate;
    var p, rot := NextPtr(c.ptr), NextRotate(c.ptr, c.rotate);
    var taps := Taps(c.pool, p);
    RotationsCancel(Fold(target, c.pool[p], taps), rot);
    FoldSolves(target, c.pool[p], taps);
  }

  /** And the wanted byte determines the input. */
  lemma StepDetermines(c: Context, value: bv8)
    requires Valid(c)
    ensures var p, rot := NextPtr(c.ptr), NextRotate(c.ptr, c.rotate);
      Ror(Fold(Step(c, value).pool[p], c.pool[p], Taps(c.pool, p)), rot) == value
  {
    hide Taps, Rol, Ror, Fold, NextPtr, NextRotate;
    var p, rot := NextPtr(c.ptr), NextRotate(c.ptr, c.rotate);
    RotationsCancel(value, rot);
    FoldSolves(Rol(value, rot), c.pool[p], Taps(c.pool, p));
  }

  /** The position of the latest byte is not reached again by fewer than 32 further bytes. */
  lemma LatestByteStays(c: Context, input: seq<bv8>)
    requires Valid(c) && |input| < SIZE
    ensures Absorb(c, input).pool[c.ptr] == c.pool[c.ptr]
  {
    forall j | 1 <= j <= |input|
      ensures PtrAfter(c.ptr, j) != c.ptr
    {
      assert PtrAfter(c.ptr, 0) == c.ptr;
      PositionsDiffer(c.ptr, 0, j);
    }
    UntouchedByAbsorb(c, input, c.ptr);
  }

  /** The first byte of a solution puts one wanted byte in place and leaves a smaller solution. */
  lemma SolutionStep(c: Context, target: seq<bv8>, n: nat) returns (s: Context)
    requires Valid(c) && |target| == SIZE && n > 0
    ensures Valid(s) && s.ptr == PtrAfter(c.ptr, 1) && s.pool[s.ptr] == target[s.ptr]
    ensures Absorb(c, Solve(c, target, n)) == Absorb(s, Solve(s, target, n - 1))
    ensures forall k: nat :: k > 0 ==> PtrAfter(s.ptr, k - 1) == PtrAfter(c.ptr, k)
  {
    var input := Solve(c, target, n);
    s := Step(c, input[0]);
    assert input[1..] == Solve(s, target, n - 1);
    assert s.ptr == NextPtr(c.ptr) == PtrAfter(c.ptr, 1);
    forall k: nat | k > 0
      ensures PtrAfter(s.ptr, k - 1) == PtrAfter(c.ptr, k)
    {
      PtrAfterNext(c.ptr, k - 1);
    }
    hide Taps, Rol, Ror, Fold, PtrAfter;
    StepSolves(c, target[s.ptr]);
  }

  /** The solution works at every position that it reaches. */
  lemma {:induction false} SolutionReaches(c: Context, target: seq<bv8>, n: nat, k: nat)
    requires Valid(c) && |target| == SIZE && 1 <= k <= n <= SIZE
    ensures Absorb(c, Solve(c, target, n)).pool[PtrAfter(c.ptr, k)] == target[PtrAfter(c.ptr, k)]
    decreases n
  {
    hide Solve, Absorb, PtrAfter;
    var s := SolutionStep(c, target, n);
    if k > 1 {
      SolutionReaches(s, target, n - 1, k - 1);
    } else {
      LatestByteStays(s, Solve(s, target, n - 1));
    }
  }

  /** Every position is reached within 32 bytes. */
  lemma EveryPositionReached(ptr: nat, p: nat) returns (k: nat)
    requires ptr < SIZE && p < SIZE
    ensures 1 <= k <= SIZE && PtrAfter(ptr, k) == p
  {
    var d := p + SIZE - ptr;
    k := (5 * d) % SIZE;
    Mod32(ptr + 13 * k, 2 * d + 1 - 13 * ((5 * d) / 32), p);
    if k == 0 {
      k := SIZE;
    }
  }

  lemma PositionIsSolved(c: Context, target: seq<bv8>, p: nat)
    requires Valid(c) && |target| == SIZE && p < SIZE
    ensures Absorb(c, Solve(c, target, SIZE)).pool[p] == target[p]
  {
    hide Solve, Absorb, PtrAfter;
    var k := EveryPositionReached(c.ptr, p);
    SolutionReaches(c, target, SIZE, k);
  }

  /** From every context, every pool can be reached with 32 bytes. */
  lemma EveryPoolIsReached(c: Context, target: seq<bv8>)
    requires Valid(c) && |target| == SIZE
    ensures Absorb(c, Solve(c, target, SIZE)).pool == target
  {
    hide Solve, Absorb;
    forall p: nat | p < SIZE
      ensures Absorb(c, Solve(c, target, SIZE)).pool[p] == target[p]
    {
      PositionIsSolved(c, target, p);
    }
  }

  /** An input of up to 32 bytes can be read back from the pool it leads to. */
  lemma {:induction false} InputIsRecovered(c: Context, input: seq<bv8>)
    requires Valid(c) && |input| <= SIZE
    ensures Solve(c, Absorb(c, input).pool, |input|) == input
    decreases |input|
  {
    if input != [] {
      hide Taps, Rol, Ror, Fold, NextPtr, NextRotate;
      var s := Step(c, input[0]);
      LatestByteStays(s, input[1..]);
      StepDetermines(c, input[0]);
      InputIsRecovered(s, input[1..]);
    }
  }

  /** From every context, absorbing 32 bytes is a bijection from inputs to pools. */
  lemma ThirtyTwoBytesAreABijection(c: Context, target: seq<bv8>)
    requires Valid(c) && |target| == SIZE
    ensures exists input: seq<bv8> :: |input| == SIZE && Absorb(c, input).pool == target
    ensures forall x: seq<bv8>, y: seq<bv8>
      | |x| == |y| == SIZE && Absorb(c, x).pool == target && Absorb(c, y).pool == target :: x == y
  {
    hide Absorb, Solve;
    EveryPoolIsReached(c, target);
    forall x: seq<bv8>, y: seq<bv8> | |x| == |y| == SIZE && Absorb(c, x).pool == target && Absorb(c, y).pool == target
      ensures x == y
    {
      InputIsRecovered(c, x);
      InputIsRecovered(c, y);
    }
  }

  /**
   Nothing is lost: whatever was absorbed before and whatever follows, two different blocks of up to 32
   bytes in the same place of the stream end in different pools.
   */
  lemma NothingIsLost(c: Context, before: seq<bv8>, x: seq<bv8>, y: seq<bv8>, after: seq<bv8>)
    requires Valid(c) && |x| == |y| <= SIZE
    requires Absorb(c, before + x + after).pool == Absorb(c, before + y + after).pool
    ensures x == y
  {
    hide Absorb, Solve;
    var start := Absorb(c, before);
    AbsorbAppend(c, before + x, after);
    AbsorbAppend(c, before, x);
    AbsorbAppend(c, before + y, after);
    AbsorbAppend(c, before, y);
    BlocksDiffer(start, x, y, after);
  }

  lemma BlocksDiffer(start: Context, x: seq<bv8>, y: seq<bv8>, after: seq<bv8>)
    requires Valid(start) && |x| == |y| <= SIZE
    requires Absorb(Absorb(start, x), after).pool == Absorb(Absorb(start, y), after).pool
    ensures x == y
  {
    hide Absorb, Solve;
    SameSchedule(start, start, x, y);
    SameSchedule(Absorb(start, x), Absorb(start, y), after, after);
    AbsorbingKeepsPoolsApart(Absorb(start, x), Absorb(start, y), after);
    InputIsRecovered(start, x);
    InputIsRecovered(start, y);
  }

  /** Position and rotation do not depend on the data. */
  lemma {:induction false} SameSchedule(a: Context, b: Context, x: seq<bv8>, y: seq<bv8>)
    requires Valid(a) && Valid(b) && a.ptr == b.ptr && a.rotate == b.rotate && |x| == |y|
    ensures Absorb(a, x).ptr == Absorb(b, y).ptr && Absorb(a, x).rotate == Absorb(b, y).rotate
    decreases |x|
  {
    hide Taps, Fold, Rol, NextPtr, NextRotate;
    if x != [] {
      SameSchedule(Step(a, x[0]), Step(b, y[0]), x[1..], y[1..]);
    }
  }

  // ---------------------------------------------------------------------------------------------
  // The schedule of positions and rotations
  // ---------------------------------------------------------------------------------------------

  /** Position and rotation of the n-th byte after initialisation, in closed form. */
  function ScheduledPtr(n: nat): (p: nat)
    ensures p < SIZE
  {
    (13 * n) % SIZE
  }

  function ScheduledRotate(n: nat): (r: nat)
    ensures r < 8
  {
    (3 * n + 3 * (n / SIZE)) % 8
  }

  /** The schedule in terms of the lap q and the byte j within the lap. */
  lemma ScheduleAt(q: nat, j: nat)
    requires j < SIZE
    ensures ScheduledPtr(32 * q + j) == (13 * j) % 32
    ensures ScheduledRotate(32 * q + j) == (3 * q + 3 * j) % 8
  {
    Mod32(32 * q + j, q, j);
    Mod32(13 * (32 * q + j), 13 * q + (13 * j) / 32, (13 * j) % 32);
    Mod8(99 * q + 3 * j, 12 * q + (3 * q + 3 * j) / 8, (3 * q + 3 * j) % 8);
  }

  lemma ScheduleStep(n: nat)
    ensures NextPtr(ScheduledPtr(n)) == ScheduledPtr(n + 1)
    ensures NextRotate(ScheduledPtr(n), ScheduledRotate(n)) == ScheduledRotate(n + 1)
  {
    hide ScheduledPtr, ScheduledRotate;
    var q, j := n / 32, n % 32;
    ScheduleAt(q, j);
    var a, b := (13 * j) / 32, (3 * q + 3 * j) / 8;
    if j == 31 {
      ScheduleAt(q + 1, 0);
      Mod8((3 * q + 3 * j) % 8 + 6, (3 * q + 3 * j + 6) / 8 - b, (3 * q + 3 * j + 6) % 8);
      Mod8(3 * (q + 1), (3 * q + 3 * j + 6) / 8 - 12, (3 * q + 3 * j + 6) % 8);
    } else {
      ScheduleAt(q, j + 1);
      Mod32((13 * j) % 32 + 13, (13 * j + 13) / 32 - a, (13 * j + 13) % 32);
      Mod8((3 * q + 3 * j) % 8 + 3, (3 * q + 3 * j + 3) / 8 - b, (3 * q + 3 * j + 3) % 8);
      PositionZero(j + 1);
    }
  }

  lemma PositionZero(j: nat)
    requires 0 < j < 32
    ensures (13 * j) % 32 != 0
  {
  }

  /** The schedule does not depend on the data. */
  lemma {:induction false} ScheduleIsClosedForm(input: seq<bv8>)
    ensures var c := Absorb(INIT, input);
      c.ptr == ScheduledPtr(|input|) && c.rotate == ScheduledRotate(|input|)
  {
    if input != [] {
      var n := |input| - 1;
      ScheduleIsClosedForm(input[..n]);
      AbsorbAppend(INIT, input[..n], [input[n]]);
      assert input == input[..n] + [input[n]];
      var c := Absorb(INIT, input[..n]);
      assert Absorb(c, [input[n]]) == Step(c, input[n]);
      ScheduleStep(n);
    }
  }

  /** The byte, among the first 256, that uses position p with rotation r. */
  function ByteFor(p: nat, r: nat): (n: nat)
    ensures n < 256
  {
    32 * ((3 * r + 7 * ((5 * p) % 32)) % 8) + (5 * p) % 32
  }

  lemma ByteForIsRight(p: nat, r: nat, k: nat)
    requires p < SIZE && r < 8
    ensures ScheduledPtr(256 * k + ByteFor(p, r)) == p && ScheduledRotate(256 * k + ByteFor(p, r)) == r
  {
    hide ScheduledPtr, ScheduledRotate;
    var j := (5 * p) % 32;
    var q := (3 * r + 7 * j) % 8;
    assert 256 * k + ByteFor(p, r) == 32 * (8 * k + q) + j;
    ScheduleAt(8 * k + q, j);
    Mod32(13 * j, 2 * p - 13 * ((5 * p) / 32), p);
    Mod8(3 * (8 * k + q) + 3 * j, 3 * k + r + 3 * j - 3 * ((3 * r + 7 * j) / 8), r);
  }

  lemma SamePosition(j: nat, j': nat)
    requires j < 32 && j' < 32 && (13 * j) % 32 == (13 * j') % 32
    ensures j == j'
  {
    Mod32(5 * ((13 * j) % 32), 2 * j - 5 * ((13 * j) / 32), j);
    Mod32(5 * ((13 * j') % 32), 2 * j' - 5 * ((13 * j') / 32), j');
  }

  lemma LapsRotate(q: nat, q': nat, j: nat)
    requires q < q' < q + 8
    ensures (3 * q + 3 * j) % 8 != (3 * q' + 3 * j) % 8
  {
  }

  lemma PairsDiffer(n: nat, n': nat)
    requires n < n' < n + 256
    ensures ScheduledPtr(n) != ScheduledPtr(n') || ScheduledRotate(n) != ScheduledRotate(n')
  {
    hide ScheduledPtr, ScheduledRotate;
    var q, j, q', j' := n / 32, n % 32, n' / 32, n' % 32;
    ScheduleAt(q, j);
    ScheduleAt(q', j');
    if ScheduledPtr(n) == ScheduledPtr(n') {
      SamePosition(j, j');
      LapsRotate(q, q', j);
    }
  }

  /** Among any 256 consecutive bytes, every pair of position and rotation is used exactly once. */
  lemma EveryPairOnce(m: nat, p: nat, r: nat)
    requires p < SIZE && r < 8
    ensures exists n :: m <= n < m + 256 && ScheduledPtr(n) == p && ScheduledRotate(n) == r
    ensures forall n, n' | m <= n < n' < m + 256 :: ScheduledPtr(n) != ScheduledPtr(n') || ScheduledRotate(n) != ScheduledRotate(n')
  {
    hide ScheduledPtr, ScheduledRotate, ByteFor;
    ByteForIsRight(p, r, m / 256);
    ByteForIsRight(p, r, m / 256 + 1);
    var n := 256 * (m / 256) + ByteFor(p, r);
    assert m <= n < m + 256 || m <= n + 256 < m + 256;
    forall n, n' | m <= n < n' < m + 256
      ensures ScheduledPtr(n) != ScheduledPtr(n') || ScheduledRotate(n) != ScheduledRotate(n')
    {
      PairsDiffer(n, n');
    }
  }

  // ---------------------------------------------------------------------------------------------
  // The response to one byte
  // ---------------------------------------------------------------------------------------------

  lemma MoveOut(a: bv8, b: bv8, x: bv8)
    ensures Xor8(Xor8(a, x), b) == Xor8(Xor8(a, b), x)
    ensures Xor8(a, Xor8(b, x)) == Xor8(Xor8(a, b), x)
  {
    hide Xor8;
    Xor8Associates(a, b, x);
    Xor8Associates(a, x, b);
    Xor8Commutes(b, x);
  }

  lemma FoldMoves(rolled: bv8, previous: bv8, a: bv8, b: bv8, c: bv8, d: bv8, x: bv8)
    ensures var r := Xor8(Fold(rolled, previous, Xor8(Xor8(Xor8(a, b), c), d)), x);
      && Fold(rolled, Xor8(previous, x), Xor8(Xor8(Xor8(a, b), c), d)) == r
      && Fold(rolled, previous, Xor8(Xor8(Xor8(Xor8(a, x), b), c), d)) == r
      && Fold(rolled, previous, Xor8(Xor8(Xor8(a, Xor8(b, x)), c), d)) == r
      && Fold(rolled, previous, Xor8(Xor8(Xor8(a, b), Xor8(c, x)), d)) == r
      && Fold(rolled, previous, Xor8(Xor8(Xor8(a, b), c), Xor8(d, x))) == r
  {
    hide Xor8;
    var ab, abc := Xor8(a, b), Xor8(Xor8(a, b), c);
    MoveOut(a, b, x);
    MoveOut(ab, c, x);
    MoveOut(abc, d, x);
    MoveOut(rolled, previous, x);
    MoveOut(Xor8(rolled, previous), Xor8(abc, d), x);
  }

  /**
   The byte that a step writes answers a change of one pool byte exactly if that one stands at the position itself or at
   one of the taps 31, 29, 25 and 24 from there; the other bytes stay.
   */
  lemma TapsExactly(c: Context, value: bv8, q: nat, x: bv8)
    requires Valid(c) && q < 32
    ensures var d := c.(pool := c.pool[q := Xor8(c.pool[q], x)]);
      var p := (c.ptr + 13) % 32;
      var answers := q == p || q == (p + 31) % 32 || q == (p + 29) % 32 || q == (p + 25) % 32 || q == (p + 24) % 32;
      && Step(d, value).pool[p] == (if answers then Xor8(Step(c, value).pool[p], x) else Step(c, value).pool[p])
      && forall k :: 0 <= k < 32 && k != p ==> Step(c, value).pool[k] == c.pool[k]
  {
    hide Rol, Fold, Xor8, NextRotate, Step;
    var p := (c.ptr + 13) % 32;
    var d := c.(pool := c.pool[q := Xor8(c.pool[q], x)]);
    StepIs(c, value);
    StepIs(d, value);
    TapsDiffer(p);
    FiveAnswer(c.pool, p, (p + 31) % 32, (p + 29) % 32, (p + 25) % 32, (p + 24) % 32, q, Rol(value, NextRotate(c.ptr, c.rotate)), x);
  }

  lemma StepIs(c: Context, value: bv8)
    requires Valid(c)
    ensures var p, pool := (c.ptr + 13) % 32, c.pool;
      var taps := Xor8(Xor8(Xor8(pool[(p + 31) % 32], pool[(p + 29) % 32]), pool[(p + 25) % 32]), pool[(p + 24) % 32]);
      Step(c, value).pool == pool[p := Fold(Rol(value, NextRotate(c.ptr, c.rotate)), pool[p], taps)]
  {
    hide Rol, Fold, Xor8, NextRotate;
  }

  lemma TapsDiffer(p: nat)
    requires p < 32
    ensures var i, j, k, l := (p + 31) % 32, (p + 29) % 32, (p + 25) % 32, (p + 24) % 32;
      p != i && p != j && p != k && p != l && i != j && i != k && i != l && j != k && j != l && k != l
  {
  }

  /** Five different positions of the pool, each of which counts once. */
  lemma FiveAnswer(pool: seq<bv8>, p: nat, i: nat, j: nat, k: nat, l: nat, q: nat, w: bv8, x: bv8)
    requires |pool| == SIZE && p < SIZE && i < SIZE && j < SIZE && k < SIZE && l < SIZE && q < SIZE
    requires p != i && p != j && p != k && p != l && i != j && i != k && i != l && j != k && j != l && k != l
    ensures var other := pool[q := Xor8(pool[q], x)];
      var r := Fold(w, pool[p], Xor8(Xor8(Xor8(pool[i], pool[j]), pool[k]), pool[l]));
      Fold(w, other[p], Xor8(Xor8(Xor8(other[i], other[j]), other[k]), other[l]))
      == if q == p || q == i || q == j || q == k || q == l then Xor8(r, x) else r
  {
    hide Fold, Xor8;
    FoldMoves(w, pool[p], pool[i], pool[j], pool[k], pool[l], x);
  }

  /** The first byte goes to position 13, rotated by 3: a step moves on by 13 positions. */
  lemma FirstByte(value: bv8)
    ensures Absorb(INIT, [value]).pool == INIT.pool[13 := (value << 3) | (value >> 5)]
  {
    assert [value][1..] == [];
    assert Absorb(INIT, [value]) == Step(INIT, value);
    ZeroPool((value << 3) | (value >> 5));
  }

  lemma ZeroPool(rolled: bv8)
    ensures Fold(rolled, 0, Xor8(Xor8(Xor8(0, 0), 0), 0)) == rolled
  {
  }
}
