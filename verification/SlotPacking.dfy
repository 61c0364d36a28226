/**
 Packing of 8-bit event data into an array of 32-bit words (lrng_es_timer_common.h, lrng_selftest.c:36-83): single
 slots and whole words are inserted at any alignment of one running pointer.
 */
module SlotPacking {
  import opened Words

  /** LRNG_DATA_SLOTS_PER_UINT */
  const SLOTS := 4

  // ---------------------------------------------------------------------------------------------
  // Words and their slots
  // ---------------------------------------------------------------------------------------------

  /** The byte in slot s of a word. */
  function Byte(w: bv32, s: int): bv32 {
    if s == 0 then w & 0xff
    else if s == 1 then (w >> 8) & 0xff
    else if s == 2 then (w >> 16) & 0xff
    else w >> 24
  }

  /** lrng_data_slot_val */
  function SlotVal(v: bv32, s: int): bv32 {
    if s == 0 then v << 0 else if s == 1 then v << 8 else if s == 2 then v << 16 else v << 24
  }

  /** The mask of lrng_data_split_u32 for a pointer at slot s. */
  function Mask(s: int): bv32 {
    if s == 0 then (1 << 0) - 1 else if s == 1 then (1 << 8) - 1 else if s == 2 then (1 << 16) - 1 else (1 << 24) - 1
  }

  function Or(a: bv32, b: bv32): bv32 {
    a | b
  }

  /** The entropic part of a value: LRNG_DATA_SLOTSIZE_MASK. */
  function Low8(v: bv32): bv32 {
    v & 0xff
  }

  function Zeroise(w: bv32, s: int): bv32 {
    w & !SlotVal(0xffff_ffff & 0xff, s)
  }

  function ZeroiseHigh(w: bv32, mask: bv32): bv32 {
    w & !(0xffff_ffff & !mask)
  }

  function High(data: bv32, mask: bv32): bv32 {
    data & !mask
  }

  function Low(data: bv32, mask: bv32): bv32 {
    data & mask
  }

  /** Zeroise a slot and OR a byte into it. */
  function PutSlot(w: bv32, s: int, v: bv32): bv32 {
    Or(Zeroise(w, s), SlotVal(Low8(v), s))
  }

  /** Zeroise the slots outside the mask and OR the data into them. */
  function PutHigh(w: bv32, mask: bv32, data: bv32): bv32 {
    Or(ZeroiseHigh(w, mask), High(data, mask))
  }

  // The bits are looked at only here: first which word an insertion makes, as a literal expression, then its bytes.

  lemma PutSlotWord0(w: bv32, v: bv32)
    ensures PutSlot(w, 0, v) == (w & 0xffff_ff00) | (v & 0xff)
  {
  }

  lemma PutSlotWord1(w: bv32, v: bv32)
    ensures PutSlot(w, 1, v) == (w & 0xffff_00ff) | ((v & 0xff) << 8)
  {
  }

  lemma PutSlotWord2(w: bv32, v: bv32)
    ensures PutSlot(w, 2, v) == (w & 0xff00_ffff) | ((v & 0xff) << 16)
  {
  }

  lemma PutSlotWord3(w: bv32, v: bv32)
    ensures PutSlot(w, 3, v) == (w & 0x00ff_ffff) | ((v & 0xff) << 24)
  {
  }

  lemma PutSlotLiteral0(w: bv32, v: bv32)
    ensures Byte((w & 0xffff_ff00) | (v & 0xff), 0) == Low8(v)
    ensures Byte((w & 0xffff_ff00) | (v & 0xff), 1) == Byte(w, 1)
    ensures Byte((w & 0xffff_ff00) | (v & 0xff), 2) == Byte(w, 2)
    ensures Byte((w & 0xffff_ff00) | (v & 0xff), 3) == Byte(w, 3)
  {
  }

  lemma PutSlotLiteral1(w: bv32, v: bv32)
    ensures Byte((w & 0xffff_00ff) | ((v & 0xff) << 8), 0) == Byte(w, 0)
    ensures Byte((w & 0xffff_00ff) | ((v & 0xff) << 8), 1) == Low8(v)
    ensures Byte((w & 0xffff_00ff) | ((v & 0xff) << 8), 2) == Byte(w, 2)
    ensures Byte((w & 0xffff_00ff) | ((v & 0xff) << 8), 3) == Byte(w, 3)
  {
  }

  lemma PutSlotLiteral2(w: bv32, v: bv32)
    ensures Byte((w & 0xff00_ffff) | ((v & 0xff) << 16), 0) == Byte(w, 0)
    ensures Byte((w & 0xff00_ffff) | ((v & 0xff) << 16), 1) == Byte(w, 1)
    ensures Byte((w & 0xff00_ffff) | ((v & 0xff) << 16), 2) == Low8(v)
    ensures Byte((w & 0xff00_ffff) | ((v & 0xff) << 16), 3) == Byte(w, 3)
  {
  }

  lemma PutSlotLiteral3(w: bv32, v: bv32)
    ensures Byte((w & 0x00ff_ffff) | ((v & 0xff) << 24), 0) == Byte(w, 0)
    ensures Byte((w & 0x00ff_ffff) | ((v & 0xff) << 24), 1) == Byte(w, 1)
    ensures Byte((w & 0x00ff_ffff) | ((v & 0xff) << 24), 2) == Byte(w, 2)
    ensures Byte((w & 0x00ff_ffff) | ((v & 0xff) << 24), 3) == Low8(v)
  {
  }

  lemma PutSlotBytes0(w: bv32, v: bv32)
    ensures Byte(PutSlot(w, 0, v), 0) == Low8(v)
    ensures Byte(PutSlot(w, 0, v), 1) == Byte(w, 1)
    ensures Byte(PutSlot(w, 0, v), 2) == Byte(w, 2)
    ensures Byte(PutSlot(w, 0, v), 3) == Byte(w, 3)
  {
    hide Byte, PutSlot, Low8;
    PutSlotWord0(w, v);
    PutSlotLiteral0(w, v);
  }

  lemma PutSlotBytes1(w: bv32, v: bv32)
    ensures Byte(PutSlot(w, 1, v), 0) == Byte(w, 0)
    ensures Byte(PutSlot(w, 1, v), 1) == Low8(v)
    ensures Byte(PutSlot(w, 1, v), 2) == Byte(w, 2)
    ensures Byte(PutSlot(w, 1, v), 3) == Byte(w, 3)
  {
    hide Byte, PutSlot, Low8;
    PutSlotWord1(w, v);
    PutSlotLiteral1(w, v);
  }

  lemma PutSlotBytes2(w: bv32, v: bv32)
    ensures Byte(PutSlot(w, 2, v), 0) == Byte(w, 0)
    ensures Byte(PutSlot(w, 2, v), 1) == Byte(w, 1)
    ensures Byte(PutSlot(w, 2, v), 2) == Low8(v)
    ensures Byte(PutSlot(w, 2, v), 3) == Byte(w, 3)
  {
    hide Byte, PutSlot, Low8;
    PutSlotWord2(w, v);
    PutSlotLiteral2(w, v);
  }

  lemma PutSlotBytes3(w: bv32, v: bv32)
    ensures Byte(PutSlot(w, 3, v), 0) == Byte(w, 0)
    ensures Byte(PutSlot(w, 3, v), 1) == Byte(w, 1)
    ensures Byte(PutSlot(w, 3, v), 2) == Byte(w, 2)
    ensures Byte(PutSlot(w, 3, v), 3) == Low8(v)
  {
    hide Byte, PutSlot, Low8;
    PutSlotWord3(w, v);
    PutSlotLiteral3(w, v);
  }

  lemma PutSlotBytes(w: bv32, s: int, v: bv32, r: int)
    requires 0 <= s < SLOTS && 0 <= r < SLOTS
    ensures Byte(PutSlot(w, s, v), r) == if r == s then Low8(v) else Byte(w, r)
  {
    hide Byte, PutSlot, Low8;
    match s {
      case 0 => PutSlotBytes0(w, v);
      case 1 => PutSlotBytes1(w, v);
      case 2 => PutSlotBytes2(w, v);
      case _ => PutSlotBytes3(w, v);
    }
  }

  lemma PutHighWord0(w: bv32, data: bv32)
    ensures PutHigh(w, Mask(0), data) == (w & 0x0) | (data & 0xffff_ffff)
  {
  }

  lemma PutHighWord1(w: bv32, data: bv32)
    ensures PutHigh(w, Mask(1), data) == (w & 0xff) | (data & 0xffff_ff00)
  {
  }

  lemma PutHighWord2(w: bv32, data: bv32)
    ensures PutHigh(w, Mask(2), data) == (w & 0xffff) | (data & 0xffff_0000)
  {
  }

  lemma PutHighWord3(w: bv32, data: bv32)
    ensures PutHigh(w, Mask(3), data) == (w & 0xff_ffff) | (data & 0xff00_0000)
  {
  }

  lemma PutHighLiteral0(w: bv32, data: bv32)
    ensures Byte((w & 0x0) | (data & 0xffff_ffff), 0) == Byte(data, 0)
    ensures Byte((w & 0x0) | (data & 0xffff_ffff), 1) == Byte(data, 1)
    ensures Byte((w & 0x0) | (data & 0xffff_ffff), 2) == Byte(data, 2)
    ensures Byte((w & 0x0) | (data & 0xffff_ffff), 3) == Byte(data, 3)
  {
  }

  lemma PutHighLiteral1(w: bv32, data: bv32)
    ensures Byte((w & 0xff) | (data & 0xffff_ff00), 0) == Byte(w, 0)
    ensures Byte((w & 0xff) | (data & 0xffff_ff00), 1) == Byte(data, 1)
    ensures Byte((w & 0xff) | (data & 0xffff_ff00), 2) == Byte(data, 2)
    ensures Byte((w & 0xff) | (data & 0xffff_ff00), 3) == Byte(data, 3)
  {
  }

  lemma PutHighLiteral2(w: bv32, data: bv32)
    ensures Byte((w & 0xffff) | (data & 0xffff_0000), 0) == Byte(w, 0)
    ensures Byte((w & 0xffff) | (data & 0xffff_0000), 1) == Byte(w, 1)
    ensures Byte((w & 0xffff) | (data & 0xffff_0000), 2) == Byte(data, 2)
    ensures Byte((w & 0xffff) | (data & 0xffff_0000), 3) == Byte(data, 3)
  {
  }

  lemma PutHighLiteral3(w: bv32, data: bv32)
    ensures Byte((w & 0xff_ffff) | (data & 0xff00_0000), 0) == Byte(w, 0)
    ensures Byte((w & 0xff_ffff) | (data & 0xff00_0000), 1) == Byte(w, 1)
    ensures Byte((w & 0xff_ffff) | (data & 0xff00_0000), 2) == Byte(w, 2)
    ensures Byte((w & 0xff_ffff) | (data & 0xff00_0000), 3) == Byte(data, 3)
  {
  }

  lemma PutHighBytes0(w: bv32, data: bv32)
    ensures Byte(PutHigh(w, Mask(0), data), 0) == Byte(data, 0)
    ensures Byte(PutHigh(w, Mask(0), data), 1) == Byte(data, 1)
    ensures Byte(PutHigh(w, Mask(0), data), 2) == Byte(data, 2)
    ensures Byte(PutHigh(w, Mask(0), data), 3) == Byte(data, 3)
  {
    hide Byte, PutHigh, Mask;
    PutHighWord0(w, data);
    PutHighLiteral0(w, data);
  }

  lemma PutHighBytes1(w: bv32, data: bv32)
    ensures Byte(PutHigh(w, Mask(1), data), 0) == Byte(w, 0)
    ensures Byte(PutHigh(w, Mask(1), data), 1) == Byte(data, 1)
    ensures Byte(PutHigh(w, Mask(1), data), 2) == Byte(data, 2)
    ensures Byte(PutHigh(w, Mask(1), data), 3) == Byte(data, 3)
  {
    hide Byte, PutHigh, Mask;
    PutHighWord1(w, data);
    PutHighLiteral1(w, data);
  }

  lemma PutHighBytes2(w: bv32, data: bv32)
    ensures Byte(PutHigh(w, Mask(2), data), 0) == Byte(w, 0)
    ensures Byte(PutHigh(w, Mask(2), data), 1) == Byte(w, 1)
    ensures Byte(PutHigh(w, Mask(2), data), 2) == Byte(data, 2)
    ensures Byte(PutHigh(w, Mask(2), data), 3) == Byte(data, 3)
  {
    hide Byte, PutHigh, Mask;
    PutHighWord2(w, data);
    PutHighLiteral2(w, data);
  }

  lemma PutHighBytes3(w: bv32, data: bv32)
    ensures Byte(PutHigh(w, Mask(3), data), 0) == Byte(w, 0)
    ensures Byte(PutHigh(w, Mask(3), data), 1) == Byte(w, 1)
    ensures Byte(PutHigh(w, Mask(3), data), 2) == Byte(w, 2)
    ensures Byte(PutHigh(w, Mask(3), data), 3) == Byte(data, 3)
  {
    hide Byte, PutHigh, Mask;
    PutHighWord3(w, data);
    PutHighLiteral3(w, data);
  }

  lemma PutHighBytes(w: bv32, s: int, data: bv32, r: int)
    requires 0 <= s < SLOTS && 0 <= r < SLOTS
    ensures Byte(PutHigh(w, Mask(s), data), r) == if r < s then Byte(w, r) else Byte(data, r)
  {
    hide Byte, PutHigh, Mask;
    match s {
      case 0 => PutHighBytes0(w, data);
      case 1 => PutHighBytes1(w, data);
      case 2 => PutHighBytes2(w, data);
      case _ => PutHighBytes3(w, data);
    }
  }

  lemma LowWord0(data: bv32)
    ensures Low(data, Mask(0)) == data & 0x0
  {
  }

  lemma LowWord1(data: bv32)
    ensures Low(data, Mask(1)) == data & 0xff
  {
  }

  lemma LowWord2(data: bv32)
    ensures Low(data, Mask(2)) == data & 0xffff
  {
  }

  lemma LowWord3(data: bv32)
    ensures Low(data, Mask(3)) == data & 0xff_ffff
  {
  }

  lemma LowLiteral0(data: bv32)
    ensures Byte(data & 0x0, 0) == 0
    ensures Byte(data & 0x0, 1) == 0
    ensures Byte(data & 0x0, 2) == 0
    ensures Byte(data & 0x0, 3) == 0
  {
  }

  lemma LowLiteral1(data: bv32)
    ensures Byte(data & 0xff, 0) == Byte(data, 0)
    ensures Byte(data & 0xff, 1) == 0
    ensures Byte(data & 0xff, 2) == 0
    ensures Byte(data & 0xff, 3) == 0
  {
  }

  lemma LowLiteral2(data: bv32)
    ensures Byte(data & 0xffff, 0) == Byte(data, 0)
    ensures Byte(data & 0xffff, 1) == Byte(data, 1)
    ensures Byte(data & 0xffff, 2) == 0
    ensures Byte(data & 0xffff, 3) == 0
  {
  }

  lemma LowLiteral3(data: bv32)
    ensures Byte(data & 0xff_ffff, 0) == Byte(data, 0)
    ensures Byte(data & 0xff_ffff, 1) == Byte(data, 1)
    ensures Byte(data & 0xff_ffff, 2) == Byte(data, 2)
    ensures Byte(data & 0xff_ffff, 3) == 0
  {
  }

  lemma LowBytes0(data: bv32)
    ensures Byte(Low(data, Mask(0)), 0) == 0
    ensures Byte(Low(data, Mask(0)), 1) == 0
    ensures Byte(Low(data, Mask(0)), 2) == 0
    ensures Byte(Low(data, Mask(0)), 3) == 0
  {
    hide Byte, Low, Mask;
    LowWord0(data);
    LowLiteral0(data);
  }

  lemma LowBytes1(data: bv32)
    ensures Byte(Low(data, Mask(1)), 0) == Byte(data, 0)
    ensures Byte(Low(data, Mask(1)), 1) == 0
    ensures Byte(Low(data, Mask(1)), 2) == 0
    ensures Byte(Low(data, Mask(1)), 3) == 0
  {
    hide Byte, Low, Mask;
    LowWord1(data);
    LowLiteral1(data);
  }

  lemma LowBytes2(data: bv32)
    ensures Byte(Low(data, Mask(2)), 0) == Byte(data, 0)
    ensures Byte(Low(data, Mask(2)), 1) == Byte(data, 1)
    ensures Byte(Low(data, Mask(2)), 2) == 0
    ensures Byte(Low(data, Mask(2)), 3) == 0
  {
    hide Byte, Low, Mask;
    LowWord2(data);
    LowLiteral2(data);
  }

  lemma LowBytes3(data: bv32)
    ensures Byte(Low(data, Mask(3)), 0) == Byte(data, 0)
    ensures Byte(Low(data, Mask(3)), 1) == Byte(data, 1)
    ensures Byte(Low(data, Mask(3)), 2) == Byte(data, 2)
    ensures Byte(Low(data, Mask(3)), 3) == 0
  {
    hide Byte, Low, Mask;
    LowWord3(data);
    LowLiteral3(data);
  }

  lemma LowBytes(s: int, data: bv32, r: int)
    requires 0 <= s < SLOTS && 0 <= r < SLOTS
    ensures Byte(Low(data, Mask(s)), r) == if r < s then Byte(data, r) else 0
  {
    hide Byte, Low, Mask;
    match s {
      case 0 => LowBytes0(data);
      case 1 => LowBytes1(data);
      case 2 => LowBytes2(data);
      case _ => LowBytes3(data);
    }
  }

  function Assemble(b0: bv32, b1: bv32, b2: bv32, b3: bv32): bv32 {
    b0 | (b1 << 8) | (b2 << 16) | (b3 << 24)
  }

  lemma AssembleBytes(w: bv32)
    ensures Assemble(Byte(w, 0), Byte(w, 1), Byte(w, 2), Byte(w, 3)) == w
  {
  }

  // ---------------------------------------------------------------------------------------------
  // The ring of slots
  // ---------------------------------------------------------------------------------------------

  /** LRNG_DATA_NUM_VALUES is a power of two: it divides the range of the pointer. */
  predicate SizeOk(n: int) {
    2 * SLOTS <= n <= TWO32 && n % SLOTS == 0 && TWO32 % n == 0
  }

  /** The word of the array that a position of the ring lies in. */
  function WordAt(n: int, k: int): (r: int)
    requires SizeOk(n)
    ensures 0 <= r < n / SLOTS
  {
    k / SLOTS % (n / SLOTS)
  }

  /** lrng_data_idx2array and lrng_data_idx2slot of the masked pointer. */
  lemma RingIndex(n: int, k: int)
    requires SizeOk(n)
    ensures k % n / SLOTS == WordAt(n, k) && k % n % SLOTS == k % SLOTS
  {
    var m, i := n / SLOTS, k / SLOTS;
    var a, w := i / m, i % m;
    assert n * a == SLOTS * (m * a);
    assert k == n * a + (SLOTS * w + k % SLOTS);
    assert SLOTS * w + k % SLOTS < n by { MulOrder(SLOTS, w + 1, m); }
    RemainderOf(n, a, SLOTS * w + k % SLOTS);
    RemainderOf(SLOTS, w, k % SLOTS);
  }

  /** The byte at a position of the ring. */
  function At(words: seq<bv32>, n: int, k: int): bv32
    requires SizeOk(n) && |words| == n / SLOTS
  {
    Byte(words[WordAt(n, k)], k % SLOTS)
  }

  /** The bytes of a word in the order of the slots they go to, when the pointer is at p. */
  function Flat(data: bv32, p: int): (r: seq<bv32>)
    ensures |r| == SLOTS
  {
    [Byte(data, p % SLOTS), Byte(data, (p + 1) % SLOTS), Byte(data, (p + 2) % SLOTS), Byte(data, (p + 3) % SLOTS)]
  }

  /** The most recent n - gap bytes of the log stand in the ring; the gap is behind the pointer. */
  ghost predicate Holds(words: seq<bv32>, n: int, log: seq<bv32>, gap: int)
    requires SizeOk(n) && |words| == n / SLOTS
  {
    forall k :: 0 <= k < |log| && |log| - (n - gap) <= k ==> At(words, n, k) == log[k]
  }

  /** Positions in different words less than a whole turn apart are in different words of the array. */
  lemma DifferentWords(n: int, k: int, l: int)
    requires SizeOk(n) && k / SLOTS < l / SLOTS < k / SLOTS + n / SLOTS
    ensures WordAt(n, k) != WordAt(n, l)
  {
    DifferentResidues(n / SLOTS, k / SLOTS, l / SLOTS);
  }

  lemma DifferentResidues(n: int, k: int, l: int)
    requires 0 < n && k < l < k + n
    ensures k % n != l % n
  {
    var d := l / n - k / n;
    assert n * d == l - l % n - (k - k % n);
    if d >= 1 {
      MulOrder(n, 1, d);
    } else {
      MulOrder(n, d, 0);
    }
  }

  /** The 32-bit pointer and the unbounded position denote the same slot. */
  lemma PointerWraps(n: int, k: int)
    requires SizeOk(n)
    ensures Wrap(k) % n == k % n
  {
    var q, m := k / TWO32, TWO32 / n;
    assert k == n * (m * q) + Wrap(k) by {
      assert TWO32 == n * m;
      assert TWO32 * q == n * m * q;
      assert n * m * q == n * (m * q);
    }
    ModMultiple(n, m * q, Wrap(k));
  }

  lemma ModMultiple(n: int, q: int, r: int)
    requires n > 0
    ensures (n * q + r) % n == r % n
  {
    var b := r / n;
    assert n * q + r == n * (q + b) + r % n;
    RemainderOf(n, q + b, r % n);
  }

  /** The array after one slot was inserted at position p. */
  function WithSlot(words: seq<bv32>, n: int, p: int, v: bv32): (r: seq<bv32>)
    requires SizeOk(n) && |words| == n / SLOTS
    ensures |r| == |words|
  {
    words[WordAt(n, p) := PutSlot(words[WordAt(n, p)], p % SLOTS, v)]
  }

  /** The array after a word was inserted at position p. */
  function WithWord(words: seq<bv32>, n: int, p: int, data: bv32): (r: seq<bv32>)
    requires SizeOk(n) && |words| == n / SLOTS
    ensures |r| == |words|
  {
    var mask := Mask(p % SLOTS);
    words[WordAt(n, p) := PutHigh(words[WordAt(n, p)], mask, data)][WordAt(n, p + SLOTS) := Low(data, mask)]
  }

  lemma SlotAt(words: seq<bv32>, n: int, p: int, v: bv32, k: int)
    requires SizeOk(n) && |words| == n / SLOTS && p - n < k <= p
    ensures At(WithSlot(words, n, p, v), n, k) == if k == p then Low8(v) else At(words, n, k)
  {
    hide Byte, PutSlot, WordAt;
    PutSlotBytes(words[WordAt(n, p)], p % SLOTS, v, k % SLOTS);
    if k / SLOTS < p / SLOTS {
      if p / SLOTS < k / SLOTS + n / SLOTS {
        DifferentWords(n, k, p);
      }
    }
  }

  lemma WordAtEach(words: seq<bv32>, n: int, p: int, data: bv32, k: int)
    requires SizeOk(n) && |words| == n / SLOTS && p / SLOTS + 2 - n / SLOTS <= k / SLOTS && k < p + SLOTS
    ensures At(WithWord(words, n, p, data), n, k) == if k >= p then Byte(data, k % SLOTS) else At(words, n, k)
  {
    hide Byte, PutHigh, Mask, WordAt;
    PutHighBytes(words[WordAt(n, p)], p % SLOTS, data, k % SLOTS);
    LowBytes(p % SLOTS, data, k % SLOTS);
    DifferentWords(n, p, p + SLOTS);
    if k / SLOTS < p / SLOTS {
      DifferentWords(n, k, p);
      DifferentWords(n, k, p + SLOTS);
    } else if k / SLOTS == p / SLOTS {
      SameWord(n, k, p);
    } else {
      SameWord(n, k, p + SLOTS);
    }
  }

  lemma SameWord(n: int, k: int, l: int)
    requires SizeOk(n) && k / SLOTS == l / SLOTS
    ensures WordAt(n, k) == WordAt(n, l)
  {
  }

  lemma SlotStep(words: seq<bv32>, n: int, log: seq<bv32>, gap: nat, v: bv32)
    requires SizeOk(n) && |words| == n / SLOTS && gap <= SLOTS && Holds(words, n, log, gap)
    ensures Holds(WithSlot(words, n, |log|, v), n, log + [Low8(v)], if gap > 0 then gap - 1 else 0)
  {
    hide At, WithSlot;
    var gap' := if gap > 0 then gap - 1 else 0;
    var after, log' := WithSlot(words, n, |log|, v), log + [Low8(v)];
    forall k | 0 <= k < |log'| && |log'| - (n - gap') <= k
      ensures At(after, n, k) == log'[k]
    {
      SlotAt(words, n, |log|, v, k);
    }
  }

  lemma WordStep(words: seq<bv32>, n: int, log: seq<bv32>, gap: nat, data: bv32)
    requires SizeOk(n) && |words| == n / SLOTS && gap <= SLOTS && Holds(words, n, log, gap)
    ensures Holds(WithWord(words, n, |log|, data), n, log + Flat(data, |log|), SLOTS - |log| % SLOTS)
  {
    hide At, WithWord, Byte;
    var p := |log|;
    var after, log' := WithWord(words, n, p, data), log + Flat(data, p);
    forall k | 0 <= k < |log'| && |log'| - (n - (SLOTS - p % SLOTS)) <= k
      ensures At(after, n, k) == log'[k]
    {
      WordWindow(n, p, k);
      WordAtEach(words, n, p, data, k);
    }
  }

  lemma WordWindow(n: int, p: int, k: int)
    requires SizeOk(n) && p + SLOTS - (n - (SLOTS - p % SLOTS)) <= k
    ensures p / SLOTS + 2 - n / SLOTS <= k / SLOTS && k >= p + SLOTS - n
  {
  }

  class SelfTest {
    const n: int
    const words: array<bv32>
    var ptr: u32
    /** Every byte inserted so far, and the number of slots behind the pointer that the last word zeroised. */
    ghost var log: seq<bv32>
    ghost var gap: nat

    ghost predicate Valid()
      reads this, words
    {
      && SizeOk(n) && words.Length == n / SLOTS && ptr == Wrap(|log|) && gap <= SLOTS
      && Holds(words[..], n, log, gap)
    }

    /** The static array may hold anything. */
    constructor (n: int, words: array<bv32>)
      requires SizeOk(n) && words.Length == n / SLOTS
      ensures Valid() && log == [] && gap == 0 && this.words == words && this.n == n
    {
      this.n, this.words := n, words;
      ptr, log, gap := 0, [], 0;
    }

    /** lrng_data_process_selftest_insert */
    method Insert(time: bv32)
      requires Valid()
      modifies this, words
      ensures Valid() && log == old(log) + [Low8(time)]
      ensures gap == if old(gap) > 0 then old(gap) - 1 else 0
    {
      hide Holds, Byte, WordAt, Wrap, Add, PutSlot, SlotVal, Or, Zeroise, Low8, SizeOk, Masked;
      ghost var p, before := |log|, words[..];
      SlotAddress(n, p, ptr);
      var at := Masked(ptr, n);
      NextPointer(p, 1);
      ptr := Add(ptr, 1);
      var i, s := at / SLOTS, at % SLOTS;
      words[i] := Zeroise(words[i], s);
      words[i] := Or(words[i], SlotVal(Low8(time), s));
      assert words[..] == before[i := Or(Zeroise(before[i], s), SlotVal(Low8(time), s))];
      PutSlotIs(before[i], s, time);
      SlotStep(before, n, log, gap, time);
      log := log + [Low8(time)];
      gap := if gap > 0 then gap - 1 else 0;
    }

    /** lrng_data_process_selftest_u32 */
    method InsertU32(data: bv32)
      requires Valid()
      modifies this, words
      ensures Valid() && log == old(log) + Flat(data, |old(log)|)
      ensures gap == SLOTS - |old(log)| % SLOTS
    {
      hide Holds, Byte, Mask, WordAt, Wrap, Add, Sub, PutHigh, Flat, Or, ZeroiseHigh, High, Low, SizeOk, Masked;
      ghost var p, before := |log|, words[..];
      NextPointer(p, SLOTS);
      ptr := Add(ptr, SLOTS);
      PreviousUnit(n, p);
      SlotAddress(n, p, Sub(ptr, SLOTS));
      SlotAddress(n, p + SLOTS, ptr);
      var pre := Masked(Sub(ptr, SLOTS), n);
      var at := Masked(ptr, n);
      var mask := Mask(pre % SLOTS);
      var i, j := pre / SLOTS, at / SLOTS;
      words[i] := ZeroiseHigh(words[i], mask);
      words[i] := Or(words[i], High(data, mask));
      words[j] := Low(data, mask);
      assert words[..] == before[i := Or(ZeroiseHigh(before[i], mask), High(data, mask))][j := Low(data, mask)];
      PutHighIs(before[i], mask, data);
      WordStep(before, n, log, gap, data);
      gap := SLOTS - p % SLOTS;
      log := log + Flat(data, p);
    }
  }

  /** The pointer masked with LRNG_DATA_WORD_MASK. */
  function Masked(ptr: u32, n: int): int
    requires SizeOk(n)
  {
    ptr % n
  }

  lemma PutSlotIs(w: bv32, s: int, v: bv32)
    ensures PutSlot(w, s, v) == Or(Zeroise(w, s), SlotVal(Low8(v), s))
  {
  }

  lemma PutHighIs(w: bv32, mask: bv32, data: bv32)
    ensures PutHigh(w, mask, data) == Or(ZeroiseHigh(w, mask), High(data, mask))
  {
  }

  lemma SlotAddress(n: int, p: nat, ptr: u32)
    requires SizeOk(n) && ptr == Wrap(p)
    ensures var at := Masked(ptr, n); 0 <= at / SLOTS < n / SLOTS && at / SLOTS == WordAt(n, p) && at % SLOTS == p % SLOTS
  {
    PointerWraps(n, p);
    RingIndex(n, p);
  }

  lemma NextPointer(p: nat, d: nat)
    ensures Add(Wrap(p), Wrap(d)) == Wrap(p + d)
  {
  }

  lemma PreviousUnit(n: int, p: nat)
    requires SizeOk(n)
    ensures Sub(Wrap(p + SLOTS), SLOTS) == Wrap(p)
  {
  }

  /** Of the four positions from p the one that goes to slot s of a word. */
  function PositionOf(p: nat, s: nat): (r: nat)
    requires s < SLOTS
    ensures p <= r < p + SLOTS && r % SLOTS == s
  {
    p + (s - p) % SLOTS
  }

  /** The word that was inserted at position p can be read back from the array while its slots are recent. */
  lemma WordIsRecoverable(words: seq<bv32>, n: int, log: seq<bv32>, gap: nat, p: nat, data: bv32)
    requires SizeOk(n) && |words| == n / SLOTS && gap <= SLOTS && Holds(words, n, log, gap)
    requires p + SLOTS <= |log| <= p + n - gap && log[p..p + SLOTS] == Flat(data, p)
    ensures Assemble(At(words, n, PositionOf(p, 0)), At(words, n, PositionOf(p, 1)),
                     At(words, n, PositionOf(p, 2)), At(words, n, PositionOf(p, 3))) == data
  {
    hide At, Byte, PositionOf, Assemble, Flat;
    FlatAt(data, p);
    forall k | p <= k < p + SLOTS
      ensures At(words, n, k) == Byte(data, k % SLOTS)
    {
      assert log[k] == log[p..p + SLOTS][k - p];
    }
    AssembleBytes(data);
  }

  lemma FlatAt(data: bv32, p: nat)
    ensures forall j :: 0 <= j < SLOTS ==> Flat(data, p)[j] == Byte(data, (p + j) % SLOTS)
  {
    hide Byte;
  }
}
