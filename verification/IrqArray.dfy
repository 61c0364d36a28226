/**
 The per-CPU array of the interrupt entropy source (lrng_es_irq.c:503-617) with continuous compression, a working hash
 and no recording of the raw array: exactly which of the inserted bytes reach the hash before they are overwritten, for
 slots and words in any order.
 */
module IrqArray {
  import opened Words
  import opened SlotPacking

  /**
   What went into the hash, how many insertions had been made by then, and the lap of the pointer around the array that it
   stands for: the one that a wrapping pointer just completed.
   */
  datatype Snapshot = Snapshot(words: seq<bv32>, count: nat, lap: int)

  /** `pos` is the array pointer without its wrap-around, `count` the number of insertions so far. */
  datatype State = State(words: seq<bv32>, pos: nat, hashed: seq<Snapshot>, count: nat)

  datatype Insertion = Slot(data: bv32, fullySeeded: bool) | Word(data: bv32, fullySeeded: bool)

  ghost predicate Ok(n: int, s: State) {
    && SizeOk(n) && |s.words| == n / SLOTS
    && forall h :: 0 <= h < |s.hashed| ==> |s.hashed[h].words| == n / SLOTS && s.hashed[h].count <= s.count
  }

  function Empty(n: int): State
    requires SizeOk(n)
  {
    State(seq(n / SLOTS, i => 0), 0, [], 0)
  }

  /** The test of lrng_irq_array_to_hash for a masked pointer. */
  predicate Compresses(n: int, at: int, fullySeeded: bool) {
    at >= n - 1 || (!fullySeeded && at % 32 == 0)
  }

  function ToHash(n: int, s: State, at: int, lap: int, fullySeeded: bool): State {
    if Compresses(n, at, fullySeeded) then s.(hashed := s.hashed + [Snapshot(s.words, s.count, lap)]) else s
  }

  /** lrng_irq_array_add_slot: the slot behind the pointer takes the byte. */
  function AfterSlot(n: int, s: State, data: bv32, fullySeeded: bool): State
    requires SizeOk(n) && |s.words| == n / SLOTS
  {
    var p := s.pos + 1;
    ToHash(n, State(WithSlot(s.words, n, p, data), p, s.hashed, s.count + 1), p % n, p / n, fullySeeded)
  }

  /** The array after the first of the two writes of a word. */
  function WithHigh(words: seq<bv32>, n: int, p: int, data: bv32): (r: seq<bv32>)
    requires SizeOk(n) && |words| == n / SLOTS
    ensures |r| == |words|
  {
    words[WordAt(n, p) := PutHigh(words[WordAt(n, p)], Mask(p % SLOTS), data)]
  }

  /** _lrng_irq_array_add_u32: when the pointer wraps, the array is hashed between the two writes. */
  function AfterWord(n: int, s: State, data: bv32, fullySeeded: bool): State
    requires SizeOk(n) && |s.words| == n / SLOTS
  {
    var p := s.pos;
    var high := State(WithHigh(s.words, n, p, data), p + SLOTS, s.hashed, s.count + 1);
    var whole := WithWord(s.words, n, p, data);
    if p % n > (p + SLOTS) % n then ToHash(n, high, n - 1, p / n, fullySeeded).(words := whole)
    else ToHash(n, high.(words := whole), (p + SLOTS) % n, (p + SLOTS) / n, fullySeeded)
  }

  function After(n: int, s: State, i: Insertion): State
    requires SizeOk(n) && |s.words| == n / SLOTS
  {
    match i
    case Slot(data, fullySeeded) => AfterSlot(n, s, data, fullySeeded)
    case Word(data, fullySeeded) => AfterWord(n, s, data, fullySeeded)
  }

  lemma AfterIsOk(n: int, s: State, i: Insertion)
    requires Ok(n, s)
    ensures Ok(n, After(n, s, i)) && After(n, s, i).count == s.count + 1
  {
    hide WithSlot, WithWord, WithHigh, Compresses;
  }

  /** The state after a list of insertions. */
  ghost function Run(n: int, ins: seq<Insertion>): (s: State)
    requires SizeOk(n)
    ensures Ok(n, s) && s.count == |ins|
    decreases |ins|, 1
  {
    if ins == [] then Empty(n) else AfterLast(n, ins)
  }

  /** The state that the last insertion of a list leaves. */
  ghost function AfterLast(n: int, ins: seq<Insertion>): (s: State)
    requires SizeOk(n) && ins != []
    ensures Ok(n, s) && s.count == |ins|
    decreases |ins|, 0
  {
    var s := Run(n, ins[..|ins| - 1]);
    AfterIsOk(n, s, ins[|ins| - 1]);
    After(n, s, ins[|ins| - 1])
  }

  // ---------------------------------------------------------------------------------------------
  // The bytes of an insertion
  // ---------------------------------------------------------------------------------------------

  /** Insertion j of the list, made at pointer `pos`, stores a byte at position q. */
  predicate Stores(i: Insertion, pos: nat, q: int) {
    match i
    case Slot(_, _) => q == pos + 1
    case Word(_, _) => pos <= q < pos + SLOTS
  }

  /** That byte. */
  function Stored(i: Insertion, q: int): bv32 {
    match i
    case Slot(data, _) => data
    case Word(data, _) => Byte(data, q % SLOTS)
  }

  /** The caller of lrng_irq_array_add_slot masks the data. */
  predicate Masked8(i: Insertion) {
    i.Slot? ==> Low8(i.data) == i.data
  }

  ghost function PosBefore(n: int, ins: seq<Insertion>, j: nat): nat
    requires SizeOk(n) && j <= |ins|
  {
    Run(n, ins[..j]).pos
  }

  /** Insertion j is a slot that a word follows directly: the word goes over its byte. */
  predicate GoneOver(ins: seq<Insertion>, j: nat)
    requires j < |ins|
  {
    ins[j].Slot? && j + 1 < |ins| && ins[j + 1].Word?
  }

  /** A slot that a word follows directly, and that does not trigger the compression itself. */
  ghost predicate Lost(n: int, ins: seq<Insertion>, j: nat, q: int)
    requires SizeOk(n) && j < |ins|
  {
    GoneOver(ins, j) && !Compresses(n, q % n, ins[j].fullySeeded)
  }

  /** The snapshot was taken while the byte of insertion j stood at q: in its lap, and before a word went over it. */
  predicate TakenSince(n: int, ins: seq<Insertion>, j: nat, q: int, x: Snapshot)
    requires SizeOk(n) && j < |ins|
  {
    && j < x.count && x.lap == q / n && |x.words| == n / SLOTS
    && (GoneOver(ins, j) ==> x.count == j + 1)
  }

  /** The byte of insertion j at q is in a snapshot that was taken while it stood there. */
  ghost predicate Hashed(n: int, ins: seq<Insertion>, j: nat, q: int)
    requires SizeOk(n) && j < |ins|
  {
    var hashed := Run(n, ins).hashed;
    exists h :: 0 <= h < |hashed| && TakenSince(n, ins, j, q, hashed[h]) && At(hashed[h].words, n, q) == Stored(ins[j], q)
  }

  /**
   The byte still stands in the lap of the pointer, which has not reached the last slot; and the pointer is behind it, or
   on it because a slot was inserted last.
   */
  ghost predicate Stands(n: int, ins: seq<Insertion>, j: nat, q: int)
    requires SizeOk(n) && j < |ins|
  {
    var s := Run(n, ins);
    && s.pos / n == q / n && s.pos % n != n - 1 && At(s.words, n, q) == Stored(ins[j], q) && !GoneOver(ins, j)
    && (q < s.pos || (q == s.pos && j == |ins| - 1 && ins[j].Slot? && !Compresses(n, q % n, ins[j].fullySeeded)))
  }

  // ---------------------------------------------------------------------------------------------
  // Laps of the pointer
  // ---------------------------------------------------------------------------------------------

  /** The next slot stays in the lap unless the pointer was at the last slot. */
  lemma NextSlot(n: int, p: nat)
    requires SizeOk(n)
    ensures (p + 1) % n == (if p % n == n - 1 then 0 else p % n + 1)
    ensures p % n != n - 1 ==> (p + 1) / n == p / n
  {
    var q, r := p / n, p % n;
    if r == n - 1 {
      assert p + 1 == n * (q + 1) + 0;
      RemainderOf(n, q + 1, 0);
    } else {
      assert p + 1 == n * q + (r + 1);
      RemainderOf(n, q, r + 1);
    }
  }

  /** A word wraps the pointer exactly if it leaves the lap. */
  lemma NextWord(n: int, p: nat)
    requires SizeOk(n)
    ensures p % n > (p + SLOTS) % n <==> p % n + SLOTS >= n
    ensures p % n + SLOTS < n ==> (p + SLOTS) / n == p / n && (p + SLOTS) % n == p % n + SLOTS
    ensures p % n + SLOTS >= n ==> (p + SLOTS) / n == p / n + 1 && (p + SLOTS) % n == p % n + SLOTS - n
  {
    var q, r := p / n, p % n;
    if r + SLOTS < n {
      assert p + SLOTS == n * q + (r + SLOTS);
      RemainderOf(n, q, r + SLOTS);
    } else {
      assert p + SLOTS == n * (q + 1) + (r + SLOTS - n);
      RemainderOf(n, q + 1, r + SLOTS - n);
    }
  }

  /** Positions of one lap lie between its multiples of the array size, which are aligned. */
  lemma LapBounds(n: int, q: int) returns (start: int)
    requires SizeOk(n)
    ensures SLOTS * start <= q < SLOTS * start + n && SLOTS * start == n * (q / n) && n == SLOTS * (n / SLOTS)
    ensures q % n == q - SLOTS * start
  {
    start := n / SLOTS * (q / n);
    assert n * (q / n) == SLOTS * (n / SLOTS * (q / n));
  }

  lemma InLap(n: int, start: int, lap: int, q: int)
    requires SizeOk(n) && SLOTS * start == n * lap && SLOTS * start <= q < SLOTS * start + n
    ensures q / n == lap
  {
    RemainderOf(n, lap, q - SLOTS * start);
  }

  // ---------------------------------------------------------------------------------------------
  // What one insertion does to the bytes of the lap
  // ---------------------------------------------------------------------------------------------

  /** A slot leaves the bytes of the lap behind the pointer, and stores its own. */
  lemma SlotLeaves(n: int, words: seq<bv32>, p: nat, data: bv32, q: int)
    requires SizeOk(n) && |words| == n / SLOTS && q <= p && q / n == p / n
    ensures At(WithSlot(words, n, p, data), n, q) == if q == p then Low8(data) else At(words, n, q)
  {
    hide At, WithSlot, Low8;
    var start := LapBounds(n, q);
    var start' := LapBounds(n, p);
    SlotAt(words, n, p, data, q);
  }

  /** A word that stays in the lap leaves the bytes behind the pointer, and stores its own. */
  lemma WordLeaves(n: int, words: seq<bv32>, p: nat, data: bv32, q: int)
    requires SizeOk(n) && |words| == n / SLOTS && p % n + SLOTS < n && q < p + SLOTS && q / n == p / n
    ensures At(WithWord(words, n, p, data), n, q) == if q >= p then Byte(data, q % SLOTS) else At(words, n, q)
  {
    hide At, WithWord, Byte, SizeOk;
    WordFits(n, p, q);
    WordAtEach(words, n, p, data, q);
  }

  lemma WordFits(n: int, p: nat, q: int)
    requires SizeOk(n) && p % n + SLOTS < n && q / n == p / n
    ensures p / SLOTS + 2 - n / SLOTS <= q / SLOTS
  {
    var start := LapBounds(n, q);
    var start' := LapBounds(n, p);
    hide SizeOk;
    assert start == start' && q / SLOTS >= start;
    assert p + SLOTS < SLOTS * (start + n / SLOTS);
  }

  /** The first write of a word leaves the bytes of the lap behind the pointer, and stores its own bytes of the lap. */
  lemma HighLeaves(n: int, words: seq<bv32>, p: nat, data: bv32, q: int)
    requires SizeOk(n) && |words| == n / SLOTS && p % n + SLOTS >= n && q / n == p / n
    ensures At(WithHigh(words, n, p, data), n, q) == if q >= p then Byte(data, q % SLOTS) else At(words, n, q)
  {
    SameLap(n, p, q);
    hide Byte, PutHigh, Mask, WordAt, SizeOk;
    PutHighBytes(words[WordAt(n, p)], p % SLOTS, data, q % SLOTS);
    if q / SLOTS < p / SLOTS {
      DifferentWords(n, q, p);
    } else {
      SameWord(n, q, p);
    }
  }

  /** In one lap the words differ by less than a turn, and the last word is the last. */
  lemma SameLap(n: int, p: nat, q: int)
    requires SizeOk(n) && q / n == p / n
    ensures p / SLOTS < q / SLOTS + n / SLOTS && q / SLOTS < p / SLOTS + n / SLOTS
    ensures p % n + SLOTS >= n ==> q / SLOTS <= p / SLOTS
  {
    var start := LapBounds(n, q);
    var start' := LapBounds(n, p);
    var m := n / SLOTS;
    hide SizeOk;
    assert start <= q / SLOTS < start + m && start <= p / SLOTS < start + m;
  }

  /** A word that leaves the lap stores its bytes of the next one. */
  lemma WordCrosses(n: int, words: seq<bv32>, p: nat, data: bv32, q: int)
    requires SizeOk(n) && |words| == n / SLOTS && p % n + SLOTS >= n && p <= q < p + SLOTS && q / n != p / n
    ensures At(WithWord(words, n, p, data), n, q) == Byte(data, q % SLOTS) && q / n == p / n + 1
  {
    hide At, WithWord, Byte;
    var start := LapBounds(n, p);
    if q < SLOTS * start + n {
      InLap(n, start, p / n, q);
    } else {
      assert SLOTS * (start + n / SLOTS) == n * (p / n + 1);
      InLap(n, start + n / SLOTS, p / n + 1, q);
    }
    WordAtEach(words, n, p, data, q);
  }

  // ---------------------------------------------------------------------------------------------
  // Every byte stands or was hashed
  // ---------------------------------------------------------------------------------------------

  lemma RunExtends(n: int, front: seq<Insertion>, i: Insertion)
    requires SizeOk(n)
    ensures Run(n, front + [i]) == After(n, Run(n, front), i) && (front + [i])[..|front|] == front
  {
    assert (front + [i])[..|front|] == front;
  }

  /** What was hashed stays hashed. */
  lemma StaysHashed(n: int, front: seq<Insertion>, i: Insertion, j: nat, q: int)
    requires SizeOk(n) && j < |front| && Hashed(n, front, j, q)
    ensures Hashed(n, front + [i], j, q)
  {
    var s := Run(n, front);
    var ins := front + [i];
    RunExtends(n, front, i);
    HashedGrows(n, s, i);
    hide At, After, Run;
    var h :| 0 <= h < |s.hashed| && TakenSince(n, front, j, q, s.hashed[h]) && At(s.hashed[h].words, n, q) == Stored(front[j], q);
    assert Run(n, ins).hashed[h] == s.hashed[h];
    assert TakenSince(n, ins, j, q, s.hashed[h]);
  }

  /** An insertion adds at most one snapshot, with its own count. */
  lemma HashedGrows(n: int, s: State, i: Insertion)
    requires Ok(n, s)
    ensures var r := After(n, s, i).hashed;
      s.hashed <= r && |r| <= |s.hashed| + 1 && (|r| > |s.hashed| ==> r[|s.hashed|].count == s.count + 1)
  {
    hide WithSlot, WithWord, WithHigh, Compresses;
  }

  /** A snapshot of the last insertion that holds the byte. */
  lemma NowHashed(n: int, front: seq<Insertion>, i: Insertion, j: nat, q: int, x: Snapshot)
    requires SizeOk(n) && j <= |front| && |x.words| == n / SLOTS
    ensures var ins := front + [i];
      Run(n, ins).hashed == Run(n, front).hashed + [x] && TakenSince(n, ins, j, q, x) && At(x.words, n, q) == Stored(ins[j], q)
      ==> Hashed(n, ins, j, q)
  {
    hide At, After, Run, TakenSince;
    var hashed := Run(n, front + [i]).hashed;
    if hashed == Run(n, front).hashed + [x] {
      assert hashed[|hashed| - 1] == x;
    }
  }

  lemma AfterSlotIs(n: int, s: State, data: bv32, fullySeeded: bool)
    requires Ok(n, s)
    ensures var p, words := s.pos + 1, WithSlot(s.words, n, s.pos + 1, data);
      After(n, s, Slot(data, fullySeeded)) == State(words, p,
        if Compresses(n, p % n, fullySeeded) then s.hashed + [Snapshot(words, s.count + 1, p / n)] else s.hashed, s.count + 1)
  {
    hide WithSlot, Compresses;
  }

  lemma AfterWordIs(n: int, s: State, data: bv32, fullySeeded: bool)
    requires Ok(n, s)
    ensures var p, words := s.pos, WithWord(s.words, n, s.pos, data);
      After(n, s, Word(data, fullySeeded)) == State(words, p + SLOTS,
        if p % n + SLOTS >= n then s.hashed + [Snapshot(WithHigh(s.words, n, p, data), s.count + 1, p / n)]
        else if Compresses(n, (p + SLOTS) % n, fullySeeded) then s.hashed + [Snapshot(words, s.count + 1, (p + SLOTS) / n)]
        else s.hashed, s.count + 1)
  {
    NextWord(n, s.pos);
    hide WithHigh, WithWord, SizeOk;
  }

  /** The byte of a slot that was inserted last is where the pointer is. */
  lemma SlotIsAtPointer(n: int, ins: seq<Insertion>, q: int)
    requires SizeOk(n) && ins != [] && ins[|ins| - 1].Slot? && Stores(ins[|ins| - 1], PosBefore(n, ins, |ins| - 1), q)
    ensures q == Run(n, ins).pos
  {
    var front := ins[..|ins| - 1];
    assert front + [ins[|ins| - 1]] == ins;
    RunExtends(n, front, ins[|ins| - 1]);
    AfterSlotIs(n, Run(n, front), ins[|ins| - 1].data, ins[|ins| - 1].fullySeeded);
  }

  /** A standing byte and a further slot. */
  lemma StandsBesideSlot(n: int, front: seq<Insertion>, i: Insertion, j: nat, q: int)
    requires SizeOk(n) && j < |front| && Stands(n, front, j, q) && i.Slot?
    ensures Hashed(n, front + [i], j, q) || Stands(n, front + [i], j, q)
  {
    var s, ins := Run(n, front), front + [i];
    var p := s.pos + 1;
    var words := WithSlot(s.words, n, p, i.data);
    RunExtends(n, front, i);
    AfterSlotIs(n, s, i.data, i.fullySeeded);
    NextSlot(n, s.pos);
    SlotLeaves(n, s.words, p, i.data, q);
    hide At, WithSlot, After, SizeOk, Run, Hashed;
    if Compresses(n, p % n, i.fullySeeded) {
      NowHashed(n, front, i, j, q, Snapshot(words, s.count + 1, p / n));
    } else {
      assert Stands(n, ins, j, q);
    }
  }

  lemma LastSlotCompresses(n: int)
    ensures Compresses(n, n - 1, true) && Compresses(n, n - 1, false)
  {
  }

  /** A byte that a word in the same lap leaves or stores is hashed with it, or stands behind the pointer. */
  lemma KeptBesideWord(n: int, front: seq<Insertion>, i: Insertion, j: nat, q: int)
    requires SizeOk(n) && j <= |front| && i.Word? && !GoneOver(front + [i], j)
    ensures var s := Run(n, front);
      s.pos % n + SLOTS < n && q < s.pos + SLOTS && q / n == s.pos / n
      && At(WithWord(s.words, n, s.pos, i.data), n, q) == Stored((front + [i])[j], q)
      ==> Hashed(n, front + [i], j, q) || Stands(n, front + [i], j, q)
  {
    hide *;
    SizeBound(n);
    var s := Run(n, front);
    if s.pos % n + SLOTS < n {
      WordInLap(n, front, i);
      KeptInLap(n, front, i, j, q, WithWord(s.words, n, s.pos, i.data), (s.pos + SLOTS) % n, s.pos / n);
    }
  }

  /** A word that stays in the lap. */
  lemma WordInLap(n: int, front: seq<Insertion>, i: Insertion)
    requires SizeOk(n) && i.Word? && Run(n, front).pos % n + SLOTS < n
    ensures var s, r := Run(n, front), Run(n, front + [i]);
      var words, at := WithWord(s.words, n, s.pos, i.data), (s.pos + SLOTS) % n;
      && |words| == n / SLOTS && r.words == words && r.pos == s.pos + SLOTS && r.pos % n == at && r.pos / n == s.pos / n
      && r.hashed == if Compresses(n, at, i.fullySeeded) then s.hashed + [Snapshot(words, |front| + 1, s.pos / n)] else s.hashed
  {
    hide WithWord, WithHigh, After, Run, Compresses, SizeOk;
    var s := Run(n, front);
    RunExtends(n, front, i);
    AfterWordIs(n, s, i.data, i.fullySeeded);
    NextWord(n, s.pos);
  }

  /** A byte behind the pointer after an insertion that stays in the lap. */
  lemma KeptInLap(n: int, front: seq<Insertion>, i: Insertion, j: nat, q: int, words: seq<bv32>, at: int, lap: int)
    requires SizeOk(n) && j <= |front| && |words| == n / SLOTS && !GoneOver(front + [i], j)
    ensures var s, r := Run(n, front), Run(n, front + [i]);
      At(words, n, q) == Stored((front + [i])[j], q) && q / n == lap && r.words == words && q < r.pos && r.pos % n == at && r.pos / n == lap
      && r.hashed == (if Compresses(n, at, i.fullySeeded) then s.hashed + [Snapshot(words, |front| + 1, lap)] else s.hashed)
      ==> Hashed(n, front + [i], j, q) || Stands(n, front + [i], j, q)
  {
    LastSlotCompresses(n);
    hide At, SizeOk, Run, Hashed, Compresses, Stored;
    if Compresses(n, at, i.fullySeeded) {
      NowHashed(n, front, i, j, q, Snapshot(words, |front| + 1, lap));
    } else {
      assert at != n - 1;
    }
  }

  /** A standing byte behind the pointer and a word that stays in the lap. */
  lemma StandsBesideWord(n: int, front: seq<Insertion>, i: Insertion, j: nat, q: int)
    requires SizeOk(n) && j < |front| && i.Word? && !GoneOver(front + [i], j)
    ensures Stands(n, front, j, q) && q < Run(n, front).pos && Run(n, front).pos % n + SLOTS < n
      ==> Hashed(n, front + [i], j, q) || Stands(n, front + [i], j, q)
  {
    hide At, WithWord, Run, Hashed, SizeOk;
    SizeBound(n);
    var s := Run(n, front);
    if Stands(n, front, j, q) && q < s.pos && s.pos % n + SLOTS < n {
      WordLeaves(n, s.words, s.pos, i.data, q);
      KeptBesideWord(n, front, i, j, q);
    }
  }

  /** A standing byte behind the pointer and a word that leaves the lap: the array is hashed between its writes. */
  lemma StandsBeforeWrap(n: int, front: seq<Insertion>, i: Insertion, j: nat, q: int)
    requires SizeOk(n) && j < |front| && i.Word? && !GoneOver(front + [i], j)
    ensures Stands(n, front, j, q) && q < Run(n, front).pos && Run(n, front).pos % n + SLOTS >= n
      ==> Hashed(n, front + [i], j, q)
  {
    hide At, WithWord, WithHigh, After, SizeOk, Run, Hashed;
    SizeBound(n);
    var s := Run(n, front);
    if Stands(n, front, j, q) && q < s.pos && s.pos % n + SLOTS >= n {
      RunExtends(n, front, i);
      AfterWordIs(n, s, i.data, i.fullySeeded);
      HighLeaves(n, s.words, s.pos, i.data, q);
      NowHashed(n, front, i, j, q, Snapshot(WithHigh(s.words, n, s.pos, i.data), s.count + 1, s.pos / n));
    }
  }

  lemma OldByteIsKept(n: int, front: seq<Insertion>, i: Insertion, j: nat, q: int)
    requires SizeOk(n) && j < |front| && Stands(n, front, j, q) && Stores(front[j], PosBefore(n, front, j), q)
    requires !Lost(n, front + [i], j, q)
    ensures Hashed(n, front + [i], j, q) || Stands(n, front + [i], j, q)
  {
    if i.Slot? {
      StandsBesideSlot(n, front, i, j, q);
    } else {
      if front[j].Slot? && j == |front| - 1 {
        SlotIsAtPointer(n, front, q);
      }
      hide Run, Hashed;
      if Run(n, front).pos % n + SLOTS < n {
        StandsBesideWord(n, front, i, j, q);
      } else {
        StandsBeforeWrap(n, front, i, j, q);
      }
    }
  }

  /** The byte of a slot just inserted. */
  lemma NewSlotIsKept(n: int, front: seq<Insertion>, i: Insertion, q: int)
    requires SizeOk(n) && i.Slot? && Masked8(i) && Stores(i, Run(n, front).pos, q)
    ensures Hashed(n, front + [i], |front|, q) || Stands(n, front + [i], |front|, q)
    ensures Compresses(n, q % n, i.fullySeeded) ==> Hashed(n, front + [i], |front|, q)
  {
    var s, ins := Run(n, front), front + [i];
    var words := WithSlot(s.words, n, q, i.data);
    RunExtends(n, front, i);
    AfterSlotIs(n, s, i.data, i.fullySeeded);
    SlotLeaves(n, s.words, q, i.data, q);
    hide At, WithSlot, After, SizeOk, Run, Hashed, Low8;
    if Compresses(n, q % n, i.fullySeeded) {
      NowHashed(n, front, i, |front|, q, Snapshot(words, s.count + 1, q / n));
    } else {
      assert Stands(n, ins, |front|, q);
    }
  }

  /** A byte of a word just inserted. */
  lemma NewWordIsKept(n: int, front: seq<Insertion>, i: Insertion, q: int)
    requires SizeOk(n) && i.Word? && Stores(i, Run(n, front).pos, q)
    ensures Hashed(n, front + [i], |front|, q) || Stands(n, front + [i], |front|, q)
  {
    var s := Run(n, front);
    var p := s.pos;
    hide At, WithWord, WithHigh, Hashed, Stands, Run;
    if p % n + SLOTS < n {
      NearBy(n, p, q);
      WordLeaves(n, s.words, p, i.data, q);
      KeptBesideWord(n, front, i, |front|, q);
    } else if q / n == p / n {
      NewHighIsHashed(n, front, i, q);
    } else {
      NewLowStands(n, front, i, q);
    }
  }

  /** A byte of a wrapping word in the lap that it leaves. */
  lemma NewHighIsHashed(n: int, front: seq<Insertion>, i: Insertion, q: int)
    requires SizeOk(n) && i.Word? && Stores(i, Run(n, front).pos, q)
    requires Run(n, front).pos % n + SLOTS >= n && q / n == Run(n, front).pos / n
    ensures Hashed(n, front + [i], |front|, q)
  {
    var s := Run(n, front);
    RunExtends(n, front, i);
    AfterWordIs(n, s, i.data, i.fullySeeded);
    HighLeaves(n, s.words, s.pos, i.data, q);
    hide At, WithWord, WithHigh, After, SizeOk, Run, Hashed;
    NowHashed(n, front, i, |front|, q, Snapshot(WithHigh(s.words, n, s.pos, i.data), s.count + 1, s.pos / n));
  }

  /** A byte of a wrapping word in the lap that it enters. */
  lemma NewLowStands(n: int, front: seq<Insertion>, i: Insertion, q: int)
    requires SizeOk(n) && i.Word? && Stores(i, Run(n, front).pos, q)
    requires Run(n, front).pos % n + SLOTS >= n && q / n != Run(n, front).pos / n
    ensures Stands(n, front + [i], |front|, q)
  {
    var s := Run(n, front);
    RunExtends(n, front, i);
    AfterWordIs(n, s, i.data, i.fullySeeded);
    NextWord(n, s.pos);
    WordCrosses(n, s.words, s.pos, i.data, q);
    SizeBound(n);
    assert s.pos % n < n;
    hide At, WithWord, WithHigh, After, SizeOk, Run;
  }

  lemma SizeBound(n: int)
    requires SizeOk(n)
    ensures n >= 2 * SLOTS && n >= 8
  {
  }

  lemma NearBy(n: int, p: nat, q: int)
    requires SizeOk(n) && p <= q < p + SLOTS && p % n + SLOTS < n
    ensures q / n == p / n
  {
    var start := LapBounds(n, p);
    InLap(n, start, p / n, q);
  }

  /**
   For every list of insertions, of slots and words in any order, every insertion of it and every byte of that: unless
   the insertion is a slot that does not trigger the compression and that a word follows directly, the byte stands where
   it was stored or was hashed while it stood there.
   */
  lemma {:induction false} ByteIsKept(n: int, ins: seq<Insertion>, j: nat, q: int)
    requires SizeOk(n) && j < |ins| && Masked8(ins[j]) && Stores(ins[j], PosBefore(n, ins, j), q)
    requires !Lost(n, ins, j, q)
    ensures Hashed(n, ins, j, q) || Stands(n, ins, j, q)
    decreases |ins|
  {
    hide Hashed, Stands, Run, Compresses;
    var front, i := ins[..|ins| - 1], ins[|ins| - 1];
    assert front + [i] == ins && ins[..j] == front[..j];
    if j == |front| {
      assert front[..j] == front;
      if i.Slot? {
        NewSlotIsKept(n, front, i, q);
      } else {
        NewWordIsKept(n, front, i, q);
      }
    } else {
      ByteIsKept(n, front, j, q);
      if Hashed(n, front, j, q) {
        StaysHashed(n, front, i, j, q);
      } else {
        OldByteIsKept(n, front, i, j, q);
      }
    }
  }

  predicate Misses(hashed: seq<Snapshot>, count: nat) {
    forall h :: 0 <= h < |hashed| ==> hashed[h].count != count
  }

  lemma OthersMiss(n: int, s: State, i: Insertion, count: nat)
    requires Ok(n, s) && Misses(s.hashed, count) && count != s.count + 1
    ensures Misses(After(n, s, i).hashed, count)
  {
    HashedGrows(n, s, i);
    hide After, SizeOk;
  }

  lemma QuietSlotMisses(n: int, s: State, i: Insertion)
    requires Ok(n, s) && i.Slot? && !Compresses(n, (s.pos + 1) % n, i.fullySeeded)
    ensures Misses(After(n, s, i).hashed, s.count + 1)
  {
    AfterSlotIs(n, s, i.data, i.fullySeeded);
    hide After, SizeOk, Compresses;
  }

  /** A slot that does not trigger the compression has no snapshot of its own count. */
  lemma {:induction false} NoOwnSnapshot(n: int, ins: seq<Insertion>, j: nat)
    requires SizeOk(n) && j < |ins| && ins[j].Slot?
    requires !Compresses(n, (PosBefore(n, ins, j) + 1) % n, ins[j].fullySeeded)
    ensures Misses(Run(n, ins).hashed, j + 1)
    decreases |ins|
  {
    hide After, Run, Compresses, Misses;
    var front, i := ins[..|ins| - 1], ins[|ins| - 1];
    assert front + [i] == ins && ins[..j] == front[..j];
    RunExtends(n, front, i);
    if j == |front| {
      assert front[..j] == front;
      QuietSlotMisses(n, Run(n, front), i);
    } else {
      NoOwnSnapshot(n, front, j);
      OthersMiss(n, Run(n, front), i, j + 1);
    }
  }

  /** The pointer has reached the last slot of the lap that q lies in. */
  ghost predicate LapIsOver(n: int, ins: seq<Insertion>, q: int)
    requires SizeOk(n)
  {
    Run(n, ins).pos >= n * (q / n) + n - 1
  }

  lemma OverIsNotStanding(n: int, ins: seq<Insertion>, j: nat, q: int)
    requires SizeOk(n) && j < |ins| && LapIsOver(n, ins, q)
    ensures !Stands(n, ins, j, q)
  {
    hide Run, At, Stored, Compresses;
  }

  /**
   Exactly which bytes are hashed, in mixed runs too. Once the pointer has reached the last slot of the lap of a byte, the
   byte was hashed while it stood there if and only if it is not lost: a slot directly behind which a word follows, and
   which does not trigger the compression itself.
   */
  lemma HashedExactly(n: int, ins: seq<Insertion>, j: nat, q: int)
    requires SizeOk(n) && j < |ins| && Masked8(ins[j]) && Stores(ins[j], PosBefore(n, ins, j), q)
    ensures LapIsOver(n, ins, q) ==> (Hashed(n, ins, j, q) <==> !Lost(n, ins, j, q))
  {
    hide At, Compresses, Run, Stands, LapIsOver;
    if Lost(n, ins, j, q) {
      NoOwnSnapshot(n, ins, j);
      hide Stored, SizeOk;
    } else if LapIsOver(n, ins, q) {
      ByteIsKept(n, ins, j, q);
      OverIsNotStanding(n, ins, j, q);
    }
  }

  /** In particular nothing is lost where no word follows a slot directly, as in runs of slots only or of words only. */
  lemma OverwrittenByteWasHashed(n: int, ins: seq<Insertion>, j: nat, q: int)
    requires SizeOk(n) && j < |ins| && Masked8(ins[j]) && Stores(ins[j], PosBefore(n, ins, j), q)
    requires forall k :: 0 <= k < |ins| ==> !GoneOver(ins, k)
    ensures LapIsOver(n, ins, q) ==> Hashed(n, ins, j, q)
  {
    hide Run, Hashed, Stores, LapIsOver;
    HashedExactly(n, ins, j, q);
  }

  // ---------------------------------------------------------------------------------------------
  // How long a slot waits for the hash
  // ---------------------------------------------------------------------------------------------

  /** A fully seeded LRNG compresses at the last slot of the array only, before that at every 32nd slot too. */
  lemma CompressesExactly(n: int, at: nat)
    requires at < n
    ensures Compresses(n, at, true) <==> at == n - 1
    ensures Compresses(n, at, false) <==> at == n - 1 || exists m: nat :: at == 32 * m
  {
    if at % 32 == 0 {
      assert at == 32 * (at / 32);
    }
  }

  /** Of 32 slots in turn one compresses. */
  lemma OneOf32(n: int, p: nat) returns (q: nat)
    requires SizeOk(n)
    ensures p < q <= p + 32 && Compresses(n, q % n, false)
  {
    SizeBound(n);
    hide SizeOk;
    var at := p % n;
    assert p == n * (p / n) + at;
    var next := NextMultiple(at);
    if at == n - 1 {
      q := p + 1;
      NextSlot(n, p);
    } else if next < n {
      q := p + (next - at);
      RemainderOf(n, p / n, next);
    } else {
      q := p + (n - 1 - at);
      RemainderOf(n, p / n, n - 1);
    }
  }

  lemma NextMultiple(at: nat) returns (next: nat)
    ensures at < next <= at + 32 && next % 32 == 0
  {
    next := 32 * (at / 32 + 1);
  }

  lemma {:induction false} SlotsGoOn(n: int, ins: seq<Insertion>, slots: seq<Insertion>)
    requires SizeOk(n) && forall i :: 0 <= i < |slots| ==> slots[i].Slot?
    ensures Run(n, ins + slots).pos == Run(n, ins).pos + |slots|
    ensures |Run(n, ins + slots).hashed| >= |Run(n, ins).hashed|
    decreases |slots|
  {
    hide Run, After, SizeOk;
    if slots == [] {
      assert ins + slots == ins;
    } else {
      var k := |slots| - 1;
      assert ins + slots == ins + slots[..k] + [slots[k]];
      SlotsGoOn(n, ins, slots[..k]);
      RunExtends(n, ins + slots[..k], slots[k]);
      HashedGrows(n, Run(n, ins + slots[..k]), slots[k]);
      AfterSlotIs(n, Run(n, ins + slots[..k]), slots[k].data, slots[k].fullySeeded);
    }
  }

  /** Whatever was inserted before: of an LRNG that is not fully seeded, 32 slots in turn make a new snapshot. */
  lemma BootSlotsAreHashedSoon(n: int, ins: seq<Insertion>, slots: seq<Insertion>)
    requires SizeOk(n) && |slots| == 32 && forall i :: 0 <= i < |slots| ==> slots[i].Slot? && !slots[i].fullySeeded
    ensures |Run(n, ins + slots).hashed| > |Run(n, ins).hashed|
  {
    hide Run, After, SizeOk, Compresses;
    var p := Run(n, ins).pos;
    var q := OneOf32(n, p);
    var k := q - p - 1;
    var before, slot := ins + slots[..k], slots[k];
    SlotsGoOn(n, ins, slots[..k]);
    RunExtends(n, before, slot);
    AfterSlotIs(n, Run(n, before), slot.data, slot.fullySeeded);
    assert Run(n, before).pos + 1 == q;
    SlotsGoOn(n, before + [slot], slots[k + 1..]);
    assert before + [slot] + slots[k + 1..] == ins + slots;
  }

  // ---------------------------------------------------------------------------------------------
  // A word directly behind a slot
  // ---------------------------------------------------------------------------------------------

  /**
   Whatever was inserted before: when a word follows a slot, the byte of the slot is hashed before it is overwritten if
   and only if the slot itself triggers the compression. The word goes over the byte with its first write, so the byte
   is in no later snapshot, and not in the array.
   */
  lemma SlotBeforeWordExactly(n: int, before: seq<Insertion>, slot: Insertion, word: Insertion)
    requires SizeOk(n) && slot.Slot? && Low8(slot.data) == slot.data && word.Word?
    ensures var s := Run(n, before);
      var s1 := After(n, s, slot);
      var p := s.pos + 1;
      Ok(n, s1) && Ok(n, After(n, s1, word))
      && (Hashed(n, before + [slot], |before|, p) <==> Compresses(n, p % n, slot.fullySeeded))
    ensures var s := Run(n, before);
      var s1 := After(n, s, slot);
      var s2, p := After(n, s1, word), s.pos + 1;
      && s1.hashed <= s2.hashed && At(s2.words, n, p) == Byte(word.data, p % SLOTS)
      && forall h :: |s1.hashed| <= h < |s2.hashed| ==>
        |s2.hashed[h].words| == n / SLOTS && At(s2.hashed[h].words, n, p) == Byte(word.data, p % SLOTS)
  {
    hide Hashed, After, At, Run, SizeOk, WithSlot, Compresses, Byte, Low8, Ok;
    var s := Run(n, before);
    AfterIsOk(n, s, slot);
    OkLength(n, s);
    OkLength(n, After(n, s, slot));
    AfterIsOk(n, After(n, s, slot), word);
    OwnSnapshot(n, before, slot);
    AfterSlotIs(n, s, slot.data, slot.fullySeeded);
    WordGoesOver(n, After(n, s, slot), word);
  }

  lemma OkLength(n: int, s: State)
    requires Ok(n, s)
    ensures |s.words| == n / SLOTS
  {
  }

  lemma OwnSnapshot(n: int, before: seq<Insertion>, slot: Insertion)
    requires SizeOk(n) && slot.Slot? && Low8(slot.data) == slot.data
    ensures var p := Run(n, before).pos + 1;
      Hashed(n, before + [slot], |before|, p) <==> Compresses(n, p % n, slot.fullySeeded)
  {
    hide Run, At, After, Compresses, Stands, Hashed, Stored;
    var ins, p := before + [slot], Run(n, before).pos + 1;
    assert ins[..|before|] == before;
    if Compresses(n, p % n, slot.fullySeeded) {
      NewSlotIsKept(n, before, slot, p);
    } else {
      NoOwnSnapshot(n, ins, |before|);
      LastIsOwn(n, ins, p);
    }
  }

  /** A snapshot taken since the last insertion is its own. */
  lemma LastIsOwn(n: int, ins: seq<Insertion>, q: int)
    requires SizeOk(n) && ins != []
    requires Misses(Run(n, ins).hashed, |ins|)
    ensures !Hashed(n, ins, |ins| - 1, q)
  {
    hide Run, At, Stored, SizeOk;
  }

  lemma WordGoesOver(n: int, s: State, word: Insertion)
    requires Ok(n, s) && Ok(n, After(n, s, word)) && word.Word?
    ensures var s2 := After(n, s, word);
      && s.hashed <= s2.hashed && At(s2.words, n, s.pos) == Byte(word.data, s.pos % SLOTS)
      && forall h :: |s.hashed| <= h < |s2.hashed| ==>
        |s2.hashed[h].words| == n / SLOTS && At(s2.hashed[h].words, n, s.pos) == Byte(word.data, s.pos % SLOTS)
  {
    WordAtEach(s.words, n, s.pos, word.data, s.pos);
    HighAt(s.words, n, s.pos, word.data);
    hide At, WithHigh, WithWord, SizeOk, Byte;
  }

  lemma HighAt(words: seq<bv32>, n: int, p: int, data: bv32)
    requires SizeOk(n) && |words| == n / SLOTS
    ensures At(WithHigh(words, n, p, data), n, p) == Byte(data, p % SLOTS)
  {
    hide Byte, PutHigh, Mask, WordAt;
    PutHighBytes(words[WordAt(n, p)], p % SLOTS, data, p % SLOTS);
  }

  /** A losing input, for every array size: the first slot of a fully seeded LRNG and a word behind it. */
  lemma ByteIsLost(n: int)
    requires SizeOk(n)
    ensures var s := Run(n, [Slot(0xab, true), Word(0, true)]);
      s.hashed == [] && At(s.words, n, 1) == 0
  {
    var slot, word := Slot(0xab, true), Word(0, true);
    assert [slot, word][..1] == [slot] && [slot][..0] == [];
    assert Run(n, [slot]) == After(n, Run(n, []), slot);
    assert Run(n, [slot, word]) == After(n, Run(n, [slot]), word);
    SmallPositions(n);
    WordGoesOver(n, Run(n, [slot]), word);
  }

  lemma SmallPositions(n: int)
    requires SizeOk(n)
    ensures 1 % n == 1 && 5 % n == 5 && !Compresses(n, 1, true) && !Compresses(n, 5, true)
  {
  }

  class Array {
    const n: int
    const words: array<bv32>
    var ptr: u32
    ghost var pos: nat
    ghost var hashed: seq<Snapshot>
    ghost var count: nat

    ghost function View(): State
      reads this, words
    {
      State(words[..], pos, hashed, count)
    }

    ghost predicate Valid()
      reads this, words
    {
      SizeOk(n) && words.Length == n / SLOTS && Ok(n, View()) && ptr == Wrap(pos)
    }

    constructor (n: int)
      requires SizeOk(n)
      ensures Valid() && View() == Empty(n) && this.n == n && fresh(words)
    {
      this.n := n;
      words := new bv32[n / SLOTS](i => 0);
      ptr, pos, hashed, count := 0, 0, [], 0;
      new;
      assert words[..] == Empty(n).words;
    }

    /** lrng_irq_array_to_hash */
    method Hash(at: int, fullySeeded: bool, ghost lap: int)
      modifies this`hashed
      ensures View() == ToHash(n, old(View()), at, lap, fullySeeded)
    {
      if !fullySeeded {
        if at % 32 != 0 && at < n - 1 {
          return;
        }
      } else if at < n - 1 {
        return;
      }
      hashed := hashed + [Snapshot(words[..], count, lap)];
    }

    /** Zeroise the slot of a masked pointer and store the byte there. */
    method StoreSlot(at: int, data: bv32, ghost p: nat)
      requires SizeOk(n) && words.Length == n / SLOTS && Low8(data) == data
      requires at / SLOTS == WordAt(n, p) && at % SLOTS == p % SLOTS
      modifies words
      ensures words[..] == WithSlot(old(words[..]), n, p, data)
    {
      hide WordAt, PutSlot, SlotVal, Or, Zeroise, Low8;
      var i, s := at / SLOTS, at % SLOTS;
      PutSlotIs(words[i], s, data);
      words[i] := Zeroise(words[i], s);
      words[i] := Or(words[i], SlotVal(data, s));
      assert words[..] == old(words[..])[i := Or(Zeroise(old(words[i]), s), SlotVal(data, s))];
    }

    /** Zeroise the upper slots of the previous unit and store the upper bytes of the data there. */
    method StoreHigh(pre: int, mask: bv32, data: bv32, ghost p: nat)
      requires SizeOk(n) && words.Length == n / SLOTS
      requires pre / SLOTS == WordAt(n, p) && mask == Mask(p % SLOTS)
      modifies words
      ensures words[..] == WithHigh(old(words[..]), n, p, data)
    {
      hide WordAt, PutHigh, Or, ZeroiseHigh, High, Mask;
      var i := pre / SLOTS;
      PutHighIs(words[i], mask, data);
      words[i] := ZeroiseHigh(words[i], mask);
      words[i] := Or(words[i], High(data, mask));
      assert words[..] == old(words[..])[i := Or(ZeroiseHigh(old(words[i]), mask), High(data, mask))];
    }

    /** The lower bytes of the data are all that the current unit holds. */
    method StoreLow(at: int, mask: bv32, data: bv32, ghost before: seq<bv32>, ghost p: nat)
      requires SizeOk(n) && words.Length == n / SLOTS == |before| && words[..] == WithHigh(before, n, p, data)
      requires at / SLOTS == WordAt(n, p + SLOTS) && mask == Mask(p % SLOTS)
      modifies words
      ensures words[..] == WithWord(before, n, p, data)
    {
      hide WordAt, PutHigh, Low, Mask, WithHigh, WithWord;
      words[at / SLOTS] := Low(data, mask);
      assert words[..] == WithHigh(before, n, p, data)[at / SLOTS := Low(data, mask)];
      WordIsTwoWrites(before, n, p, data);
    }

    /** lrng_irq_array_add_slot: the caller masks the data. */
    method AddSlot(data: bv32, fullySeeded: bool)
      requires Valid() && Low8(data) == data
      modifies this, words
      ensures Valid() && View() == After(n, old(View()), Slot(data, fullySeeded))
    {
      AfterIsOk(n, View(), Slot(data, fullySeeded));
      hide Ok, WordAt, Wrap, Add, Low8, SizeOk, Masked, Compresses, WithSlot;
      ghost var p := pos + 1;
      NextPointer(pos, 1);
      ptr, pos, count := Add(ptr, 1), pos + 1, count + 1;
      SlotAddress(n, p, ptr);
      MaskedIs(n, p, ptr);
      var at := Masked(ptr, n);
      StoreSlot(at, data, p);
      Hash(at, fullySeeded, p / n);
    }

    /** _lrng_irq_array_add_u32 */
    method AddU32(data: bv32, fullySeeded: bool)
      requires Valid()
      modifies this, words
      ensures Valid() && View() == After(n, old(View()), Word(data, fullySeeded))
    {
      AfterIsOk(n, View(), Word(data, fullySeeded));
      hide Ok, WordAt, Wrap, Add, Sub, Mask, SizeOk, Masked, Compresses, WithHigh, WithWord, ToHash, After, AfterWord;
      ghost var p, before := pos, words[..];
      NextPointer(p, SLOTS);
      ptr, pos, count := Add(ptr, SLOTS), pos + SLOTS, count + 1;
      PreviousUnit(n, p);
      SlotAddress(n, p, Sub(ptr, SLOTS));
      SlotAddress(n, p + SLOTS, ptr);
      MaskedIs(n, p, Sub(ptr, SLOTS));
      MaskedIs(n, p + SLOTS, ptr);
      var pre, at := Masked(Sub(ptr, SLOTS), n), Masked(ptr, n);
      var mask := Mask(pre % SLOTS);
      StoreHigh(pre, mask, data, p);
      ghost var high := View();
      if pre > at {
        Hash(n - 1, fullySeeded, p / n);
      }
      ghost var first := View();
      StoreLow(at, mask, data, before, p);
      ghost var whole := View();
      if pre <= at {
        Hash(at, fullySeeded, (p + SLOTS) / n);
      }
      WordIsSteps(n, old(View()), data, fullySeeded, high, first, whole, View());
    }
  }

  /** The steps of inserting a word, one after the other. */
  lemma WordIsSteps(n: int, s: State, data: bv32, fullySeeded: bool, high: State, first: State, whole: State, last: State)
    requires SizeOk(n) && |s.words| == n / SLOTS
    ensures
      && high == State(WithHigh(s.words, n, s.pos, data), s.pos + SLOTS, s.hashed, s.count + 1)
      && (first == if s.pos % n > (s.pos + SLOTS) % n then ToHash(n, high, n - 1, s.pos / n, fullySeeded) else high)
      && whole == first.(words := WithWord(s.words, n, s.pos, data))
      && (last == if s.pos % n > (s.pos + SLOTS) % n then whole
                  else ToHash(n, whole, (s.pos + SLOTS) % n, (s.pos + SLOTS) / n, fullySeeded))
      ==> last == After(n, s, Word(data, fullySeeded))
  {
    hide WithHigh, WithWord, ToHash, SizeOk;
  }

  lemma WordIsTwoWrites(words: seq<bv32>, n: int, p: nat, data: bv32)
    requires SizeOk(n) && |words| == n / SLOTS
    ensures WithWord(words, n, p, data) == WithHigh(words, n, p, data)[WordAt(n, p + SLOTS) := Low(data, Mask(p % SLOTS))]
  {
    hide PutHigh, Low, Mask, WordAt;
  }

  lemma MaskedIs(n: int, p: nat, ptr: u32)
    requires SizeOk(n) && ptr == Wrap(p)
    ensures Masked(ptr, n) == p % n
  {
    PointerWraps(n, p);
  }
}
