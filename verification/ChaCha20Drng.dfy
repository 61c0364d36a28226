/**
 The ChaCha20 DRNG (lrng_drng_chacha20.c) over an abstract block function (section 2.3 of RFC 7539), on a
 little-endian machine: the key is a buffer of 32 bytes that is XORed with input and with keystream.
 */
module ChaCha20Drng {
  import opened Words

  /** CHACHA_KEY_SIZE, CHACHA_BLOCK_SIZE, and the same in words */
  const KEY_SIZE := 32
  const BLOCK_SIZE := 64
  const KEY_WORDS := 8
  const BLOCK_WORDS := 16

  const TWO96: int := TWO32 * TWO32 * TWO32

  datatype Nonce = Nonce(n0: u32, n1: u32, n2: u32)

  datatype State = State(key: seq<bv8>, counter: u32, nonce: Nonce)

  /** Byte i of the block for a key, a counter and a nonce. */
  type BlockFunction = (seq<bv8>, u32, Nonce, nat) -> bv8

  /** Byte i of the keystream that starts at the given state; the counter wraps at 2^32. */
  function StreamByte(f: BlockFunction, s: State, i: nat): bv8 {
    f(s.key, Wrap(s.counter + i / BLOCK_SIZE), s.nonce, i % BLOCK_SIZE)
  }

  function Keystream(f: BlockFunction, s: State, from: nat, n: nat): (r: seq<bv8>)
    ensures |r| == n
  {
    seq(n, i requires 0 <= i < n => StreamByte(f, s, from + i))
  }

  /** Deterministic increment of the nonce words with carry. */
  function Bump(n: Nonce): Nonce {
    var n0 := Add(n.n0, 1);
    if n0 != 0 then Nonce(n0, n.n1, n.n2)
    else
      var n1 := Add(n.n1, 1);
      if n1 != 0 then Nonce(n0, n1, n.n2) else Nonce(n0, n1, Add(n.n2, 1))
  }

  function NonceValue(n: Nonce): (v: nat)
    ensures v < TWO96
  {
    n.n0 + TWO32 * n.n1 + TWO32 * TWO32 * n.n2
  }

  /** XOR the bytes into the front of the key. */
  function XorInto(key: seq<bv8>, bytes: seq<bv8>): (r: seq<bv8>)
    requires |bytes| <= |key|
    ensures |r| == |key|
  {
    seq(|key|, i requires 0 <= i < |key| => if i < |bytes| then key[i] ^ bytes[i] else key[i])
  }

  /** Number of bytes before the part of the keystream that rekeys the state after n bytes of output. */
  function RekeyAt(n: nat): nat {
    var rest := n % BLOCK_SIZE;
    if rest == 0 then n
    else if rest <= KEY_SIZE then n - rest + (rest + 3) / 4 * 4
    else n - rest + BLOCK_SIZE
  }

  /** Number of blocks made for n bytes of output and the rekeying. */
  function BlocksFor(n: nat): nat {
    (RekeyAt(n) + KEY_SIZE + BLOCK_SIZE - 1) / BLOCK_SIZE
  }

  /** The state after n bytes were generated. */
  function AfterGenerate(f: BlockFunction, s: State, n: nat): (r: State)
    requires |s.key| == KEY_SIZE
    ensures |r.key| == KEY_SIZE
  {
    State(XorInto(s.key, Keystream(f, s, RekeyAt(n), KEY_SIZE)), Wrap(s.counter + BlocksFor(n)), Bump(s.nonce))
  }

  /** The state after one chunk of seed data. */
  function AfterChunk(f: BlockFunction, s: State, chunk: seq<bv8>): (r: State)
    requires |s.key| == KEY_SIZE && |chunk| <= KEY_SIZE
    ensures |r.key| == KEY_SIZE
  {
    AfterGenerate(f, s.(key := XorInto(s.key, chunk)), 0)
  }

  function AfterSeed(f: BlockFunction, s: State, data: seq<bv8>): (r: State)
    requires |s.key| == KEY_SIZE
    ensures |r.key| == KEY_SIZE
    decreases |data|
  {
    if data == [] then s
    else
      var todo := Min(|data|, KEY_SIZE);
      AfterSeed(f, AfterChunk(f, s, data[..todo]), data[todo..])
  }

  class Drng {
    const f: BlockFunction
    const key: array<bv8>
    var counter: u32
    var nonce: Nonce
    /** Counter and nonce of every block made so far. */
    ghost var calls: seq<(u32, Nonce)>

    predicate Ok() {
      key.Length == KEY_SIZE
    }

    function View(): State
      requires Ok()
      reads this, key
    {
      State(key[..], counter, nonce)
    }

    /** The allocated memory is not initialised, apart from the constants of the block function. */
    constructor (f: BlockFunction, key: seq<bv8>, counter: u32, nonce: Nonce)
      requires |key| == KEY_SIZE
      ensures Ok() && View() == State(key, counter, nonce) && calls == [] && this.f == f
      ensures fresh(this.key)
    {
      this.f := f;
      this.key := new bv8[KEY_SIZE](i requires 0 <= i < KEY_SIZE => key[i]);
      this.counter := counter;
      this.nonce := nonce;
      calls := [];
      new;
      assert this.key[..] == key;
    }

    /** chacha20_block */
    method Block() returns (out: seq<bv8>)
      requires Ok()
      modifies this
      ensures out == Keystream(f, old(View()), 0, BLOCK_SIZE)
      ensures View() == old(View()).(counter := Add(old(counter), 1))
      ensures calls == old(calls) + [(old(counter), old(nonce))]
    {
      var k, c, n := key[..], counter, nonce;
      out := seq(BLOCK_SIZE, i requires 0 <= i < BLOCK_SIZE => f(k, c, n, i));
      calls := calls + [(c, n)];
      counter := Add(counter, 1);
    }

    method XorKey(bytes: seq<bv8>)
      requires Ok() && |bytes| <= KEY_SIZE
      modifies key
      ensures key[..] == XorInto(old(key[..]), bytes)
    {
      for i := 0 to |bytes|
        invariant key[..] == XorInto(old(key[..]), bytes[..i])
      {
        key[i] := key[i] ^ bytes[i];
      }
      assert bytes[..|bytes|] == bytes;
    }

    method BumpNonce()
      modifies this`nonce
      ensures nonce == Bump(old(nonce))
    {
      nonce := nonce.(n0 := Add(nonce.n0, 1));
      if nonce.n0 == 0 {
        nonce := nonce.(n1 := Add(nonce.n1, 1));
        if nonce.n1 == 0 {
          nonce := nonce.(n2 := Add(nonce.n2, 1));
        }
      }
    }

    /** lrng_chacha20_update: rekey from the unused words of a block, or from a block made for it. */
    method Update(buf: seq<bv8>, usedWords: nat)
      requires Ok() && (usedWords <= KEY_WORDS ==> |buf| == BLOCK_SIZE)
      modifies this, key
      ensures usedWords <= KEY_WORDS ==>
        && View() == State(XorInto(old(key[..]), buf[4 * usedWords..4 * usedWords + KEY_SIZE]), old(counter), Bump(old(nonce)))
        && calls == old(calls)
      ensures usedWords > KEY_WORDS ==>
        && View() == AfterGenerate(f, old(View()), 0)
        && calls == old(calls) + [(old(counter), old(nonce))]
    {
      if usedWords > KEY_WORDS {
        var tmp := Block();
        assert tmp[..KEY_SIZE] == Keystream(f, old(View()), 0, KEY_SIZE);
        XorKey(tmp[..KEY_SIZE]);
      } else {
        XorKey(buf[4 * usedWords..4 * usedWords + KEY_SIZE]);
      }
      BumpNonce();
    }

    /** lrng_cc20_drng_seed_helper */
    method Seed(data: seq<bv8>)
      requires Ok()
      modifies this, key
      ensures View() == AfterSeed(f, old(View()), data)
      ensures calls == old(calls) + CallsOf(SeedEpochs(f, old(View()), data))
    {
      hide Keystream, EpochCalls, RekeyAt, BlocksFor, Bump, XorInto, AfterGenerate, SeedEpochs, CallsOf;
      var at := 0;
      ghost var start := View();
      while at < |data|
        invariant 0 <= at <= |data|
        invariant AfterSeed(f, View(), data[at..]) == AfterSeed(f, start, data)
        invariant calls + CallsOf(SeedEpochs(f, View(), data[at..])) == old(calls) + CallsOf(SeedEpochs(f, start, data))
      {
        var todo := Min(|data| - at, KEY_SIZE);
        ghost var before, made := View(), calls;
        XorKey(data[at..at + todo]);
        assert View() == before.(key := XorInto(before.key, data[at..at + todo]));
        Update([], BLOCK_WORDS);
        assert data[at..][..todo] == data[at..at + todo];
        assert data[at..][todo..] == data[at + todo..];
        SeedCallsStep(f, before, data[at..], made, calls);
        at := at + todo;
      }
      assert data[at..] == [];
      NoSeedNoCalls(f, View());
    }

    /** Make the next block and copy its first n bytes out. */
    method NextOutput(outbuf: array<bv8>, at: nat, n: nat, ghost start: State, ghost blocks: nat) returns (block: seq<bv8>)
      requires Ok() && outbuf != key && n <= BLOCK_SIZE && at + n <= outbuf.Length && at == BLOCK_SIZE * blocks
      requires View() == start.(counter := Wrap(start.counter + blocks))
      requires outbuf[..at] == Keystream(f, start, 0, at)
      modifies this, outbuf
      ensures View() == start.(counter := Wrap(start.counter + blocks + 1))
      ensures block == Keystream(f, old(View()), 0, BLOCK_SIZE)
      ensures outbuf[..at + n] == Keystream(f, start, 0, at + n)
      ensures EpochCalls(Epoch(start.counter, blocks + 1, start.nonce))
           == EpochCalls(Epoch(start.counter, blocks, start.nonce)) + [(old(counter), start.nonce)]
      ensures calls == old(calls) + [(old(counter), start.nonce)]
    {
      hide Keystream, EpochCalls, Wrap, Add;
      block := Block();
      NextBlock(f, start, blocks, block, n);
      CopyBlock(outbuf, at, block[..n]);
    }

    /** lrng_cc20_drng_generate_helper */
    method Generate(outbuf: array<bv8>) returns (ret: nat)
      requires Ok() && outbuf.Length < TWO32 && outbuf != key
      modifies this, key, outbuf
      ensures ret == outbuf.Length
      ensures outbuf[..] == Keystream(f, old(View()), 0, outbuf.Length)
      ensures View() == AfterGenerate(f, old(View()), outbuf.Length)
      ensures calls == old(calls) + EpochCalls(Epoch(old(counter), BlocksFor(outbuf.Length), old(nonce)))
    {
      hide Keystream, EpochCalls, RekeyAt, BlocksFor, Bump, XorInto, AfterGenerate, Wrap, Add;
      ghost var start := View();
      ret := outbuf.Length;
      var left: nat, at: nat, blocks: nat := outbuf.Length, 0, 0;
      var used, buf := BLOCK_WORDS, [];
      NothingYet(f, start);
      while left >= BLOCK_SIZE
        invariant at == BLOCK_SIZE * blocks && at + left == outbuf.Length
        invariant View() == start.(counter := Wrap(start.counter + blocks))
        invariant outbuf[..at] == Keystream(f, start, 0, at)
        invariant calls == old(calls) + EpochCalls(Epoch(start.counter, blocks, start.nonce))
      {
        buf := NextOutput(outbuf, at, BLOCK_SIZE, start, blocks);
        at, left, blocks := at + BLOCK_SIZE, left - BLOCK_SIZE, blocks + 1;
      }
      if left > 0 {
        buf := NextOutput(outbuf, at, left, start, blocks);
        used := (left + 3) / 4;
        blocks := blocks + 1;
      }
      assert outbuf[..] == outbuf[..outbuf.Length];
      RekeyPosition(outbuf.Length, left);
      if used > KEY_WORDS {
        FreshRekey(f, start, outbuf.Length, blocks);
      } else {
        BufferRekey(f, start, outbuf.Length, blocks - 1, buf, 4 * used);
      }
      Update(buf, used);
    }
  }

  /** Copy bytes to a position of the output buffer; what was before them stays. */
  method CopyBlock(outbuf: array<bv8>, at: nat, bytes: seq<bv8>)
    requires at + |bytes| <= outbuf.Length
    modifies outbuf
    ensures outbuf[..at + |bytes|] == old(outbuf[..at]) + bytes
  {
    for i := 0 to |bytes|
      invariant outbuf[..at + i] == old(outbuf[..at]) + bytes[..i]
    {
      outbuf[at + i] := bytes[i];
      assert outbuf[..at + i + 1] == outbuf[..at + i] + [bytes[i]];
    }
    assert bytes[..|bytes|] == bytes;
  }

  // ---------------------------------------------------------------------------------------------
  // Which blocks are made
  // ---------------------------------------------------------------------------------------------

  /** The blocks made between two updates of the nonce: consecutive counters under one nonce. */
  datatype Epoch = Epoch(counter: u32, blocks: nat, nonce: Nonce)

  function EpochCalls(e: Epoch): (r: seq<(u32, Nonce)>)
    ensures |r| == e.blocks
  {
    seq(e.blocks, k requires 0 <= k < e.blocks => (Wrap(e.counter + k), e.nonce))
  }

  function CallsOf(epochs: seq<Epoch>): seq<(u32, Nonce)> {
    if epochs == [] then [] else EpochCalls(epochs[0]) + CallsOf(epochs[1..])
  }

  function SeedEpochs(f: BlockFunction, s: State, data: seq<bv8>): seq<Epoch>
    requires |s.key| == KEY_SIZE
    decreases |data|
  {
    if data == [] then []
    else
      var todo := Min(|data|, KEY_SIZE);
      [Epoch(s.counter, 1, s.nonce)] + SeedEpochs(f, AfterChunk(f, s, data[..todo]), data[todo..])
  }

  // ---------------------------------------------------------------------------------------------
  // Keystream and block arithmetic
  // ---------------------------------------------------------------------------------------------

  /** The block made after k blocks is the k-th block of the keystream. */
  lemma StreamShift(f: BlockFunction, s: State, k: nat, from: nat, n: nat)
    ensures Keystream(f, s.(counter := Wrap(s.counter + k)), from, n) == Keystream(f, s, BLOCK_SIZE * k + from, n)
  {
    var a, b := Keystream(f, s.(counter := Wrap(s.counter + k)), from, n), Keystream(f, s, BLOCK_SIZE * k + from, n);
    forall i | 0 <= i < n
      ensures a[i] == b[i]
    {
      ByteShift(f, s, k, from + i);
    }
  }

  lemma ByteShift(f: BlockFunction, s: State, k: nat, j: nat)
    ensures StreamByte(f, s.(counter := Wrap(s.counter + k)), j) == StreamByte(f, s, BLOCK_SIZE * k + j)
  {
    assert (BLOCK_SIZE * k + j) / BLOCK_SIZE == k + j / BLOCK_SIZE && (BLOCK_SIZE * k + j) % BLOCK_SIZE == j % BLOCK_SIZE;
    WrapOfWrap(s.counter + k, j / BLOCK_SIZE);
  }

  lemma StreamConcat(f: BlockFunction, s: State, from: nat, m: nat, n: nat)
    ensures Keystream(f, s, from, m) + Keystream(f, s, from + m, n) == Keystream(f, s, from, m + n)
  {
  }

  lemma NothingYet(f: BlockFunction, s: State)
    ensures Wrap(s.counter + 0) == s.counter && Keystream(f, s, 0, 0) == [] && EpochCalls(Epoch(s.counter, 0, s.nonce)) == []
  {
  }

  /** What one more block contributes: output, counter and call. */
  lemma NextBlock(f: BlockFunction, s: State, k: nat, block: seq<bv8>, n: nat)
    requires n <= BLOCK_SIZE
    requires block == Keystream(f, s.(counter := Wrap(s.counter + k)), 0, BLOCK_SIZE)
    ensures Keystream(f, s, 0, BLOCK_SIZE * k) + block[..n] == Keystream(f, s, 0, BLOCK_SIZE * k + n)
    ensures Add(Wrap(s.counter + k), 1) == Wrap(s.counter + k + 1)
    ensures EpochCalls(Epoch(s.counter, k, s.nonce)) + [(Wrap(s.counter + k), s.nonce)]
         == EpochCalls(Epoch(s.counter, k + 1, s.nonce))
  {
    StreamShift(f, s, k, 0, n);
    assert block[..n] == Keystream(f, s.(counter := Wrap(s.counter + k)), 0, n);
    StreamConcat(f, s, 0, BLOCK_SIZE * k, n);
    WrapOfWrap(s.counter + k, 1);
  }

  /** Where the rekeying takes its bytes, in the terms of the code. */
  lemma RekeyPosition(n: nat, left: nat)
    requires left == n % BLOCK_SIZE
    ensures RekeyAt(0) == 0 && BlocksFor(0) == 1
    ensures 0 < (left + 3) / 4 <= KEY_WORDS ==> RekeyAt(n) == n - left + (left + 3) / 4 * 4 && BlocksFor(n) == n / BLOCK_SIZE + 1
    ensures left == 0 ==> RekeyAt(n) == n && BlocksFor(n) == n / BLOCK_SIZE + 1
    ensures (left + 3) / 4 > KEY_WORDS ==> RekeyAt(n) == n - left + BLOCK_SIZE && BlocksFor(n) == n / BLOCK_SIZE + 2
  {
  }

  lemma FreshRekey(f: BlockFunction, s: State, n: nat, k: nat)
    requires |s.key| == KEY_SIZE && RekeyAt(n) == BLOCK_SIZE * k && BlocksFor(n) == k + 1
    ensures var s' := s.(counter := Wrap(s.counter + k));
      && AfterGenerate(f, s', 0) == AfterGenerate(f, s, n)
      && EpochCalls(Epoch(s.counter, k, s.nonce)) + [(s'.counter, s.nonce)] == EpochCalls(Epoch(s.counter, k + 1, s.nonce))
  {
    StreamShift(f, s, k, 0, KEY_SIZE);
    RekeyPosition(0, 0);
    WrapOfWrap(s.counter + k, 1);
  }

  lemma BufferRekey(f: BlockFunction, s: State, n: nat, k: nat, buf: seq<bv8>, from: nat)
    requires |s.key| == KEY_SIZE && RekeyAt(n) == BLOCK_SIZE * k + from && BlocksFor(n) == k + 1
    requires from + KEY_SIZE <= BLOCK_SIZE
    requires buf == Keystream(f, s.(counter := Wrap(s.counter + k)), 0, BLOCK_SIZE)
    ensures State(XorInto(s.key, buf[from..from + KEY_SIZE]), Wrap(s.counter + BlocksFor(n)), Bump(s.nonce))
         == AfterGenerate(f, s, n)
  {
    StreamShift(f, s, k, from, KEY_SIZE);
    assert buf[from..from + KEY_SIZE] == Keystream(f, s.(counter := Wrap(s.counter + k)), from, KEY_SIZE);
  }

  lemma SeedCallsStep(f: BlockFunction, s: State, data: seq<bv8>, made: seq<(u32, Nonce)>, calls: seq<(u32, Nonce)>)
    requires |s.key| == KEY_SIZE && data != [] && calls == made + [(s.counter, s.nonce)]
    ensures var todo := Min(|data|, KEY_SIZE);
      made + CallsOf(SeedEpochs(f, s, data)) == calls + CallsOf(SeedEpochs(f, AfterChunk(f, s, data[..todo]), data[todo..]))
  {
    hide *;
    var e := Epoch(s.counter, 1, s.nonce);
    var rest := SeedRest(f, s, data);
    FirstEpoch(e, rest);
    OneCall(s.counter, s.nonce);
    Associates(made, [(s.counter, s.nonce)], CallsOf(rest));
  }

  lemma Associates<T>(a: seq<T>, b: seq<T>, c: seq<T>)
    ensures a + (b + c) == a + b + c
  {
  }

  lemma NoSeedNoCalls(f: BlockFunction, s: State)
    requires |s.key| == KEY_SIZE
    ensures CallsOf(SeedEpochs(f, s, [])) == []
  {
  }

  lemma SeedRest(f: BlockFunction, s: State, data: seq<bv8>) returns (rest: seq<Epoch>)
    requires |s.key| == KEY_SIZE && data != []
    ensures var todo := Min(|data|, KEY_SIZE);
      rest == SeedEpochs(f, AfterChunk(f, s, data[..todo]), data[todo..])
    ensures SeedEpochs(f, s, data) == [Epoch(s.counter, 1, s.nonce)] + rest
  {
    hide AfterChunk;
    var todo := Min(|data|, KEY_SIZE);
    rest := SeedEpochs(f, AfterChunk(f, s, data[..todo]), data[todo..]);
  }

  lemma FirstEpoch(e: Epoch, rest: seq<Epoch>)
    ensures CallsOf([e] + rest) == EpochCalls(e) + CallsOf(rest)
  {
    assert ([e] + rest)[1..] == rest;
  }

  lemma OneCall(counter: u32, nonce: Nonce)
    ensures EpochCalls(Epoch(counter, 1, nonce)) == [(counter, nonce)]
  {
    var calls := EpochCalls(Epoch(counter, 1, nonce));
    assert Wrap(counter + 0) == counter;
    assert calls[0] == (counter, nonce);
  }

  // ---------------------------------------------------------------------------------------------
  // Output and rekeying
  // ---------------------------------------------------------------------------------------------

  /** The rekeying bytes lie behind every returned byte, inside the last block made, which is the first that can hold them. */
  lemma RekeyIsDisjoint(n: nat)
    ensures n <= RekeyAt(n) && RekeyAt(n) % 4 == 0
    ensures BLOCK_SIZE * (BlocksFor(n) - 1) <= RekeyAt(n) <= BLOCK_SIZE * BlocksFor(n) - KEY_SIZE
    ensures RekeyAt(n) < n + 4 || n % BLOCK_SIZE > KEY_SIZE
  {
    hide RekeyAt, BlocksFor;
    var q, left := n / BLOCK_SIZE, n % BLOCK_SIZE;
    RekeyPosition(n, left);
    var w := (left + 3) / 4;
    if left == 0 {
      WordAligned(BLOCK_WORDS * q);
    } else if w <= KEY_WORDS {
      WordAligned(BLOCK_WORDS * q + w);
    } else {
      WordAligned(BLOCK_WORDS * q + BLOCK_WORDS);
    }
  }

  /** Rekeying starts at the first word boundary behind the output from which 32 bytes of the block are left. */
  lemma RekeyIsFirstFit(n: nat, at: nat)
    ensures RekeyAt(n) % 64 <= 32
    ensures n <= at < RekeyAt(n) && at % 4 == 0 ==> at % 64 > 32
  {
    var blocks, rest, x := RekeyOffset(n);
    hide RekeyAt;
    if x == BLOCK_SIZE {
      Offset(blocks + 1, 0);
    } else {
      Offset(blocks, x);
    }
    if n <= at < RekeyAt(n) && at % 4 == 0 {
      Offset(blocks, at - BLOCK_SIZE * blocks);
      assert at - BLOCK_SIZE * blocks >= rest;
    }
  }

  /** Where in the last block of the output rekeying starts; a whole block behind it stands for the next one. */
  lemma RekeyOffset(n: nat) returns (blocks: nat, rest: nat, x: nat)
    ensures n == BLOCK_SIZE * blocks + rest && RekeyAt(n) == BLOCK_SIZE * blocks + x && rest < BLOCK_SIZE
    ensures rest <= KEY_SIZE ==> rest <= x < rest + 4 && x <= KEY_SIZE && x % 4 == 0
    ensures rest > KEY_SIZE ==> x == BLOCK_SIZE
  {
    blocks, rest := n / BLOCK_SIZE, n % BLOCK_SIZE;
    var words := (rest + 3) / 4;
    x := if rest <= KEY_SIZE then 4 * words else BLOCK_SIZE;
    WordAligned(words);
  }

  lemma Offset(blocks: nat, x: nat)
    requires x < BLOCK_SIZE
    ensures (BLOCK_SIZE * blocks + x) % 64 == x && (BLOCK_SIZE * blocks + x) % 4 == x % 4
  {
    RemainderOf(64, blocks, x);
    RemainderOf(4, 16 * blocks + x / 4, x % 4);
  }

  /** Every byte of the output comes from the block that was made for its counter and nonce, under the key of the start. */
  lemma StreamIsOfCalls(f: BlockFunction, s: State, n: nat, i: nat)
    requires |s.key| == KEY_SIZE && i < n
    ensures var calls := EpochCalls(Epoch(s.counter, BlocksFor(n), s.nonce));
      i / 64 < |calls| && Keystream(f, s, 0, n)[i] == f(s.key, calls[i / 64].0, calls[i / 64].1, i % 64)
  {
    RekeyIsDisjoint(n);
  }

  lemma WordAligned(words: nat)
    ensures 4 * words % 4 == 0
  {
  }

  lemma BlocksAreBounded(n: u32)
    ensures 1 <= BlocksFor(n) <= 0x400_0001
    ensures BlocksFor(TWO32 - 1) == 0x400_0001
  {
  }

  /** Seeding in two calls is seeding once, whenever the first call ends at a key boundary. */
  lemma {:induction false} SeedingSplits(f: BlockFunction, s: State, a: seq<bv8>, b: seq<bv8>)
    requires |s.key| == KEY_SIZE && |a| % KEY_SIZE == 0
    ensures AfterSeed(f, s, a + b) == AfterSeed(f, AfterSeed(f, s, a), b)
    decreases |a|
  {
    hide AfterChunk;
    if a == [] {
      assert a + b == b;
    } else {
      assert (a + b)[..KEY_SIZE] == a[..KEY_SIZE] && (a + b)[KEY_SIZE..] == a[KEY_SIZE..] + b;
      SeedingSplits(f, AfterChunk(f, s, a[..KEY_SIZE]), a[KEY_SIZE..], b);
    }
  }

  // ---------------------------------------------------------------------------------------------
  // No block input is used twice
  // ---------------------------------------------------------------------------------------------

  datatype Op = SeedOp(data: seq<bv8>) | GenerateOp(n: u32)

  function Apply(f: BlockFunction, s: State, op: Op): (r: State)
    requires |s.key| == KEY_SIZE
    ensures |r.key| == KEY_SIZE
  {
    match op
    case SeedOp(data) => AfterSeed(f, s, data)
    case GenerateOp(n) => AfterGenerate(f, s, n)
  }

  function OpEpochs(f: BlockFunction, s: State, op: Op): seq<Epoch>
    requires |s.key| == KEY_SIZE
  {
    match op
    case SeedOp(data) => SeedEpochs(f, s, data)
    case GenerateOp(n) => [Epoch(s.counter, BlocksFor(n), s.nonce)]
  }

  /** The epochs of any sequence of seed and generate calls. */
  function RunEpochs(f: BlockFunction, s: State, ops: seq<Op>): seq<Epoch>
    requires |s.key| == KEY_SIZE
    decreases |ops|
  {
    if ops == [] then [] else OpEpochs(f, s, ops[0]) + RunEpochs(f, Apply(f, s, ops[0]), ops[1..])
  }

  lemma BumpIsIncrement(n: Nonce)
    ensures NonceValue(Bump(n)) == (NonceValue(n) + 1) % TWO96
  {
  }

  /** Epoch i has nonce start + i mod 2^96, and fewer blocks than there are counters. */
  ghost predicate Chain(e: seq<Epoch>, start: nat) {
    forall i :: 0 <= i < |e| ==> NonceValue(e[i].nonce) == (start + i) % TWO96 && e[i].blocks < TWO32
  }

  lemma NextValue(v: nat, k: nat)
    ensures (v % TWO96 + k) % TWO96 == (v + k) % TWO96
  {
  }

  lemma ChainAppend(a: seq<Epoch>, b: seq<Epoch>, v: nat)
    requires Chain(a, v) && Chain(b, (v + |a|) % TWO96)
    ensures Chain(a + b, v)
  {
    forall i | 0 <= i < |a + b|
      ensures NonceValue((a + b)[i].nonce) == (v + i) % TWO96 && (a + b)[i].blocks < TWO32
    {
      if i >= |a| {
        assert (a + b)[i] == b[i - |a|];
        NextValue(v + |a|, i - |a|);
      }
    }
  }

  lemma {:induction false} SeedChain(f: BlockFunction, s: State, data: seq<bv8>)
    requires |s.key| == KEY_SIZE
    ensures Chain(SeedEpochs(f, s, data), NonceValue(s.nonce))
    ensures NonceValue(AfterSeed(f, s, data).nonce) == (NonceValue(s.nonce) + |SeedEpochs(f, s, data)|) % TWO96
    decreases |data|
  {
    hide NonceValue, Bump, XorInto, Keystream, AfterChunk, BlocksFor, RekeyAt, Wrap;
    if data == [] {
      NextValue(NonceValue(s.nonce), 0);
    } else {
      var todo := Min(|data|, KEY_SIZE);
      var next := AfterChunk(f, s, data[..todo]);
      ChunkNonce(f, s, data[..todo]);
      SeedChain(f, next, data[todo..]);
      var rest := SeedRest(f, s, data);
      LinkFirst(Epoch(s.counter, 1, s.nonce), rest, AfterSeed(f, s, data).nonce);
    }
  }

  lemma ChunkNonce(f: BlockFunction, s: State, chunk: seq<bv8>)
    requires |s.key| == KEY_SIZE && |chunk| <= KEY_SIZE
    ensures NonceValue(AfterChunk(f, s, chunk).nonce) == (NonceValue(s.nonce) + 1) % TWO96
  {
    hide NonceValue;
    BumpIsIncrement(s.nonce);
  }

  lemma LinkFirst(e: Epoch, rest: seq<Epoch>, last: Nonce)
    requires e.blocks < TWO32 && Chain(rest, (NonceValue(e.nonce) + 1) % TWO96)
    requires NonceValue(last) == ((NonceValue(e.nonce) + 1) % TWO96 + |rest|) % TWO96
    ensures Chain([e] + rest, NonceValue(e.nonce))
    ensures NonceValue(last) == (NonceValue(e.nonce) + |[e] + rest|) % TWO96
  {
    hide NonceValue;
    NextValue(NonceValue(e.nonce), 0);
    ChainAppend([e], rest, NonceValue(e.nonce));
    NextValue(NonceValue(e.nonce) + 1, |rest|);
  }

  lemma OpChain(f: BlockFunction, s: State, op: Op)
    requires |s.key| == KEY_SIZE
    ensures Chain(OpEpochs(f, s, op), NonceValue(s.nonce))
    ensures NonceValue(Apply(f, s, op).nonce) == (NonceValue(s.nonce) + |OpEpochs(f, s, op)|) % TWO96
  {
    hide NonceValue, Bump, XorInto, Keystream, BlocksFor, SeedEpochs, AfterSeed;
    BumpIsIncrement(s.nonce);
    match op {
      case SeedOp(data) => SeedChain(f, s, data);
      case GenerateOp(n) => BlocksAreBounded(n);
    }
  }

  lemma {:induction false} RunIsChain(f: BlockFunction, s: State, ops: seq<Op>)
    requires |s.key| == KEY_SIZE
    ensures Chain(RunEpochs(f, s, ops), NonceValue(s.nonce))
    decreases |ops|
  {
    hide NonceValue, Apply, OpEpochs, Chain;
    if ops == [] {
      assert Chain([], NonceValue(s.nonce)) by { EmptyChain(NonceValue(s.nonce)); }
    } else {
      OpChain(f, s, ops[0]);
      RunIsChain(f, Apply(f, s, ops[0]), ops[1..]);
      ChainAppend(OpEpochs(f, s, ops[0]), RunEpochs(f, Apply(f, s, ops[0]), ops[1..]), NonceValue(s.nonce));
    }
  }

  lemma EmptyChain(v: nat)
    ensures Chain([], v)
  {
  }

  ghost predicate Distinct(calls: seq<(u32, Nonce)>) {
    forall i, j :: 0 <= i < j < |calls| ==> calls[i] != calls[j]
  }

  lemma EpochDistinct(e: Epoch)
    requires e.blocks <= TWO32
    ensures Distinct(EpochCalls(e))
  {
    var calls := EpochCalls(e);
    forall i, j | 0 <= i < j < |calls|
      ensures calls[i] != calls[j]
    {
      WrapDiffers(e.counter + i, e.counter + j);
    }
  }

  lemma WrapDiffers(a: int, b: int)
    requires a < b < a + TWO32
    ensures Wrap(a) != Wrap(b)
  {
  }

  /** Every call is made in some epoch, under its nonce. */
  lemma {:induction false} CallEpoch(e: seq<Epoch>, i: nat) returns (p: nat)
    requires i < |CallsOf(e)|
    ensures p < |e| && CallsOf(e)[i].1 == e[p].nonce
    decreases |e|
  {
    if i < e[0].blocks {
      p := 0;
    } else {
      p := CallEpoch(e[1..], i - e[0].blocks);
      p := p + 1;
    }
  }

  lemma SameEpoch(v: nat, i: nat, j: nat)
    requires i < j < i + TWO96
    ensures (v + i) % TWO96 != (v + j) % TWO96
  {
  }

  lemma {:induction false} ChainIsDistinct(e: seq<Epoch>, v: nat)
    requires Chain(e, v) && |e| <= TWO96
    ensures Distinct(CallsOf(e))
    decreases |e|
  {
    hide EpochCalls, NonceValue;
    if e != [] {
      var head, tail := EpochCalls(e[0]), CallsOf(e[1..]);
      EpochDistinct(e[0]);
      assert Chain(e[1..], v + 1) by {
        forall i | 0 <= i < |e[1..]|
          ensures NonceValue(e[1..][i].nonce) == (v + 1 + i) % TWO96
        {
          assert e[1..][i] == e[i + 1];
        }
      }
      ChainIsDistinct(e[1..], v + 1);
      forall i, j | 0 <= i < |head| && 0 <= j < |tail|
        ensures head[i] != tail[j]
      {
        HeadIsNew(e, v, i, j);
      }
      assert CallsOf(e) == head + tail;
    }
  }

  lemma HeadIsNew(e: seq<Epoch>, v: nat, i: nat, j: nat)
    requires Chain(e, v) && 0 < |e| <= TWO96
    requires i < |EpochCalls(e[0])| && j < |CallsOf(e[1..])|
    ensures EpochCalls(e[0])[i] != CallsOf(e[1..])[j]
  {
    hide NonceValue;
    var p := CallEpoch(e[1..], j);
    assert e[1..][p] == e[p + 1];
    SameEpoch(v, 0, p + 1);
  }

  /**
   In any run of seed and generate calls with at most 2^96 updates of the nonce, no two block calls use the same
   counter and nonce.
   */
  lemma NoBlockInputRepeats(f: BlockFunction, s: State, ops: seq<Op>)
    requires |s.key| == KEY_SIZE && |RunEpochs(f, s, ops)| <= TWO96
    ensures Distinct(CallsOf(RunEpochs(f, s, ops)))
  {
    RunIsChain(f, s, ops);
    ChainIsDistinct(RunEpochs(f, s, ops), NonceValue(s.nonce));
  }

  // ---------------------------------------------------------------------------------------------
  // Neither the old key nor the seed data is lost
  // ---------------------------------------------------------------------------------------------

  lemma XorCancels(a: bv8, b: bv8)
    ensures a ^ b ^ b == a && a ^ b == b ^ a && a ^ 0 == a
  {
  }

  lemma XorAssociates(a: bv8, b: bv8, c: bv8)
    ensures a ^ b ^ c == a ^ (b ^ c)
  {
  }

  /** XORing the same bytes in twice restores the key; zeros change nothing. */
  lemma XorTwiceRestores(key: seq<bv8>, bytes: seq<bv8>)
    requires |bytes| <= |key|
    ensures XorInto(XorInto(key, bytes), bytes) == key
    ensures (forall i | 0 <= i < |bytes| :: bytes[i] == 0) ==> XorInto(key, bytes) == key
    ensures XorInto(key, bytes)[|bytes|..] == key[|bytes|..]
  {
    forall i | 0 <= i < |bytes|
      ensures key[i] ^ bytes[i] ^ bytes[i] == key[i] && key[i] ^ 0 == key[i]
    {
      XorCancels(key[i], bytes[i]);
    }
  }

  /** XORing one input after the other is XORing in both at once, in either order. */
  lemma XorIsOneInput(key: seq<bv8>, a: seq<bv8>, b: seq<bv8>)
    requires |b| <= |a| <= |key|
    ensures XorInto(XorInto(key, a), b) == XorInto(key, XorInto(a, b))
    ensures XorInto(XorInto(key, a), b) == XorInto(XorInto(key, b), a)
  {
    forall i | 0 <= i < |b|
      ensures key[i] ^ a[i] ^ b[i] == key[i] ^ (a[i] ^ b[i])
      ensures key[i] ^ a[i] ^ b[i] == key[i] ^ b[i] ^ a[i]
    {
      XorAssociates(key[i], a[i], b[i]);
      XorAssociates(key[i], b[i], a[i]);
      XorCancels(a[i], b[i]);
    }
  }

  lemma XorKeepsApart(a: seq<bv8>, b: seq<bv8>, x: seq<bv8>, y: seq<bv8>)
    requires |x| == |y| <= |a| == |b|
    ensures a != b && x == y ==> XorInto(a, x) != XorInto(b, y)
    ensures a == b && x != y ==> XorInto(a, x) != XorInto(b, y)
  {
    hide XorInto;
    XorTwiceRestores(a, x);
    XorTwiceRestores(b, y);
    if a == b && x != y && XorInto(a, x) == XorInto(b, y) {
      InputIsRecovered(a, x);
      InputIsRecovered(a, y);
    }
  }

  lemma InputIsRecovered(key: seq<bv8>, bytes: seq<bv8>)
    requires |bytes| <= |key|
    ensures XorInto(XorInto(key, bytes)[..|bytes|], key[..|bytes|]) == bytes
  {
    forall i | 0 <= i < |bytes|
      ensures key[i] ^ bytes[i] ^ key[i] == bytes[i]
    {
      XorCancels(key[i], bytes[i]);
      XorCancels(bytes[i], key[i]);
    }
  }

  /** The state whose block rekeys it after a chunk of seed data. */
  function Absorbed(s: State, chunk: seq<bv8>): (r: State)
    requires |s.key| == KEY_SIZE && |chunk| <= KEY_SIZE
    ensures |r.key| == KEY_SIZE
  {
    s.(key := XorInto(s.key, chunk))
  }

  /**
   Seeding with one chunk loses neither side: the chunk reaches the rekeying block through a key that differs for
   different old keys and the same chunk, and for different chunks of one length and the same old key.
   */
  lemma ChunkLosesNeitherSide(f: BlockFunction, s: State, t: State, x: seq<bv8>, y: seq<bv8>)
    requires |s.key| == |t.key| == KEY_SIZE && 0 < |x| == |y| <= KEY_SIZE
    ensures AfterSeed(f, s, x) == AfterGenerate(f, Absorbed(s, x), 0)
    ensures s.key != t.key && x == y ==> Absorbed(s, x).key != Absorbed(t, y).key
    ensures s.key == t.key && x != y ==> Absorbed(s, x).key != Absorbed(t, y).key
    ensures Absorbed(Absorbed(s, x), x) == s
  {
    assert x[..|x|] == x && x[|x|..] == [];
    assert AfterSeed(f, s, x) == AfterSeed(f, AfterChunk(f, s, x), []);
    XorKeepsApart(s.key, t.key, x, y);
    XorTwiceRestores(s.key, x);
  }

  /** Rekeying after output loses nothing either: who knows the keystream gets the old key back. */
  lemma RekeyingIsReversible(f: BlockFunction, s: State, n: nat)
    requires |s.key| == KEY_SIZE
    ensures XorInto(AfterGenerate(f, s, n).key, Keystream(f, s, RekeyAt(n), KEY_SIZE)) == s.key
  {
    hide XorInto, Keystream, RekeyAt;
    XorTwiceRestores(s.key, Keystream(f, s, RekeyAt(n), KEY_SIZE));
  }

  /** Two states with different keys that rekeying makes equal. */
  predicate Collide(f: BlockFunction, a: State, b: State) {
    |a.key| == |b.key| == KEY_SIZE && a.key != b.key && AfterGenerate(f, a, 0) == AfterGenerate(f, b, 0)
  }

  /**
   Seed data of any length makes two different keys equal only if it finds a collision of the rekeying: the entropy of
   earlier seedings is never overwritten.
   */
  lemma {:induction false} SeedingKeepsKeysApart(f: BlockFunction, s: State, t: State, data: seq<bv8>)
    requires |s.key| == |t.key| == KEY_SIZE && s.key != t.key && s.counter == t.counter && s.nonce == t.nonce
    requires AfterSeed(f, s, data) == AfterSeed(f, t, data)
    ensures exists a: State, b: State :: Collide(f, a, b)
    decreases |data|
  {
    hide XorInto, Keystream, RekeyAt, BlocksFor, Bump;
    if data != [] {
      var todo := Min(|data|, KEY_SIZE);
      var a, b := Absorbed(s, data[..todo]), Absorbed(t, data[..todo]);
      XorKeepsApart(s.key, t.key, data[..todo], data[..todo]);
      if AfterGenerate(f, a, 0) == AfterGenerate(f, b, 0) {
        assert Collide(f, a, b);
      } else {
        SeedingKeepsKeysApart(f, AfterGenerate(f, a, 0), AfterGenerate(f, b, 0), data[todo..]);
      }
    }
  }
}
