/**
 The asynchronous Jitter RNG buffer (lrng_es_jent.c:114-221): fillers and readers share slots whose state changes by
 compare-exchange and by plain stores. Any number of processes run both; every atomic operation and every access to a
 cell of a block is a step of its own.
 */
module JitterBuffer {
  import opened Words

  datatype SlotState = Empty | Filling | Filled | Reading

  /** A block is a sequence of cells: its bytes and its entropy estimate. */
  type Block = seq<int>

  /** Where a process is. A reader keeps the cells it has copied. */
  datatype Pc =
    | Idle
    | Scanning(i: nat)
    | Writing(slot: nat)
    | Claiming(slot: nat)
    | Copying(slot: nat, copied: Block)
    | Wiping(slot: nat, wiped: nat, copied: Block)

  /** A block that was published in a slot. */
  datatype Fill = Fill(slot: nat, block: Block)

  /** A block that a reader handed out: the fill it was claimed as, and what was copied. */
  datatype Delivery = Delivery(fill: nat, block: Block)

  /**
   The shared words, the processes, and for the statements the process that last claimed each slot, the number of the
   fill each slot last held, and the history of fills and deliveries.
   */
  datatype State = State(
    slots: seq<SlotState>, cells: seq<Block>, idx: u32, procs: seq<Pc>,
    owner: seq<nat>, tag: seq<nat>, fills: seq<Fill>, deliveries: seq<Delivery>)

  /** Number of cells of a block. */
  const CELLS := 49

  datatype Event =
    | StartMonitor(p: nat)
    | TryFill(p: nat)
    | WriteCell(p: nat, k: nat, v: int)
    | Publish(p: nat)
    | Draw(p: nat)
    | Claim(p: nat)
    | CopyCell(p: nat)
    | WipeCell(p: nat)
    | Release(p: nat)

  /** Both arrays of shared words have the same length, and so have the arrays of the history. */
  predicate Shape(s: State) {
    && 0 < |s.slots| == |s.cells| == |s.owner| == |s.tag|
    && forall i :: 0 <= i < |s.cells| ==> |s.cells[i]| == CELLS
  }

  predicate Enabled(s: State, e: Event) {
    && e.p < |s.procs|
    && var pc := s.procs[e.p];
      match e
      case StartMonitor(_) => pc.Idle?
      case TryFill(_) => pc.Scanning?
      case WriteCell(_, k, _) => pc.Writing? && pc.slot < |s.slots| && k < CELLS
      case Publish(_) => pc.Writing? && pc.slot < |s.slots|
      case Draw(_) => pc.Idle?
      case Claim(_) => pc.Claiming? && pc.slot < |s.slots|
      case CopyCell(_) => pc.Copying? && pc.slot < |s.slots| && |pc.copied| < CELLS
      case WipeCell(_) => pc.Wiping? && pc.slot < |s.slots| && pc.wiped < CELLS
      case Release(_) => pc.Wiping? && pc.slot < |s.slots| && pc.wiped == CELLS
  }

  function Next(s: State, e: Event): (r: State)
    requires Shape(s) && Enabled(s, e)
    ensures Shape(r) && |r.slots| == |s.slots| && |r.procs| == |s.procs|
  {
    var p, pc := e.p, s.procs[e.p];
    match e
    case StartMonitor(_) => s.(procs := s.procs[p := Scanning(0)])
    case TryFill(_) =>
      if pc.i >= |s.slots| then s.(procs := s.procs[p := Idle])
      else if s.slots[pc.i] == Empty then
        s.(slots := s.slots[pc.i := Filling], owner := s.owner[pc.i := p], procs := s.procs[p := Writing(pc.i)])
      else s.(procs := s.procs[p := Scanning(pc.i + 1)])
    case WriteCell(_, k, v) => s.(cells := s.cells[pc.slot := s.cells[pc.slot][k := v]])
    case Publish(_) =>
      s.(slots := s.slots[pc.slot := Filled], tag := s.tag[pc.slot := |s.fills|],
         fills := s.fills + [Fill(pc.slot, s.cells[pc.slot])], procs := s.procs[p := Scanning(pc.slot + 1)])
    case Draw(_) =>
      var idx := Add(s.idx, 1);
      s.(idx := idx, procs := s.procs[p := Claiming(idx % |s.slots|)])
    case Claim(_) =>
      if s.slots[pc.slot] == Filled then
        s.(slots := s.slots[pc.slot := Reading], owner := s.owner[pc.slot := p], procs := s.procs[p := Copying(pc.slot, [])])
      else s.(procs := s.procs[p := Idle])
    case CopyCell(_) =>
      var copied := pc.copied + [s.cells[pc.slot][|pc.copied|]];
      s.(procs := s.procs[p := if |copied| == CELLS then Wiping(pc.slot, 0, copied) else Copying(pc.slot, copied)])
    case WipeCell(_) =>
      s.(cells := s.cells[pc.slot := s.cells[pc.slot][pc.wiped := 0]],
         procs := s.procs[p := Wiping(pc.slot, pc.wiped + 1, pc.copied)])
    case Release(_) =>
      s.(slots := s.slots[pc.slot := Empty], deliveries := s.deliveries + [Delivery(s.tag[pc.slot], pc.copied)],
         procs := s.procs[p := Idle])
  }

  predicate IsRun(s: State, events: seq<Event>)
    requires Shape(s)
    decreases |events|
  {
    events == [] || (Enabled(s, events[0]) && IsRun(Next(s, events[0]), events[1..]))
  }

  function RunFrom(s: State, events: seq<Event>): (r: State)
    requires Shape(s) && IsRun(s, events)
    ensures Shape(r)
    decreases |events|
  {
    if events == [] then s else RunFrom(Next(s, events[0]), events[1..])
  }

  /** lrng_jent_async_init, before anything runs. */
  function Boot(slots: nat, procs: nat): (s: State)
    requires slots > 0
    ensures Shape(s)
  {
    State(seq(slots, i => Empty), seq(slots, i => seq(CELLS, j => 0)), TWO32 - 1, seq(procs, i => Idle),
          seq(slots, i => 0), seq(slots, i => 0), [], [])
  }

  // ---------------------------------------------------------------------------------------------
  // The invariant
  // ---------------------------------------------------------------------------------------------

  /** The process uses the block of a slot. */
  predicate Uses(pc: Pc, slot: nat) {
    (pc.Writing? || pc.Copying? || pc.Wiping?) && pc.slot == slot
  }

  /** A process that uses a block owns its slot, and a reader has so far copied what was published. */
  predicate ProcOk(s: State, p: nat)
    requires Shape(s) && p < |s.procs|
  {
    var pc := s.procs[p];
    match pc
    case Idle => true
    case Scanning(_) => true
    case Claiming(i) => i < |s.slots|
    case Writing(i) => i < |s.slots| && s.slots[i] == Filling && s.owner[i] == p
    case Copying(i, copied) =>
      && i < |s.slots| && s.slots[i] == Reading && s.owner[i] == p && |copied| < CELLS
      && s.tag[i] < |s.fills| && s.fills[s.tag[i]].block == s.cells[i] && copied == s.cells[i][..|copied|]
    case Wiping(i, wiped, copied) =>
      && i < |s.slots| && s.slots[i] == Reading && s.owner[i] == p && wiped <= CELLS
      && s.tag[i] < |s.fills| && s.fills[s.tag[i]].block == copied
  }

  /** A slot in use has the owner it was claimed by; a filled or claimed slot holds a fill that nobody was handed yet. */
  predicate SlotOk(s: State, i: nat)
    requires Shape(s) && i < |s.slots|
  {
    match s.slots[i]
    case Empty => true
    case Filling => s.owner[i] < |s.procs| && s.procs[s.owner[i]] == Writing(i)
    case Filled => HoldsFill(s, i) && s.fills[s.tag[i]].block == s.cells[i]
    case Reading =>
      HoldsFill(s, i) && s.owner[i] < |s.procs| && Uses(s.procs[s.owner[i]], i) && !s.procs[s.owner[i]].Writing?
  }

  predicate HoldsFill(s: State, i: nat)
    requires Shape(s) && i < |s.slots|
  {
    s.tag[i] < |s.fills| && s.fills[s.tag[i]].slot == i && !Delivered(s.deliveries, s.tag[i])
  }

  predicate Delivered(deliveries: seq<Delivery>, fill: nat) {
    exists k :: 0 <= k < |deliveries| && deliveries[k].fill == fill
  }

  /** The fill is still in its slot. */
  predicate Stored(s: State, fill: nat)
    requires Shape(s) && fill < |s.fills|
  {
    var i := s.fills[fill].slot;
    i < |s.slots| && (s.slots[i] == Filled || s.slots[i] == Reading) && s.tag[i] == fill
  }

  predicate Processes(s: State)
    requires Shape(s)
  {
    forall p :: 0 <= p < |s.procs| ==> ProcOk(s, p)
  }

  predicate Slots(s: State)
    requires Shape(s)
  {
    forall i :: 0 <= i < |s.slots| ==> SlotOk(s, i)
  }

  /** What was handed out is what was filled, each fill at most once, and no fill is lost. */
  predicate History(s: State)
    requires Shape(s)
  {
    && (forall k :: 0 <= k < |s.deliveries| ==>
      s.deliveries[k].fill < |s.fills| && s.deliveries[k].block == s.fills[s.deliveries[k].fill].block)
    && (forall k, l :: 0 <= k < l < |s.deliveries| ==> s.deliveries[k].fill != s.deliveries[l].fill)
    && (forall f :: 0 <= f < |s.fills| ==> Stored(s, f) || Delivered(s.deliveries, f))
  }

  predicate Inv(s: State) {
    Shape(s) && Processes(s) && Slots(s) && History(s)
  }

  // ---------------------------------------------------------------------------------------------
  // Every step keeps it
  // ---------------------------------------------------------------------------------------------

  /** Two processes never use the same slot, since both would be its owner. */
  lemma OneOwner(s: State, p: nat, q: nat, i: nat)
    requires Inv(s) && p < |s.procs| && q < |s.procs| && Uses(s.procs[p], i) && Uses(s.procs[q], i)
    ensures p == q && i < |s.slots| && s.owner[i] == p
  {
    assert ProcOk(s, p) && ProcOk(s, q);
  }

  /** A step that touches a slot is made by its user, or claims a slot that nobody uses. */
  lemma OtherProcess(s: State, e: Event, q: nat)
    requires Inv(s) && Enabled(s, e) && q < |s.procs| && q != e.p
    ensures ProcOk(Next(s, e), q)
  {
    hide Slots, History;
    assert ProcOk(s, q) && ProcOk(s, e.p);
  }

  lemma OwnProcess(s: State, e: Event)
    requires Inv(s) && Enabled(s, e)
    ensures ProcOk(Next(s, e), e.p)
  {
    hide History, Delivered;
    var pc := s.procs[e.p];
    assert ProcOk(s, e.p);
    match e {
      case StartMonitor(_) =>
      case TryFill(_) =>
      case WriteCell(_, k, v) =>
      case Publish(_) =>
      case Draw(_) =>
      case Claim(_) => assert SlotOk(s, pc.slot);
      case CopyCell(_) =>
        var n, block := |pc.copied|, s.cells[pc.slot];
        assert pc.copied + [block[n]] == block[..n + 1];
        assert block[..CELLS] == block;
      case WipeCell(_) =>
      case Release(_) =>
    }
  }

  lemma KeepProcesses(s: State, e: Event)
    requires Inv(s) && Enabled(s, e)
    ensures Processes(Next(s, e))
  {
    hide ProcOk, Inv, Enabled;
    var r := NextState(s, e);
    forall q | 0 <= q < |r.procs|
      ensures ProcOk(r, q)
    {
      if q == e.p {
        OwnProcess(s, e);
      } else {
        OtherProcess(s, e, q);
      }
    }
  }

  /** The result of a step, known by its shape only. */
  lemma NextState(s: State, e: Event) returns (r: State)
    requires Inv(s) && Enabled(s, e)
    ensures r == Next(s, e) && Shape(r) && |r.slots| == |s.slots| && |r.procs| == |s.procs|
  {
    r := Next(s, e);
  }

  lemma DeliveredGrows(a: seq<Delivery>, d: Delivery, fill: nat)
    ensures Delivered(a + [d], fill) <==> Delivered(a, fill) || d.fill == fill
  {
    var b := a + [d];
    if Delivered(a, fill) {
      var k :| 0 <= k < |a| && a[k].fill == fill;
      assert b[k].fill == fill;
    } else if d.fill == fill {
      assert b[|a|].fill == fill;
    }
  }

  lemma KeepSlot(s: State, e: Event, i: nat)
    requires Inv(s) && Enabled(s, e) && i < |s.slots|
    ensures SlotOk(Next(s, e), i)
  {
    hide Inv, Enabled, SlotOk;
    var r := NextState(s, e);
    if e.StartMonitor? || e.TryFill? || e.Draw? || e.Claim? {
      KeepSlotOfScan(s, e, i);
    } else {
      KeepSlotOfUse(s, e, i);
    }
  }

  lemma KeepSlotOfScan(s: State, e: Event, i: nat)
    requires Inv(s) && Enabled(s, e) && i < |s.slots| && (e.StartMonitor? || e.TryFill? || e.Draw? || e.Claim?)
    ensures SlotOk(Next(s, e), i)
  {
    hide Delivered, History;
    assert ProcOk(s, e.p) && SlotOk(s, i);
  }

  lemma KeepSlotOfUse(s: State, e: Event, i: nat)
    requires Inv(s) && Enabled(s, e) && i < |s.slots| && !(e.StartMonitor? || e.TryFill? || e.Draw? || e.Claim?)
    ensures SlotOk(Next(s, e), i)
  {
    hide Delivered, History;
    var pc := s.procs[e.p];
    assert ProcOk(s, e.p) && SlotOk(s, i);
    match e {
      case Publish(_) => FreshFill(s);
      case Release(_) =>
        assert SlotOk(s, pc.slot);
        DeliveredGrows(s.deliveries, Delivery(s.tag[pc.slot], pc.copied), s.tag[i]);
      case _ =>
    }
  }

  /** The number of the next fill was never delivered. */
  lemma FreshFill(s: State)
    requires Inv(s)
    ensures !Delivered(s.deliveries, |s.fills|)
  {
    hide Processes, Slots;
  }

  lemma KeepSlots(s: State, e: Event)
    requires Inv(s) && Enabled(s, e)
    ensures Slots(Next(s, e))
  {
    hide SlotOk, Inv, Enabled;
    var r := NextState(s, e);
    forall i | 0 <= i < |r.slots|
      ensures SlotOk(r, i)
    {
      KeepSlot(s, e, i);
    }
  }

  /** No fill gets lost: a step leaves it stored, or hands it out. */
  lemma FillIsKept(s: State, e: Event, f: nat)
    requires Inv(s) && Enabled(s, e) && f < |s.fills|
    ensures var r := Next(s, e);
      f < |r.fills| && r.fills[f] == s.fills[f] && (Stored(r, f) || Delivered(r.deliveries, f))
  {
    hide Delivered;
    var pc := s.procs[e.p];
    assert ProcOk(s, e.p);
    if e.Release? {
      DeliveredGrows(s.deliveries, Delivery(s.tag[pc.slot], pc.copied), f);
    }
  }

  lemma ReleaseIsFaithful(s: State, e: Event)
    requires Inv(s) && Enabled(s, e) && e.Release?
    ensures var i := s.procs[e.p].slot;
      s.tag[i] < |s.fills| && s.procs[e.p].copied == s.fills[s.tag[i]].block && !Delivered(s.deliveries, s.tag[i])
  {
    hide Delivered;
    assert ProcOk(s, e.p) && SlotOk(s, s.procs[e.p].slot);
  }

  lemma KeepHistory(s: State, e: Event)
    requires Inv(s) && Enabled(s, e)
    ensures History(Next(s, e))
  {
    hide Stored, SlotOk, ProcOk;
    var r := Next(s, e);
    forall f | 0 <= f < |r.fills|
      ensures Stored(r, f) || Delivered(r.deliveries, f)
    {
      if f < |s.fills| {
        FillIsKept(s, e, f);
      } else {
        NewFillIsStored(s, e);
      }
    }
    if e.Release? {
      ReleaseIsFaithful(s, e);
    }
  }

  lemma NewFillIsStored(s: State, e: Event)
    requires Inv(s) && Enabled(s, e) && |Next(s, e).fills| > |s.fills|
    ensures |Next(s, e).fills| == |s.fills| + 1 && Stored(Next(s, e), |s.fills|)
  {
  }

  lemma BootInv(slots: nat, procs: nat)
    requires slots > 0
    ensures Inv(Boot(slots, procs))
  {
  }

  lemma {:induction false} RunKeepsInv(s: State, events: seq<Event>)
    requires Inv(s) && IsRun(s, events)
    ensures Inv(RunFrom(s, events))
    decreases |events|
  {
    hide Processes, Slots, History, Enabled;
    if events != [] {
      KeepProcesses(s, events[0]);
      KeepSlots(s, events[0]);
      KeepHistory(s, events[0]);
      RunKeepsInv(Next(s, events[0]), events[1..]);
    }
  }

  // ---------------------------------------------------------------------------------------------
  // What holds in every run
  // ---------------------------------------------------------------------------------------------

  /** At any time a slot is used by at most one process. */
  lemma MutualExclusion(slots: nat, procs: nat, events: seq<Event>, p: nat, q: nat, i: nat)
    requires slots > 0 && IsRun(Boot(slots, procs), events)
    ensures var s := RunFrom(Boot(slots, procs), events);
      p < |s.procs| && q < |s.procs| && Uses(s.procs[p], i) && Uses(s.procs[q], i) ==> p == q
  {
    BootInv(slots, procs);
    RunKeepsInv(Boot(slots, procs), events);
    var s := RunFrom(Boot(slots, procs), events);
    if p < |s.procs| && q < |s.procs| && Uses(s.procs[p], i) && Uses(s.procs[q], i) {
      OneOwner(s, p, q, i);
    }
  }

  /** Every block handed out is a block that was published, whole and unchanged, and no fill is handed out twice. */
  lemma DeliveriesAreFills(slots: nat, procs: nat, events: seq<Event>)
    requires slots > 0 && IsRun(Boot(slots, procs), events)
    ensures var s := RunFrom(Boot(slots, procs), events);
      && (forall k :: 0 <= k < |s.deliveries| ==>
        s.deliveries[k].fill < |s.fills| && s.deliveries[k].block == s.fills[s.deliveries[k].fill].block)
      && (forall k, l :: 0 <= k < l < |s.deliveries| ==> s.deliveries[k].fill != s.deliveries[l].fill)
  {
    BootInv(slots, procs);
    RunKeepsInv(Boot(slots, procs), events);
  }

  /** A published block that was not handed out is still in its slot. */
  lemma NoFillIsLost(slots: nat, procs: nat, events: seq<Event>, f: nat)
    requires slots > 0 && IsRun(Boot(slots, procs), events)
    ensures var s := RunFrom(Boot(slots, procs), events);
      Shape(s) && (f < |s.fills| && !Delivered(s.deliveries, f) ==> Stored(s, f))
  {
    BootInv(slots, procs);
    RunKeepsInv(Boot(slots, procs), events);
  }

  // ---------------------------------------------------------------------------------------------
  // Emptied slots hold zeros
  // ---------------------------------------------------------------------------------------------

  predicate ZerosUpTo(block: Block, n: nat)
    requires n <= |block|
  {
    forall k :: 0 <= k < n ==> block[k] == 0
  }

  /** An empty slot holds zeros. */
  predicate EmptyIsZero(s: State, i: nat)
    requires Shape(s) && i < |s.slots|
  {
    s.slots[i] == Empty ==> ZerosUpTo(s.cells[i], CELLS)
  }

  /** A reader has zeroed the cells that it says. */
  predicate WipedIsZero(s: State, p: nat)
    requires Shape(s) && p < |s.procs|
  {
    var pc := s.procs[p];
    pc.Wiping? && pc.slot < |s.slots| && pc.wiped <= CELLS ==> ZerosUpTo(s.cells[pc.slot], pc.wiped)
  }

  predicate Zeroed(s: State)
    requires Shape(s)
  {
    && (forall i :: 0 <= i < |s.slots| ==> EmptyIsZero(s, i))
    && (forall p :: 0 <= p < |s.procs| ==> WipedIsZero(s, p))
  }

  lemma KeepEmptyIsZero(s: State, e: Event, i: nat)
    requires Inv(s) && Zeroed(s) && Enabled(s, e) && i < |s.slots|
    ensures EmptyIsZero(Next(s, e), i)
  {
    hide History, Slots;
    assert EmptyIsZero(s, i) && WipedIsZero(s, e.p) && ProcOk(s, e.p);
  }

  lemma KeepWipedIsZero(s: State, e: Event, p: nat)
    requires Inv(s) && Zeroed(s) && Enabled(s, e) && p < |s.procs|
    ensures WipedIsZero(Next(s, e), p)
  {
    hide History, Slots;
    assert WipedIsZero(s, p) && ProcOk(s, p) && ProcOk(s, e.p);
  }

  lemma {:induction false} RunKeepsZeros(s: State, events: seq<Event>)
    requires Inv(s) && Zeroed(s) && IsRun(s, events)
    ensures Zeroed(RunFrom(s, events))
    decreases |events|
  {
    hide Processes, Slots, History, Enabled, EmptyIsZero, WipedIsZero;
    if events != [] {
      var r := NextState(s, events[0]);
      forall i | 0 <= i < |r.slots|
        ensures EmptyIsZero(r, i)
      {
        KeepEmptyIsZero(s, events[0], i);
      }
      forall p | 0 <= p < |r.procs|
        ensures WipedIsZero(r, p)
      {
        KeepWipedIsZero(s, events[0], p);
      }
      RunKeepsInv(s, [events[0]]);
      assert [events[0]][1..] == [];
      RunKeepsZeros(r, events[1..]);
    }
  }

  /** At any time a slot that is empty holds nothing of the blocks that were in it. */
  lemma EmptySlotsAreZero(slots: nat, procs: nat, events: seq<Event>, i: nat)
    requires slots > 0 && IsRun(Boot(slots, procs), events)
    ensures var s := RunFrom(Boot(slots, procs), events);
      i < |s.slots| && s.slots[i] == Empty ==> s.cells[i] == seq(49, k => 0)
  {
    BootInv(slots, procs);
    RunKeepsZeros(Boot(slots, procs), events);
    hide RunFrom, IsRun;
    var s := RunFrom(Boot(slots, procs), events);
    assert i < |s.slots| ==> EmptyIsZero(s, i);
  }

  // ---------------------------------------------------------------------------------------------
  // Processes get on
  // ---------------------------------------------------------------------------------------------

  /** No process is ever blocked. */
  lemma NextStepIsEnabled(s: State, p: nat) returns (e: Event)
    requires Inv(s) && p < |s.procs|
    ensures Enabled(s, e) && e.p == p
  {
    assert ProcOk(s, p);
    match s.procs[p] {
      case Idle => e := StartMonitor(p);
      case Scanning(_) => e := TryFill(p);
      case Writing(_) => e := Publish(p);
      case Claiming(_) => e := Claim(p);
      case Copying(_, _) => e := CopyCell(p);
      case Wiping(_, wiped, _) => e := if wiped == CELLS then Release(p) else WipeCell(p);
    }
  }

  function OwnSteps(events: seq<Event>, p: nat): nat {
    if events == [] then 0 else (if events[0].p == p then 1 else 0) + OwnSteps(events[1..], p)
  }

  /** Steps of its own until a reader hands out its block. */
  function StepsLeft(pc: Pc): int {
    match pc
    case Copying(_, copied) => CELLS - |copied| + CELLS + 1
    case Wiping(_, wiped, _) => CELLS - wiped + 1
    case _ => 0
  }

  /** The process reads the given fill. */
  predicate Reads(s: State, p: nat, fill: nat)
    requires Shape(s)
  {
    && p < |s.procs| && (s.procs[p].Copying? || s.procs[p].Wiping?) && s.procs[p].slot < |s.slots|
    && s.tag[s.procs[p].slot] == fill
  }

  lemma ReaderGetsOn(s: State, e: Event, p: nat, fill: nat)
    requires Inv(s) && Enabled(s, e) && Reads(s, p, fill)
    ensures var r := Next(s, e);
      && (e.p != p ==> Reads(r, p, fill) && r.procs[p] == s.procs[p])
      && (e.p == p && StepsLeft(s.procs[p]) > 1 ==> Reads(r, p, fill) && StepsLeft(r.procs[p]) == StepsLeft(s.procs[p]) - 1)
      && (e.p == p && StepsLeft(s.procs[p]) <= 1 ==> Delivered(r.deliveries, fill))
  {
    hide History, Delivered;
    assert ProcOk(s, p) && ProcOk(s, e.p);
    if e.Release? {
      DeliveredGrows(s.deliveries, Delivery(s.tag[s.procs[e.p].slot], s.procs[e.p].copied), fill);
    }
  }

  lemma {:induction false} DeliveredStays(s: State, events: seq<Event>, fill: nat)
    requires Shape(s) && IsRun(s, events) && Delivered(s.deliveries, fill)
    ensures Delivered(RunFrom(s, events).deliveries, fill)
    decreases |events|
  {
    hide Delivered;
    if events != [] {
      var e := events[0];
      if e.Release? {
        DeliveredGrows(s.deliveries, Delivery(s.tag[s.procs[e.p].slot], s.procs[e.p].copied), fill);
      }
      DeliveredStays(Next(s, e), events[1..], fill);
    }
  }

  /** Whatever the others do, a reader hands out what it claimed after its own steps. */
  lemma {:induction false} ReaderFinishes(s: State, events: seq<Event>, p: nat, fill: nat)
    requires Inv(s) && IsRun(s, events) && Reads(s, p, fill) && OwnSteps(events, p) >= StepsLeft(s.procs[p])
    ensures Delivered(RunFrom(s, events).deliveries, fill)
    decreases |events|
  {
    hide Processes, Slots, History, Enabled, Next, Delivered;
    ReaderHasSteps(s, p, fill);
    if events != [] {
      var e := events[0];
      ReaderGetsOn(s, e, p, fill);
      RunKeepsInv(s, [e]);
      assert [e][1..] == [];
      if e.p == p && StepsLeft(s.procs[p]) <= 1 {
        DeliveredStays(Next(s, e), events[1..], fill);
      } else {
        ReaderFinishes(Next(s, e), events[1..], p, fill);
      }
    }
  }

  lemma ReaderHasSteps(s: State, p: nat, fill: nat)
    requires Inv(s) && Reads(s, p, fill)
    ensures 1 <= StepsLeft(s.procs[p]) <= 99
  {
    assert ProcOk(s, p);
  }

  /**
   A reader that finds its slot filled hands out the fill of that slot once it has made 99 steps more, whatever the other
   processes do in between.
   */
  lemma ClaimedFillIsHandedOut(s: State, p: nat, events: seq<Event>)
    requires Inv(s) && p < |s.procs| && s.procs[p].Claiming? && IsRun(s, [Claim(p)] + events) && OwnSteps(events, p) >= 99
    ensures var i := s.procs[p].slot;
      i < |s.slots| && (s.slots[i] == Filled ==> Delivered(RunFrom(s, [Claim(p)] + events).deliveries, s.tag[i]))
  {
    hide Slots, History, Delivered;
    assert ProcOk(s, p);
    assert ([Claim(p)] + events)[1..] == events;
    RunKeepsInv(s, [Claim(p)]);
    assert [Claim(p)][1..] == [];
    if s.slots[s.procs[p].slot] == Filled {
      ReaderFinishes(Next(s, Claim(p)), events, p, s.tag[s.procs[p].slot]);
    }
  }

  /** A filler that finds a slot empty can publish any block in it. */
  lemma EmptySlotCanBeFilled(s: State, p: nat, block: Block) returns (events: seq<Event>)
    requires Inv(s) && p < |s.procs| && s.procs[p].Scanning? && |block| == CELLS
    ensures IsRun(s, events)
    ensures var i, r := s.procs[p].i, RunFrom(s, events);
      i < |s.slots| && s.slots[i] == Empty ==>
        r.slots == s.slots[i := Filled] && r.cells == s.cells[i := block] && r.fills == s.fills + [Fill(i, block)]
        && r.tag == s.tag[i := |s.fills|] && r.procs == s.procs[p := Scanning(i + 1)]
  {
    hide IsRun, RunFrom, Processes, Slots, History;
    NoStep(s);
    events := [];
    var i := s.procs[p].i;
    if i < |s.slots| && s.slots[i] == Empty {
      var t := Next(s, TryFill(p));
      events := [TryFill(p)];
      OneMoreStep(s, [], TryFill(p));
      assert [] + [TryFill(p)] == events;
      assert block[..0] + s.cells[i][0..] == s.cells[i] && s.cells[i := s.cells[i]] == s.cells;
      for k := 0 to CELLS
        invariant IsRun(s, events)
        invariant RunFrom(s, events) == t.(cells := s.cells[i := block[..k] + s.cells[i][k..]])
      {
        OneMoreStep(s, events, WriteCell(p, k, block[k]));
        assert (block[..k] + s.cells[i][k..])[k := block[k]] == block[..k + 1] + s.cells[i][k + 1..];
        events := events + [WriteCell(p, k, block[k])];
      }
      assert block[..CELLS] + s.cells[i][CELLS..] == block;
      OneMoreStep(s, events, Publish(p));
      events := events + [Publish(p)];
    }
  }

  /** Running alone, the monitor fills every slot that it finds empty, and leaves the others. */
  lemma MonitorFillsAll(s: State, p: nat, block: Block) returns (events: seq<Event>)
    requires Inv(s) && p < |s.procs| && s.procs[p].Idle? && |block| == CELLS
    ensures IsRun(s, events)
    ensures var r := RunFrom(s, events);
      && r.procs == s.procs && |r.slots| == |s.slots|
      && forall i :: 0 <= i < |s.slots| ==>
        r.slots[i] == (if s.slots[i] == Empty then Filled else s.slots[i])
        && r.cells[i] == if s.slots[i] == Empty then block else s.cells[i]
  {
    hide IsRun, RunFrom, Processes, Slots, History;
    NoStep(s);
    events := [StartMonitor(p)];
    OneMoreStep(s, [], StartMonitor(p));
    assert [] + events == events;
    for k := 0 to |s.slots|
      invariant IsRun(s, events)
      invariant ScannedTo(s, RunFrom(s, events), p, k, block)
    {
      var r := RunFrom(s, events);
      RunKeepsInv(s, events);
      var more: seq<Event>;
      if r.slots[k] == Empty {
        more := EmptySlotCanBeFilled(r, p, block);
      } else {
        more := [TryFill(p)];
        NoStep(r);
        OneMoreStep(r, [], TryFill(p));
        assert [] + more == more;
      }
      Joined(s, events, more);
      events := events + more;
    }
    OneMoreStep(s, events, TryFill(p));
    events := events + [TryFill(p)];
  }

  /** The monitor has passed the first k slots. */
  predicate ScannedTo(s: State, r: State, p: nat, k: nat, block: Block)
    requires Shape(s) && Shape(r) && p < |s.procs|
  {
    && r.procs == s.procs[p := Scanning(k)] && |r.slots| == |s.slots|
    && forall i :: 0 <= i < |s.slots| ==>
      r.slots[i] == (if i < k && s.slots[i] == Empty then Filled else s.slots[i])
      && r.cells[i] == if i < k && s.slots[i] == Empty then block else s.cells[i]
  }

  lemma {:induction false} Joined(s: State, a: seq<Event>, b: seq<Event>)
    requires Shape(s) && IsRun(s, a) && IsRun(RunFrom(s, a), b)
    ensures IsRun(s, a + b) && RunFrom(s, a + b) == RunFrom(RunFrom(s, a), b)
    decreases |a|
  {
    hide Next, Enabled;
    if a == [] {
      assert a + b == b;
    } else {
      assert (a + b)[1..] == a[1..] + b;
      Joined(Next(s, a[0]), a[1..], b);
    }
  }

  lemma NoStep(s: State)
    requires Shape(s)
    ensures IsRun(s, []) && RunFrom(s, []) == s
  {
  }

  lemma {:induction false} OneMoreStep(s: State, events: seq<Event>, e: Event)
    requires Shape(s) && IsRun(s, events) && Enabled(RunFrom(s, events), e)
    ensures IsRun(s, events + [e]) && RunFrom(s, events + [e]) == Next(RunFrom(s, events), e)
    decreases |events|
  {
    hide Next, Enabled;
    if events == [] {
      assert ([] + [e])[1..] == [];
    } else {
      assert (events + [e])[1..] == events[1..] + [e];
      OneMoreStep(Next(s, events[0]), events[1..], e);
    }
  }

  // ---------------------------------------------------------------------------------------------
  // The readers go round
  // ---------------------------------------------------------------------------------------------

  function Draws(events: seq<Event>): nat {
    if events == [] then 0 else (if events[0].Draw? then 1 else 0) + Draws(events[1..])
  }

  lemma IdxStep(s: State, e: Event)
    requires Shape(s) && Enabled(s, e)
    ensures Next(s, e).idx == Wrap(s.idx + if e.Draw? then 1 else 0)
  {
  }

  lemma {:induction false} IdxCounts(s: State, events: seq<Event>)
    requires Shape(s) && IsRun(s, events)
    ensures RunFrom(s, events).idx == Wrap(s.idx + Draws(events))
    decreases |events|
  {
    hide Shape, Wrap, Next;
    if events != [] {
      IdxStep(s, events[0]);
      IdxCounts(Next(s, events[0]), events[1..]);
      WrapOfWrap(s.idx + 1, Draws(events[1..]));
    }
  }

  /** For a number of slots that is a power of two, the readers of any run claim the slots in turn, from the first one on. */
  lemma ReadersGoRound(slots: nat, procs: nat, events: seq<Event>, p: nat)
    requires slots > 0 && TWO32 % slots == 0 && IsRun(Boot(slots, procs), events)
    ensures var s := RunFrom(Boot(slots, procs), events);
      Enabled(s, Draw(p)) ==> Next(s, Draw(p)).procs[p] == Claiming(Draws(events) % |s.slots|)
  {
    var s := RunFrom(Boot(slots, procs), events);
    SlotsStay(Boot(slots, procs), events);
    IdxCounts(Boot(slots, procs), events);
    hide RunFrom, IsRun, Wrap;
    WrapOfWrap(TWO32 - 1 + Draws(events), 1);
    WrapInTurn(Draws(events), slots);
  }

  lemma {:induction false} SlotsStay(s: State, events: seq<Event>)
    requires Shape(s) && IsRun(s, events)
    ensures |RunFrom(s, events).slots| == |s.slots|
    decreases |events|
  {
    hide Next;
    if events != [] {
      SlotsStay(Next(s, events[0]), events[1..]);
    }
  }

  lemma WrapInTurn(m: nat, n: nat)
    requires n > 0 && TWO32 % n == 0
    ensures Wrap(TWO32 + m) % n == m % n
  {
    var d, k, r := TWO32 / n, m / TWO32, m % TWO32;
    assert TWO32 == n * d;
    assert Wrap(TWO32 + m) == r;
    assert r == n * (r / n) + r % n;
    assert m == n * (d * k + r / n) + r % n by {
      assert n * (d * k) == TWO32 * k;
    }
    RemainderOf(n, d * k + r / n, r % n);
  }
}
