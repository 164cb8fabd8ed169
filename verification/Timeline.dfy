/** What the jitter buffer promises: a map from unbounded sequence numbers to frames, read in order.
    The 64-slot, 16-bit ring refines it as long as arrivals stay within a ring of the read position. */
module Timeline {
  import opened Common
  import opened Seq16
  import opened Jitter

  datatype Packet = Packet(timestamp: u32, data: seq<byte>)

  /** `rd` is the next number to be read, `hi` the newest one stored. */
  datatype Timeline = Timeline(started: bool, rd: int, hi: int, frames: map<int, Packet>)

  const NEW_TIMELINE := Timeline(false, 0, 0, map[])

  function MapPush(t: Timeline, g: int, p: Packet): (Timeline, PushOutcome) {
    if |p.data| > MAX_FRAME_BYTES then (t, TooBig)
    else if !t.started then (Timeline(true, g, g, map[g := p]), Stored)
    else if g < t.rd then (t, Late)
    else if g in t.frames then (t, Duplicate)
    else (t.(hi := Max(t.hi, g), frames := t.frames[g := p]), Stored)
  }

  function MapPop(t: Timeline): (Timeline, PopOutcome, seq<byte>) {
    if !t.started then (t, Missing, [])
    else if t.rd in t.frames then
      (t.(rd := t.rd + 1, frames := t.frames - {t.rd}),
       Frame(|t.frames[t.rd].data|, t.frames[t.rd].timestamp), t.frames[t.rd].data)
    else (t.(rd := t.rd + 1), Missing, [])
  }

  function MapSkip(t: Timeline): (Timeline, bool) {
    if t.started then (t.(rd := t.rd + 1, frames := t.frames - {t.rd}), t.rd in t.frames) else (t, false)
  }

  function MapReset(t: Timeline): Timeline { t.(started := false, frames := map[]) }

  // ---------------------------------------------------------------- coupling

  function Index(g: int): nat { g % SLOTS }

  ghost predicate SlotTracks(slot: Slot, frames: map<int, Packet>, g: int) {
    if g in frames then
      && slot.Holds(Wrap(g))
      && slot.timestamp == frames[g].timestamp
      && slot.len == |frames[g].data| <= MAX_FRAME_BYTES == |slot.payload|
      && slot.payload[..slot.len] == frames[g].data
    else
      !slot.state.Written?
  }

  /** The 64 slots hold exactly the frames numbered `rd` to `rd + 63`. */
  ghost predicate SlotsTrack(slots: seq<Slot>, frames: map<int, Packet>, rd: int)
    requires |slots| == SLOTS
  {
    forall g | rd <= g < rd + SLOTS :: SlotTracks(slots[Index(g)], frames, g)
  }

  ghost predicate Tracks(b: Ring, t: Timeline) {
    && b.Valid()
    && b.started == t.started
    && (forall g | g in t.frames :: t.rd <= g < t.rd + SLOTS && g <= t.hi)
    && if t.started then b.next == Wrap(t.rd) && SlotsTrack(b.slots, t.frames, t.rd)
       else t.frames == map[] && forall i | 0 <= i < SLOTS :: !b.slots[i].state.Written?
  }

  /** Arrivals stay less than a ring ahead of the read position and less than half the sequence space
      behind it. */
  predicate InWindow(t: Timeline, g: int) { t.started ==> t.rd - 0x7fff <= g < t.rd + SLOTS }

  lemma IndexOfWrap(g: int)
    ensures Wrap(g) % SLOTS == Index(g)
  {
    var q, w := g / 0x1_0000, Wrap(g);
    RemainderOf(1024 * q + w / SLOTS, w % SLOTS);
  }

  lemma RemainderOf(a: int, r: int)
    requires 0 <= r < SLOTS
    ensures (SLOTS * a + r) % SLOTS == r
  {
  }

  /** Numbers less than a ring apart share a slot only if they are equal; a full ring apart, they do. */
  lemma IndexInjective(g: int, h: int)
    requires -SLOTS <= g - h <= SLOTS
    ensures Index(g) == Index(h) <==> g == h || g - h == SLOTS || g - h == -SLOTS
  {
  }

  /** In the window, a slot holds a frame stamped with the arriving number iff the map has the frame. */
  lemma HoldsIffInMap(b: Ring, t: Timeline, g: int)
    requires Tracks(b, t) && t.started && t.rd <= g < t.rd + SLOTS
    ensures Wrap(g) % SLOTS == Index(g)
    ensures b.slots[Index(g)].state.Written? <==> g in t.frames
    ensures b.slots[Index(g)].Holds(Wrap(g)) <==> g in t.frames
  {
    IndexOfWrap(g);
    assert SlotTracks(b.slots[Index(g)], t.frames, g);
  }

  lemma FillTracks(slots: seq<Slot>, frames: map<int, Packet>, rd: int, g: int, p: Packet)
    requires |slots| == SLOTS && SlotsTrack(slots, frames, rd)
    requires rd <= g < rd + SLOTS && |p.data| <= MAX_FRAME_BYTES == |slots[Index(g)].payload|
    ensures SlotsTrack(slots[Index(g) := Fill(slots[Index(g)], Wrap(g), p.timestamp, p.data)], frames[g := p], rd)
  {
    var slot' := Fill(slots[Index(g)], Wrap(g), p.timestamp, p.data);
    assert slot'.payload[..slot'.len] == p.data;
    var slots' := slots[Index(g) := slot'];
    forall h | rd <= h < rd + SLOTS ensures SlotTracks(slots'[Index(h)], frames[g := p], h) {
      IndexInjective(g, h);
      assert SlotTracks(slots[Index(h)], frames, h);
    }
  }

  lemma PushTracks(b: Ring, t: Timeline, g: int, p: Packet)
    requires Tracks(b, t) && InWindow(t, g)
    ensures var (b', o) := Push(b, Wrap(g), p.timestamp, p.data);
            var (t', o') := MapPush(t, g, p);
            Tracks(b', t') && o == o'
  {
    NewerThanIsTrueOrder(t.rd, g);
    if |p.data| > MAX_FRAME_BYTES || (t.started && g < t.rd) {
    } else if t.started {
      HoldsIffInMap(b, t, g);
      FillTracks(b.slots, t.frames, t.rd, g, p);
    } else {
      IndexOfWrap(g);
      assert SlotsTrack(b.slots, t.frames, g);
      FillTracks(b.slots, t.frames, g, g, p);
    }
  }

  /** Reading advances the window by one: the slot of `rd` becomes the slot of `rd + 64`. */
  lemma AdvanceTracks(b: Ring, t: Timeline, slots: seq<Slot>)
    requires Tracks(b, t) && t.started
    requires slots == if t.rd in t.frames then b.slots[Index(t.rd) := b.slots[Index(t.rd)].(state := Empty)] else b.slots
    ensures SlotsTrack(slots, t.frames - {t.rd}, t.rd + 1)
  {
    forall h | t.rd + 1 <= h < t.rd + 1 + SLOTS ensures SlotTracks(slots[Index(h)], t.frames - {t.rd}, h) {
      IndexInjective(t.rd, h);
      var h0 := if h == t.rd + SLOTS then t.rd else h;
      assert SlotTracks(b.slots[Index(h0)], t.frames, h0);
    }
  }

  lemma PopTracks(b: Ring, t: Timeline)
    requires Tracks(b, t)
    ensures Tracks(Pop(b).0, MapPop(t).0) && Pop(b).1 == MapPop(t).1 && Pop(b).2 == MapPop(t).2
  {
    if t.started {
      HoldsIffInMap(b, t, t.rd);
      WrapSub(t.rd, -1);
      assert SlotTracks(b.slots[Index(t.rd)], t.frames, t.rd);
      AdvanceTracks(b, t, Pop(b).0.slots);
      assert t.frames - {t.rd} == MapPop(t).0.frames;
    }
  }

  lemma SkipTracks(b: Ring, t: Timeline)
    requires Tracks(b, t)
    ensures Tracks(Skip(b).0, MapSkip(t).0) && Skip(b).1 == MapSkip(t).1
  {
    if t.started {
      HoldsIffInMap(b, t, t.rd);
      WrapSub(t.rd, -1);
      AdvanceTracks(b, t, Skip(b).0.slots);
    }
  }

  // ---------------------------------------------------------------- depth

  ghost predicate NewestTracks(b: Ring, t: Timeline) { t.started ==> b.newest == Wrap(t.hi) }

  /** The newest stored number is kept right as long as reading has not run half the sequence space
      past it. */
  lemma PushNewest(b: Ring, t: Timeline, g: int, p: Packet)
    requires Tracks(b, t) && NewestTracks(b, t) && InWindow(t, g)
    requires t.started ==> t.rd - t.hi <= 0x7fff - SLOTS + 1 && t.hi < t.rd + SLOTS
    ensures NewestTracks(Push(b, Wrap(g), p.timestamp, p.data).0, MapPush(t, g, p).0)
  {
    PushTracks(b, t, g, p);
    NewerThanIsTrueOrder(t.rd, g);
    NewerThanIsTrueOrder(g, t.hi);
  }

  /** The 16-bit depth is the true number of frames from the read position to the newest one exactly
      when these are within a signed 16-bit distance. */
  lemma DepthIsTrueDistance(b: Ring, t: Timeline)
    requires Tracks(b, t) && NewestTracks(b, t) && t.started
    ensures Depth(b) == t.hi + 1 - t.rd <==> -0x8000 <= t.hi - t.rd <= 0x7fff
  {
    DiffIsTrueDistance(t.hi, t.rd);
  }

  // ---------------------------------------------------------------- whole runs

  datatype Op = PushOp(g: int, p: Packet) | PopOp | SkipOp | ResetOp

  datatype Out = Pushed(o: PushOutcome) | Popped(r: PopOutcome, data: seq<byte>) | Skipped(had: bool) | Cleared

  function RingStep(b: Ring, op: Op): (r: (Ring, Out))
    requires b.Valid()
    ensures r.0.Valid()
  {
    match op
    case PushOp(g, p) => var (b', o) := Push(b, Wrap(g), p.timestamp, p.data); (b', Pushed(o))
    case PopOp => var (b', o, data) := Pop(b); (b', Popped(o, data))
    case SkipOp => var (b', had) := Skip(b); (b', Skipped(had))
    case ResetOp => (Reset(b), Cleared)
  }

  function MapStep(t: Timeline, op: Op): (Timeline, Out) {
    match op
    case PushOp(g, p) => var (t', o) := MapPush(t, g, p); (t', Pushed(o))
    case PopOp => var (t', o, data) := MapPop(t); (t', Popped(o, data))
    case SkipOp => var (t', had) := MapSkip(t); (t', Skipped(had))
    case ResetOp => (MapReset(t), Cleared)
  }

  function RingRun(b: Ring, ops: seq<Op>): (r: (Ring, seq<Out>))
    requires b.Valid()
    ensures r.0.Valid()
    decreases ops
  {
    if ops == [] then (b, [])
    else
      var (b1, out) := RingStep(b, ops[0]);
      var (b2, outs) := RingRun(b1, ops[1..]);
      (b2, [out] + outs)
  }

  function MapRun(t: Timeline, ops: seq<Op>): (Timeline, seq<Out>)
    decreases ops
  {
    if ops == [] then (t, [])
    else
      var (t1, out) := MapStep(t, ops[0]);
      var (t2, outs) := MapRun(t1, ops[1..]);
      (t2, [out] + outs)
  }

  predicate ArrivalsInWindow(t: Timeline, ops: seq<Op>)
    decreases ops
  {
    ops != [] ==>
      && (ops[0].PushOp? ==> InWindow(t, ops[0].g))
      && ArrivalsInWindow(MapStep(t, ops[0]).0, ops[1..])
  }

  lemma StepTracks(b: Ring, t: Timeline, op: Op)
    requires Tracks(b, t) && (op.PushOp? ==> InWindow(t, op.g))
    ensures Tracks(RingStep(b, op).0, MapStep(t, op).0) && RingStep(b, op).1 == MapStep(t, op).1
  {
    match op
    case PushOp(g, p) => PushTracks(b, t, g, p);
    case PopOp => PopTracks(b, t);
    case SkipOp => SkipTracks(b, t);
    case ResetOp =>
  }

  /** Every outcome of every run of the ring is the outcome of the unbounded map. */
  lemma {:induction false} RunRefinesMap(b: Ring, t: Timeline, ops: seq<Op>)
    requires Tracks(b, t) && ArrivalsInWindow(t, ops)
    ensures Tracks(RingRun(b, ops).0, MapRun(t, ops).0) && RingRun(b, ops).1 == MapRun(t, ops).1
    decreases ops
  {
    if ops != [] {
      StepTracks(b, t, ops[0]);
      RunRefinesMap(RingStep(b, ops[0]).0, MapStep(t, ops[0]).0, ops[1..]);
    }
  }

  lemma NewRingTracks()
    ensures Tracks(NEW_RING, NEW_TIMELINE)
  {
  }

  // ---------------------------------------------------------------- order and conservation

  datatype Numbered = Numbered(g: int, p: Packet)

  function LeavingNow(t: Timeline, op: Op): seq<Numbered> {
    if (op.PopOp? || op.SkipOp?) && t.started && t.rd in t.frames then [Numbered(t.rd, t.frames[t.rd])] else []
  }

  /** The frames a run plays or skips. */
  function Leaving(t: Timeline, ops: seq<Op>): seq<Numbered>
    decreases ops
  {
    if ops == [] then [] else LeavingNow(t, ops[0]) + Leaving(MapStep(t, ops[0]).0, ops[1..])
  }

  /** Strictly increasing numbers, none below the read position of a started stream. */
  ghost predicate Increasing(left: seq<Numbered>, t: Timeline) {
    && (t.started ==> forall i | 0 <= i < |left| :: t.rd <= left[i].g)
    && forall i, j | 0 <= i < j < |left| :: left[i].g < left[j].g
  }

  lemma IncreasingPrepend(t: Timeline, op: Op, rest: seq<Numbered>)
    requires op != ResetOp && Increasing(rest, MapStep(t, op).0)
    ensures Increasing(LeavingNow(t, op) + rest, t)
  {
  }

  ghost predicate Sourced(t: Timeline, ops: seq<Op>, e: Numbered) {
    (e.g in t.frames && t.frames[e.g] == e.p) || PushOp(e.g, e.p) in ops
  }

  lemma {:induction false} LeaveInOrder(t: Timeline, ops: seq<Op>)
    requires ResetOp !in ops
    ensures Increasing(Leaving(t, ops), t)
    decreases ops
  {
    if ops != [] {
      LeaveInOrder(MapStep(t, ops[0]).0, ops[1..]);
      IncreasingPrepend(t, ops[0], Leaving(MapStep(t, ops[0]).0, ops[1..]));
    }
  }

  lemma SourcedEarlier(t: Timeline, ops: seq<Op>, e: Numbered)
    requires ops != [] && ops[0] != ResetOp
    requires Sourced(MapStep(t, ops[0]).0, ops[1..], e)
    ensures Sourced(t, ops, e)
  {
  }

  lemma {:induction false} LeaveUnchanged(t: Timeline, ops: seq<Op>, e: Numbered)
    requires ResetOp !in ops && e in Leaving(t, ops)
    ensures Sourced(t, ops, e)
    decreases ops
  {
    var t1 := MapStep(t, ops[0]).0;
    if e in Leaving(t1, ops[1..]) {
      LeaveUnchanged(t1, ops[1..], e);
      SourcedEarlier(t, ops, e);
    }
  }

  /** What the outcomes of a run show of the frames that left: the packet of one that was played, nothing of
      one that was skipped. */
  function Departed(outs: seq<Out>): seq<Option<Packet>> {
    if outs == [] then [] else DepartedNow(outs[0]) + Departed(outs[1..])
  }

  function DepartedNow(out: Out): seq<Option<Packet>> {
    match out
    case Popped(Frame(_, timestamp), data) => [Some(Packet(timestamp, data))]
    case Skipped(true) => [None]
    case _ => []
  }

  /** The outcomes are those of these frames, in this order. */
  ghost predicate Shows(departed: seq<Option<Packet>>, left: seq<Numbered>) {
    |departed| == |left| && forall k | 0 <= k < |left| :: departed[k].Some? ==> departed[k].value == left[k].p
  }

  lemma ShowsPrepend(a: seq<Option<Packet>>, b: seq<Option<Packet>>, x: seq<Numbered>, y: seq<Numbered>)
    requires Shows(a, x) && Shows(b, y)
    ensures Shows(a + b, x + y)
  {
  }

  lemma {:induction false} OutcomesShowLeaving(t: Timeline, ops: seq<Op>)
    ensures Shows(Departed(MapRun(t, ops).1), Leaving(t, ops))
    decreases ops
  {
    if ops != [] {
      var (t1, out) := MapStep(t, ops[0]);
      var outs := MapRun(t1, ops[1..]).1;
      OutcomesShowLeaving(t1, ops[1..]);
      assert ([out] + outs)[1..] == outs;
      ShowsPrepend(DepartedNow(out), Departed(outs), LeavingNow(t, ops[0]), Leaving(t1, ops[1..]));
    }
  }

  /** The frames whose departure the ring's outcomes report, between resets: their numbers are strictly
      increasing and not below the read position, so each is played or skipped at most once; and what a pop
      returned is the packet that was pushed under that number, or stored under it before. */
  lemma FramesLeaveInOrder(b: Ring, t: Timeline, ops: seq<Op>)
    requires Tracks(b, t) && ArrivalsInWindow(t, ops) && ResetOp !in ops
    ensures Shows(Departed(RingRun(b, ops).1), Leaving(t, ops)) && Increasing(Leaving(t, ops), t)
    ensures forall e | e in Leaving(t, ops) :: Sourced(t, ops, e)
  {
    RunRefinesMap(b, t, ops);
    OutcomesShowLeaving(t, ops);
    LeaveInOrder(t, ops);
    forall e | e in Leaving(t, ops) ensures Sourced(t, ops, e) {
      LeaveUnchanged(t, ops, e);
    }
  }

  /** From a new buffer, every pop that returns a frame returns a packet that was pushed, and the numbers they
      were pushed under are strictly increasing. */
  lemma PushedFramesPlayInOrder(ops: seq<Op>)
    requires ArrivalsInWindow(NEW_TIMELINE, ops) && ResetOp !in ops
    ensures var left := Leaving(NEW_TIMELINE, ops);
            && Shows(Departed(RingRun(NEW_RING, ops).1), left)
            && (forall i, j | 0 <= i < j < |left| :: left[i].g < left[j].g)
            && forall e | e in left :: PushOp(e.g, e.p) in ops
  {
    NewRingTracks();
    FramesLeaveInOrder(NEW_RING, NEW_TIMELINE, ops);
    assert forall e | e in Leaving(NEW_TIMELINE, ops) :: Sourced(NEW_TIMELINE, ops, e);
  }

  function Resident(slots: seq<Slot>): nat {
    if slots == [] then 0 else (if slots[0].state.Written? then 1 else 0) + Resident(slots[1..])
  }

  lemma {:induction false} ResidentUpdate(slots: seq<Slot>, i: nat, slot: Slot)
    requires i < |slots|
    ensures Resident(slots[i := slot])
         == Resident(slots) - (if slots[i].state.Written? then 1 else 0) + (if slot.state.Written? then 1 else 0)
  {
    if i == 0 {
      assert slots[i := slot][1..] == slots[1..];
    } else {
      assert slots[i := slot][1..] == slots[1..][i - 1 := slot];
      ResidentUpdate(slots[1..], i - 1, slot);
    }
  }

  lemma {:induction false} NoneResident(slots: seq<Slot>)
    requires forall i | 0 <= i < |slots| :: !slots[i].state.Written?
    ensures Resident(slots) == 0
  {
    if slots != [] { NoneResident(slots[1..]); }
  }

  /** Where a step's frames go: played, skipped, discarded by a reset, or overwritten by a push into a
      slot that still holds a frame. */
  datatype Tally = Tally(received: int, played: int, skipped: int, discarded: int, overwritten: int) {
    function Plus(o: Tally): Tally {
      Tally(received + o.received, played + o.played, skipped + o.skipped, discarded + o.discarded, overwritten + o.overwritten)
    }
  }

  function StepTally(b: Ring, op: Op): Tally
    requires b.Valid()
  {
    var (b', out) := RingStep(b, op);
    Tally(if out == Pushed(Stored) then 1 else 0,
          if out.Popped? && out.r.Frame? then 1 else 0,
          if out == Skipped(true) then 1 else 0,
          if op.ResetOp? then Resident(b.slots) else 0,
          if out == Pushed(Stored) && b.slots[Index(op.g)].state.Written? then 1 else 0)
  }

  function RunTally(b: Ring, ops: seq<Op>): Tally
    requires b.Valid()
    decreases ops
  {
    if ops == [] then Tally(0, 0, 0, 0, 0)
    else StepTally(b, ops[0]).Plus(RunTally(RingStep(b, ops[0]).0, ops[1..]))
  }

  lemma StepConserves(b: Ring, op: Op)
    requires b.Valid()
    ensures var (b', n) := (RingStep(b, op).0, StepTally(b, op));
            && Resident(b'.slots) == Resident(b.slots) + n.received - n.played - n.skipped - n.discarded - n.overwritten
            && b'.stats.received == b.stats.received + n.received
            && b'.stats.played == b.stats.played + n.played
  {
    var b' := RingStep(b, op).0;
    match op
    case PushOp(g, p) =>
      IndexOfWrap(g);
      if |p.data| <= MAX_FRAME_BYTES {
        ResidentUpdate(b.slots, Index(g), Fill(b.slots[Index(g)], Wrap(g), p.timestamp, p.data));
      }
    case PopOp => ResidentUpdate(b.slots, b.next % SLOTS, b.slots[b.next % SLOTS].(state := Empty));
    case SkipOp => ResidentUpdate(b.slots, b.next % SLOTS, b.slots[b.next % SLOTS].(state := Empty));
    case ResetOp => NoneResident(b'.slots);
  }

  /** Conservation, with no hypothesis on the arrivals: every received frame is played, skipped, still
      resident, discarded by a reset or overwritten. */
  lemma {:induction false} FramesAreConserved(b: Ring, ops: seq<Op>)
    requires b.Valid()
    ensures var (b', n) := (RingRun(b, ops).0, RunTally(b, ops));
            && Resident(b'.slots) == Resident(b.slots) + n.received - n.played - n.skipped - n.discarded - n.overwritten
            && b'.stats.received == b.stats.received + n.received
            && b'.stats.played == b.stats.played + n.played
    decreases ops
  {
    if ops != [] {
      StepConserves(b, ops[0]);
      FramesAreConserved(RingStep(b, ops[0]).0, ops[1..]);
    }
  }

  // ---------------------------------------------------------------- counters

  datatype Kind = Receipts | Lates | Duplicates | Plays | Resets

  predicate OfKind(out: Out, k: Kind) {
    match k
    case Receipts => out == Pushed(Stored)
    case Lates => out == Pushed(Late)
    case Duplicates => out == Pushed(Duplicate)
    case Plays => out.Popped? && out.r.Frame?
    case Resets => out == Cleared
  }

  function CountOf(outs: seq<Out>, k: Kind): nat {
    if outs == [] then 0 else (if OfKind(outs[0], k) then 1 else 0) + CountOf(outs[1..], k)
  }

  /** Whether the stream has started, told from an outcome. */
  predicate StartedNow(started: bool, out: Out) { if out == Cleared then false else started || out == Pushed(Stored) || out == Pushed(Duplicate) }

  /** The pops that found nothing while the stream was started. */
  function Concealments(started: bool, outs: seq<Out>): nat
    decreases outs
  {
    if outs == [] then 0
    else (if started && outs[0].Popped? && outs[0].r.Missing? then 1 else 0) + Concealments(StartedNow(started, outs[0]), outs[1..])
  }

  function Advanced(s: Stats, started: bool, outs: seq<Out>): Stats {
    Stats(s.received + CountOf(outs, Receipts), s.late + CountOf(outs, Lates), s.duplicates + CountOf(outs, Duplicates),
          s.concealed + Concealments(started, outs), s.played + CountOf(outs, Plays), s.resets + CountOf(outs, Resets))
  }

  lemma CountCons(out: Out, outs: seq<Out>, k: Kind)
    ensures CountOf([out] + outs, k) == CountOf([out], k) + CountOf(outs, k)
    ensures CountOf([out], k) == if OfKind(out, k) then 1 else 0
  {
    assert ([out] + outs)[1..] == outs && [out][1..] == [];
  }

  lemma ConcealmentsCons(started: bool, out: Out, outs: seq<Out>)
    ensures Concealments(started, [out] + outs) == Concealments(started, [out]) + Concealments(StartedNow(started, out), outs)
    ensures Concealments(started, [out]) == if started && out.Popped? && out.r.Missing? then 1 else 0
  {
    assert ([out] + outs)[1..] == outs && [out][1..] == [];
  }

  lemma StepAdvances(b: Ring, op: Op)
    requires b.Valid()
    ensures var (b', out) := RingStep(b, op);
            b'.started == StartedNow(b.started, out) && b'.stats == Advanced(b.stats, b.started, [out])
  {
    var out := RingStep(b, op).1;
    forall k: Kind ensures CountOf([out], k) == if OfKind(out, k) then 1 else 0 { CountCons(out, [], k); }
    ConcealmentsCons(b.started, out, []);
  }

  lemma AdvancedCons(s: Stats, started: bool, out: Out, outs: seq<Out>)
    ensures Advanced(s, started, [out] + outs) == Advanced(Advanced(s, started, [out]), StartedNow(started, out), outs)
  {
    forall k: Kind ensures CountOf([out] + outs, k) == CountOf([out], k) + CountOf(outs, k) { CountCons(out, outs, k); }
    ConcealmentsCons(started, out, outs);
  }

  /** Over any run, every counter has counted exactly the outcomes it is named after. */
  lemma {:induction false} CountersTellOutcomes(b: Ring, ops: seq<Op>)
    requires b.Valid()
    ensures var (b', outs) := RingRun(b, ops);
            b'.stats == Stats(b.stats.received + CountOf(outs, Receipts), b.stats.late + CountOf(outs, Lates),
                              b.stats.duplicates + CountOf(outs, Duplicates), b.stats.concealed + Concealments(b.started, outs),
                              b.stats.played + CountOf(outs, Plays), b.stats.resets + CountOf(outs, Resets))
    decreases ops
  {
    if ops != [] {
      var (b1, out) := RingStep(b, ops[0]);
      StepAdvances(b, ops[0]);
      CountersTellOutcomes(b1, ops[1..]);
      AdvancedCons(b.stats, b.started, out, RingRun(b1, ops[1..]).1);
    }
  }

  /** With arrivals in the window nothing is ever overwritten. */
  lemma {:induction false} NothingOverwrittenInWindow(b: Ring, t: Timeline, ops: seq<Op>)
    requires Tracks(b, t) && ArrivalsInWindow(t, ops)
    ensures RunTally(b, ops).overwritten == 0
    decreases ops
  {
    if ops != [] {
      StepTracks(b, t, ops[0]);
      if ops[0].PushOp? && t.started && t.rd <= ops[0].g {
        HoldsIffInMap(b, t, ops[0].g);
      }
      NothingOverwrittenInWindow(RingStep(b, ops[0]).0, MapStep(t, ops[0]).0, ops[1..]);
    }
  }

  /** From a new buffer, with arrivals in the window: the counters and the slots balance. */
  lemma ReceivedBalances(ops: seq<Op>)
    requires ArrivalsInWindow(NEW_TIMELINE, ops)
    ensures var (b, n) := (RingRun(NEW_RING, ops).0, RunTally(NEW_RING, ops));
            b.stats.received == b.stats.played + n.skipped + Resident(b.slots) + n.discarded
  {
    NewRingTracks();
    NoneResident(NEW_RING.slots);
    FramesAreConserved(NEW_RING, ops);
    NothingOverwrittenInWindow(NEW_RING, NEW_TIMELINE, ops);
  }

  /** "Whatever was here is either consumed or at least a full ring older than the incoming packet": when a
      push overwrites a frame, with the two numbers within a signed 16-bit distance of each other, this holds
      exactly when the stamp in the slot is not newer than the incoming number. */
  lemma OverwrittenIsOlderIff(b: Ring, resident: int, g: int, p: Packet)
    requires b.Valid() && RingStep(b, PushOp(g, p)).1 == Pushed(Stored)
    requires b.slots[Index(g)].Holds(Wrap(resident)) && Index(resident) == Index(g)
    requires -0x8000 <= resident - g <= 0x7fff
    ensures StepTally(b, PushOp(g, p)).overwritten == 1
    ensures resident <= g - SLOTS <==> !NewerThan(b.slots[Index(g)].seqno, Wrap(g))
  {
    IndexOfWrap(g);
    NewerThanIsTrueOrder(resident, g);
    if -SLOTS <= resident - g <= SLOTS { IndexInjective(resident, g); }
  }

  /** At half the sequence space the stamps decide wrongly: in every running state with nothing stored there
      yet, a packet exactly 32768 ahead of the read position is stored, the packet at the read position then
      overwrites it, and its stamp is not newer although its number is. */
  lemma HalfSpaceAheadLooksOlder(b: Ring, t: Timeline, p: Packet, q: Packet)
    requires Tracks(b, t) && t.started && t.rd !in t.frames && |p.data| <= MAX_FRAME_BYTES && |q.data| <= MAX_FRAME_BYTES
    ensures var ahead, atRead := PushOp(t.rd + 0x8000, q), PushOp(t.rd, p);
            var (b1, out1) := RingStep(b, ahead);
            && out1 == RingStep(b1, atRead).1 == Pushed(Stored)
            && StepTally(b1, atRead).overwritten == 1
            && b1.slots[Index(t.rd)].Holds(Wrap(t.rd + 0x8000)) && !NewerThan(Wrap(t.rd + 0x8000), Wrap(t.rd))
  {
    HoldsIffInMap(b, t, t.rd);
    IndexOfWrap(t.rd + 0x8000);
    RemainderOf((t.rd + 0x8000) / SLOTS, (t.rd + 0x8000) % SLOTS);
    NewerThanIsTrueOrder(t.rd, t.rd + 0x8000);
    NewerThanIsTrueOrder(t.rd + 0x8000, t.rd);
    NewerThanIsTrueOrder(t.rd, t.rd);
    WrapInjectiveNearby(t.rd + 0x8000, t.rd);
  }

  /** The window cannot be widened: in every running state, a packet exactly a ring ahead of the read
      position is accepted, and the packet at the read position, though not late, then overwrites it. */
  lemma WindowIsTight(b: Ring, t: Timeline, p: Packet, q: Packet)
    requires Tracks(b, t) && t.started && |p.data| <= MAX_FRAME_BYTES && |q.data| <= MAX_FRAME_BYTES
    ensures var ahead, atRead := PushOp(t.rd + SLOTS, q), PushOp(t.rd, p);
            var (b1, out1) := RingStep(b, ahead);
            var (b2, out2) := RingStep(b1, atRead);
            && out1 == out2 == Pushed(Stored)
            && StepTally(b, ahead).overwritten == (if t.rd in t.frames then 1 else 0)
            && StepTally(b1, atRead).overwritten == 1
            && b1.slots[Index(t.rd)].Holds(Wrap(t.rd + SLOTS))
            && !b2.slots[Index(t.rd)].Holds(Wrap(t.rd + SLOTS))
  {
    HoldsIffInMap(b, t, t.rd);
    IndexOfWrap(t.rd + SLOTS);
    IndexInjective(t.rd + SLOTS, t.rd);
    WrapInjectiveNearby(t.rd + SLOTS, t.rd);
    NewerThanIsTrueOrder(t.rd, t.rd + SLOTS);
    NewerThanIsTrueOrder(t.rd, t.rd);
  }
}
