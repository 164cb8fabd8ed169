/** The jitter buffer shared by the two threads, with the read position: the writer's late check comes before
    its accesses to the slot, and the reader's position moves on after its own
    (crates/jam-audio/src/jitter.rs:136-246). */
module JitterFlow {
  import opened Common
  import opened Seq16
  import opened Jitter
  import opened Timeline
  import opened JitterRace

  /** `rd` is the number read next; `checked` is a push that has passed the late check and not yet looked at its
      slot; `popping` holds from the reader's first access to a slot until it has moved on. */
  datatype Flow = Flow(s: System, started: bool, rd: int, checked: Option<Req>, popping: bool)

  datatype Move = Check(p: Req) | Begin | Write | Pop | SkipOver | Read | Advance

  predicate Can(f: Flow, m: Move) {
    match m
    case Check(p) => f.s.writer.Resting? && f.checked.None? && p.Fits()
    case Begin => f.s.writer.Resting? && f.checked.Some? && f.checked.value.Fits()
    case Write => f.s.writer.Busy()
    case Pop => f.started && !f.popping && f.s.reader.Idle()
    case SkipOver => f.started && !f.popping && f.s.reader.Idle()
    case Read => !f.s.reader.Idle()
    case Advance => f.popping && f.s.reader.Returned?
  }

  function Moved(f: Flow, m: Move): (r: Flow)
    requires Sized(f.s) && Can(f, m)
    ensures Sized(r.s)
  {
    match m
    case Check(p) =>
      if !f.started then f.(started := true, rd := p.g, checked := Some(p))
      else if NewerThan(Wrap(f.rd), p.Seqno()) then f
      else f.(checked := Some(p))
    case Begin => f.(s := Next(f.s, StartPush(f.checked.value)), checked := None)
    case Write => f.(s := Next(f.s, WriterStep))
    case Pop => f.(s := Next(f.s, StartTake(Wrap(f.rd))), popping := true)
    case SkipOver => f.(s := Next(f.s, StartSkip(Wrap(f.rd))), popping := true)
    case Read => f.(s := Next(f.s, ReaderStep))
    case Advance => f.(rd := f.rd + 1, popping := false)
  }

  /** Arrivals are less than a ring ahead of the read position and less than half the sequence space behind. */
  predicate Timely(f: Flow, m: Move) {
    m.Check? && f.started ==> f.rd - 0x7fff <= m.p.g < f.rd + SLOTS
  }

  predicate InFlight(f: Flow, g: int) {
    (f.checked.Some? && f.checked.value.g == g) || (f.s.writer.Busy() && f.s.writer.p.g == g)
  }

  function SlotAtRead(f: Flow): Slot
    requires Sized(f.s)
  {
    f.s.slots[Index(f.rd)]
  }

  /** The reader moves on without leaving its frame behind, stored or about to be. */
  predicate Clean(f: Flow, m: Move)
    requires Sized(f.s)
  {
    m.Advance? ==> !InFlight(f, f.rd) && !SlotAtRead(f).Holds(Wrap(f.rd))
  }

  predicate Lawful(f: Flow, ms: seq<Move>)
    requires Sized(f.s)
    decreases ms
  {
    ms != [] ==> Can(f, ms[0]) && Timely(f, ms[0]) && Lawful(Moved(f, ms[0]), ms[1..])
  }

  function Flowed(f: Flow, ms: seq<Move>): (r: Flow)
    requires Sized(f.s) && Lawful(f, ms)
    ensures Sized(r.s)
    decreases ms
  {
    if ms == [] then f else Flowed(Moved(f, ms[0]), ms[1..])
  }

  predicate AllClean(f: Flow, ms: seq<Move>)
    requires Sized(f.s) && Lawful(f, ms)
    decreases ms
  {
    ms != [] ==> Clean(f, ms[0]) && AllClean(Moved(f, ms[0]), ms[1..])
  }

  // ---------------------------------------------------------------- the invariant

  predicate Near(f: Flow, g: int) { f.rd <= g < f.rd + SLOTS }

  /** What was begun in slot `i` is less than a ring ahead, and what it holds is not behind. */
  predicate SlotNear(f: Flow, i: nat)
    requires Sized(f.s) && i < SLOTS
  {
    && (f.s.begun[i].Some? ==> Index(f.s.begun[i].value) == i && f.s.begun[i].value < f.rd + SLOTS)
    && (f.s.slots[i].state.Written? ==> f.s.last[i].Some? && Near(f, f.s.last[i].value.g))
  }

  /** Nothing has happened yet. */
  predicate Untried(s: System)
    requires Sized(s)
  {
    s.writer.Resting? && s.reader.Waiting? && forall i | 0 <= i < SLOTS :: s.begun[i].None? && !s.slots[i].state.Written?
  }

  ghost predicate FlowInv(f: Flow) {
    && Inv(f.s)
    && (!f.started ==> Untried(f.s) && f.checked.None? && !f.popping)
    && (f.checked.Some? ==> f.s.writer.Resting? && f.checked.value.Fits() && Near(f, f.checked.value.g))
    && (f.s.writer.Busy() ==> Near(f, f.s.writer.p.g))
    && (!f.s.reader.Idle() ==> f.popping)
    && (f.popping && !f.s.reader.Waiting? ==> f.s.reader.e == Wrap(f.rd))
    && (f.s.reader.Committed() ==> f.s.found.Some? && f.s.found.value.g == f.rd)
    && forall i | 0 <= i < SLOTS :: SlotNear(f, i)
  }

  /** Numbers less than a ring apart are equal if they share a slot. */
  lemma SameSlot(g: int, h: int)
    requires -SLOTS < g - h < SLOTS && Index(g) == Index(h)
    ensures g == h
  {
    IndexInjective(g, h);
  }

  lemma NeverLaps(f: Flow)
    requires FlowInv(f)
    ensures NoLap(f.s)
  {
    if f.s.reader.Committed() { assert SlotNear(f, f.s.reader.e % SLOTS); }
  }

  /** The slot at the read position holds the frame to be read, or nothing. */
  lemma NeverStaleHere(f: Flow)
    requires FlowInv(f) && !f.s.reader.Idle() && SlotAtRead(f).state.Written?
    ensures SlotAtRead(f).seqno == Wrap(f.rd) == f.s.reader.e && f.s.last[Index(f.rd)].Some? && f.s.last[Index(f.rd)].value.g == f.rd
  {
    assert SlotInv(f.s, Index(f.rd)) && SlotNear(f, Index(f.rd));
    SameSlot(f.s.last[Index(f.rd)].value.g, f.rd);
  }

  lemma BeginKeepsInv(f: Flow)
    requires FlowInv(f) && Can(f, Begin)
    ensures FlowInv(Moved(f, Begin))
  {
    var p := f.checked.value;
    assert SlotNear(f, p.At());
    if f.s.begun[p.At()].Some? && f.s.begun[p.At()].value > p.g { SameSlot(f.s.begun[p.At()].value, p.g); }
    StartKeepsInv(f.s, StartPush(p));
    forall i | 0 <= i < SLOTS ensures SlotNear(Moved(f, Begin), i) { assert SlotNear(f, i); }
  }

  lemma CheckKeepsInv(f: Flow, p: Req)
    requires FlowInv(f) && Can(f, Check(p)) && Timely(f, Check(p))
    ensures FlowInv(Moved(f, Check(p)))
  {
    NewerThanIsTrueOrder(f.rd, p.g);
    forall i | 0 <= i < SLOTS ensures SlotNear(Moved(f, Check(p)), i) { assert SlotNear(f, i); }
  }

  lemma WriteKeepsInv(f: Flow)
    requires FlowInv(f) && Can(f, Write)
    ensures FlowInv(Moved(f, Write))
  {
    NeverLaps(f);
    WriterKeepsInv(f.s);
    forall i | 0 <= i < SLOTS ensures SlotNear(Moved(f, Write), i) { assert SlotNear(f, i); }
  }

  lemma ReadKeepsInv(f: Flow)
    requires FlowInv(f) && Can(f, Read)
    ensures FlowInv(Moved(f, Read))
  {
    IndexOfWrap(f.rd);
    if SlotAtRead(f).state.Written? { NeverStaleHere(f); }
    NeverLaps(f);
    ReaderKeepsInv(f.s);
    forall i | 0 <= i < SLOTS ensures SlotNear(Moved(f, Read), i) { assert SlotNear(f, i); }
  }

  lemma PopKeepsInv(f: Flow, m: Move)
    requires FlowInv(f) && Can(f, m) && (m.Pop? || m.SkipOver?)
    ensures FlowInv(Moved(f, m))
  {
    StartKeepsInv(f.s, if m.Pop? then StartTake(Wrap(f.rd)) else StartSkip(Wrap(f.rd)));
    forall i | 0 <= i < SLOTS ensures SlotNear(Moved(f, m), i) { assert SlotNear(f, i); }
  }

  lemma AdvanceKeepsInv(f: Flow)
    requires FlowInv(f) && Can(f, Advance) && Clean(f, Advance)
    ensures FlowInv(Moved(f, Advance))
  {
    forall i | 0 <= i < SLOTS ensures SlotNear(Moved(f, Advance), i) {
      assert SlotNear(f, i) && SlotInv(f.s, i);
    }
  }

  lemma MoveKeepsInv(f: Flow, m: Move)
    requires FlowInv(f) && Can(f, m) && Timely(f, m) && Clean(f, m)
    ensures FlowInv(Moved(f, m))
  {
    match m
    case Check(p) => CheckKeepsInv(f, p);
    case Begin => BeginKeepsInv(f);
    case Write => WriteKeepsInv(f);
    case Read => ReadKeepsInv(f);
    case Advance => AdvanceKeepsInv(f);
    case _ => PopKeepsInv(f, m);
  }

  /** With arrivals in the window, torn frames need a frame left behind: as long as the reader never moves past
      a frame that is stored or about to be stored under its number, whatever it returns is exactly one
      completed push of the number it asked for. Order of pushes, laps and staleness need no hypothesis. */
  lemma {:induction false} CleanRunsAreIntact(f: Flow, ms: seq<Move>)
    requires FlowInv(f) && Lawful(f, ms) && AllClean(f, ms)
    ensures FlowInv(Flowed(f, ms)) && Intact(Flowed(f, ms).s)
    decreases ms
  {
    if ms != [] {
      MoveKeepsInv(f, ms[0]);
      CleanRunsAreIntact(Moved(f, ms[0]), ms[1..]);
    }
  }

  // ---------------------------------------------------------------- what the reader is given

  /** A frame the reader returned, and the read position it was returned for. */
  datatype Delivery = Delivery(g: int, frame: Copy)

  function Delivered(f: Flow, m: Move): seq<Delivery> {
    if m.Read? && f.s.reader.Release? then [Delivery(f.rd, f.s.reader.c)] else []
  }

  /** All frames returned in a run, in order. */
  function Deliveries(f: Flow, ms: seq<Move>): seq<Delivery>
    requires Sized(f.s) && Lawful(f, ms)
    decreases ms
  {
    if ms == [] then [] else Delivered(f, ms[0]) + Deliveries(Moved(f, ms[0]), ms[1..])
  }

  /** It is, entirely, a completed push of its number. */
  ghost predicate Sent(d: Delivery, completed: set<Req>) {
    exists q :: q in completed && q.g == d.g && Matches(d.frame, q)
  }

  /** The least number the reader can still return a frame of. */
  function Pending(f: Flow): int { if f.popping && f.s.reader.Returned? then f.rd + 1 else f.rd }

  lemma MoveDelivers(f: Flow, m: Move)
    requires FlowInv(f) && Can(f, m) && Timely(f, m) && Clean(f, m) && f.started
    ensures Pending(f) <= Pending(Moved(f, m)) && f.s.completed <= Moved(f, m).s.completed && Moved(f, m).started
    ensures Delivered(f, m) != [] ==> Pending(f) == f.rd < Pending(Moved(f, m)) && Sent(Delivered(f, m)[0], f.s.completed)
  {
    if m.Read? && f.s.reader.Release? {
      assert f.s.found.value in f.s.completed && Matches(f.s.reader.c, f.s.found.value);
    }
  }

  /** Completed pushes of strictly increasing numbers, from `least` on. */
  ghost predicate InOrderFrom(ds: seq<Delivery>, least: int, completed: set<Req>) {
    && (forall i | 0 <= i < |ds| :: least <= ds[i].g && Sent(ds[i], completed))
    && (forall i, j | 0 <= i < j < |ds| :: ds[i].g < ds[j].g)
  }

  lemma DeliverFirst(ds: seq<Delivery>, rest: seq<Delivery>, least: int, next: int, before: set<Req>, completed: set<Req>)
    requires InOrderFrom(rest, next, completed) && least <= next && before <= completed && |ds| <= 1
    requires ds != [] ==> least <= ds[0].g < next && Sent(ds[0], before)
    ensures InOrderFrom(ds + rest, least, completed)
  {
    if ds != [] {
      assert Sent(ds[0], completed);
      assert (ds + rest)[0] == ds[0] && (ds + rest)[1..] == rest;
      assert forall i | 0 < i < |ds + rest| :: (ds + rest)[i] == rest[i - 1];
    } else {
      assert ds + rest == rest;
    }
  }

  lemma {:induction false} DeliveriesFollow(f: Flow, ms: seq<Move>)
    requires FlowInv(f) && Lawful(f, ms) && AllClean(f, ms) && f.started
    ensures InOrderFrom(Deliveries(f, ms), Pending(f), Flowed(f, ms).s.completed)
    ensures f.s.completed <= Flowed(f, ms).s.completed
    decreases ms
  {
    if ms != [] {
      var f1 := Moved(f, ms[0]);
      MoveKeepsInv(f, ms[0]);
      MoveDelivers(f, ms[0]);
      DeliveriesFollow(f1, ms[1..]);
      DeliverFirst(Delivered(f, ms[0]), Deliveries(f1, ms[1..]), Pending(f), Pending(f1), f.s.completed, Flowed(f, ms).s.completed);
    }
  }

  /** From a new buffer, over every clean run with arrivals in the window, however pushes and pops interleave:
      the frames returned are completed pushes of strictly increasing numbers, so each comes at most once and
      none out of order. */
  lemma FramesComeInOrder(ms: seq<Move>)
    requires Lawful(Flow(START, false, 0, None, false), ms) && AllClean(Flow(START, false, 0, None, false), ms)
    ensures var f := Flow(START, false, 0, None, false);
            var (ds, completed) := (Deliveries(f, ms), Flowed(f, ms).s.completed);
            && (forall i | 0 <= i < |ds| :: Sent(ds[i], completed))
            && forall i, j | 0 <= i < j < |ds| :: ds[i].g < ds[j].g
  {
    var f := Flow(START, false, 0, None, false);
    StartFlowInv(f);
    if ms != [] {
      assert ms[0].Check? && Delivered(f, ms[0]) == [];
      MoveKeepsInv(f, ms[0]);
      DeliveriesFollow(Moved(f, ms[0]), ms[1..]);
      assert [] + Deliveries(Moved(f, ms[0]), ms[1..]) == Deliveries(Moved(f, ms[0]), ms[1..]);
    }
  }

  // ---------------------------------------------------------------- pops apart from the push of their number

  /** While the reader is at work on a number, no push of that number is. */
  predicate Apart(f: Flow) { f.popping ==> !InFlight(f, f.rd) }

  predicate AllApart(f: Flow, ms: seq<Move>)
    requires Sized(f.s) && Lawful(f, ms)
    decreases ms
  {
    Apart(f) && (ms != [] ==> AllApart(Moved(f, ms[0]), ms[1..]))
  }

  /** The reader has found the frame and not yet emptied the slot. */
  predicate Found(r: Reader) { r.Committed() || r.SkipSeq? || r.SkipRelease? }

  /** What the reader's progress says about the slot at the read position. */
  predicate Settled(f: Flow)
    requires Sized(f.s)
  {
    f.popping ==>
      && (Found(f.s.reader) ==> SlotAtRead(f).Holds(Wrap(f.rd)))
      && (f.s.reader.Returned? ==> !SlotAtRead(f).Holds(Wrap(f.rd)))
  }

  /** Pushes of other numbers go to other slots. */
  lemma OthersWriteElsewhere(f: Flow)
    requires FlowInv(f) && Can(f, Write) && f.popping && Apart(f)
    ensures SlotAtRead(Moved(f, Write)) == SlotAtRead(f) && Moved(f, Write).s.last[Index(f.rd)] == f.s.last[Index(f.rd)]
  {
    if f.s.writer.p.At() == Index(f.rd) { SameSlot(f.s.writer.p.g, f.rd); }
  }

  /** What a take has found is still there. */
  lemma FoundIsHere(f: Flow)
    requires FlowInv(f) && f.s.reader.Committed() && SlotAtRead(f).Holds(Wrap(f.rd))
    ensures f.s.last[Index(f.rd)] == f.s.found && Untouched(f.s, Index(f.rd)) && Carries(SlotAtRead(f), f.s.found.value)
  {
    IndexOfWrap(f.rd);
    NeverStaleHere(f);
    assert SlotInv(f.s, Index(f.rd));
  }

  lemma ReadSettles(f: Flow)
    requires FlowInv(f) && Can(f, Read) && Settled(f)
    ensures Settled(Moved(f, Read))
  {
    IndexOfWrap(f.rd);
    if SlotAtRead(f).state.Written? { NeverStaleHere(f); }
    if f.s.reader.Committed() { FoundIsHere(f); }
  }

  lemma MoveSettles(f: Flow, m: Move)
    requires FlowInv(f) && Can(f, m) && Settled(f) && Apart(f)
    ensures Settled(Moved(f, m))
  {
    match m
    case Read => ReadSettles(f);
    case Write => if f.popping { OthersWriteElsewhere(f); }
    case _ =>
  }

  /** If no push of a number is ever at work while the reader is at that number, no frame is left behind, and
      so no frame is ever torn. */
  lemma {:induction false} ApartRunsAreClean(f: Flow, ms: seq<Move>)
    requires FlowInv(f) && Settled(f) && Lawful(f, ms) && AllApart(f, ms)
    ensures AllClean(f, ms) && Intact(Flowed(f, ms).s)
    decreases ms
  {
    if ms != [] {
      MoveKeepsInv(f, ms[0]);
      MoveSettles(f, ms[0]);
      ApartRunsAreClean(Moved(f, ms[0]), ms[1..]);
    }
  }

  /** A pop in progress, on a slot that held `had` when it began. */
  predicate Popping(f: Flow, had: Option<Req>)
    requires Sized(f.s)
  {
    && f.popping && (f.s.reader.TakeState? || f.s.reader.Committed() || f.s.reader.Returned?) && f.s.reader.e == Wrap(f.rd)
    && (f.s.reader.TakeState? ==> HeldAtRead(f) == had)
    && (f.s.reader.Committed() ==> had.Some? && f.s.found == had)
    && (f.s.reader.Returned? ==>
          (f.s.reader.frame.Some? <==> had.Some?) && (had.Some? ==> Matches(f.s.reader.frame.value, had.value)))
  }

  /** The push whose frame is stored at the read position. */
  function HeldAtRead(f: Flow): Option<Req>
    requires Sized(f.s)
  {
    if SlotAtRead(f).state.Written? then f.s.last[Index(f.rd)] else None
  }

  lemma ReadKeepsPopping(f: Flow, had: Option<Req>)
    requires FlowInv(f) && Settled(f) && Popping(f, had) && Can(f, Read)
    ensures Popping(Moved(f, Read), had)
  {
    IndexOfWrap(f.rd);
    if SlotAtRead(f).state.Written? { NeverStaleHere(f); }
    if f.s.reader.Committed() { FoundIsHere(f); }
  }

  lemma MoveKeepsPopping(f: Flow, m: Move, had: Option<Req>)
    requires FlowInv(f) && Settled(f) && Apart(f) && Popping(f, had) && Can(f, m) && !m.Advance?
    ensures Popping(Moved(f, m), had)
  {
    match m
    case Read => ReadKeepsPopping(f, had);
    case Write => OthersWriteElsewhere(f);
    case _ =>
  }

  /** A pop is not disturbed by pushes of other numbers in the window, however they interleave with it: it
      returns a frame exactly if one was stored when it began, and then that frame. */
  lemma {:induction false} UndisturbedPop(f: Flow, ms: seq<Move>, had: Option<Req>)
    requires FlowInv(f) && Settled(f) && Popping(f, had) && Lawful(f, ms) && AllApart(f, ms) && Advance !in ms
    ensures Popping(Flowed(f, ms), had)
    decreases ms
  {
    if ms != [] {
      MoveKeepsInv(f, ms[0]);
      MoveSettles(f, ms[0]);
      MoveKeepsPopping(f, ms[0], had);
      UndisturbedPop(Moved(f, ms[0]), ms[1..], had);
    }
  }

  lemma UndisturbedPopReturnsStored(f: Flow, ms: seq<Move>)
    requires FlowInv(f) && Can(f, Pop) && Lawful(f, [Pop] + ms) && AllApart(f, [Pop] + ms) && Advance !in ms
    requires Flowed(f, [Pop] + ms).s.reader.Returned?
    ensures var frame := Flowed(f, [Pop] + ms).s.reader.frame;
            && (frame.Some? <==> HeldAtRead(f).Some?)
            && (frame.Some? ==> HeldAtRead(f).value.g == f.rd && Matches(frame.value, HeldAtRead(f).value))
  {
    assert ([Pop] + ms)[1..] == ms;
    MoveKeepsInv(f, Pop);
    var f1 := Moved(f, Pop);
    if SlotAtRead(f1).state.Written? { NeverStaleHere(f1); }
    UndisturbedPop(f1, ms, HeldAtRead(f));
  }

  lemma StartFlowInv(f: Flow)
    requires f == Flow(START, false, 0, None, false)
    ensures FlowInv(f) && Settled(f)
  {
  }

  /** From a new buffer, with arrivals in the window: no frame is torn as long as the reader leaves none behind,
      in particular if it is never at work on a number while a push of that number is. */
  lemma NoTornFramesInWindow(ms: seq<Move>)
    requires Lawful(Flow(START, false, 0, None, false), ms)
    requires AllClean(Flow(START, false, 0, None, false), ms) || AllApart(Flow(START, false, 0, None, false), ms)
    ensures Intact(Flowed(Flow(START, false, 0, None, false), ms).s)
  {
    var f := Flow(START, false, 0, None, false);
    StartFlowInv(f);
    if AllApart(f, ms) { ApartRunsAreClean(f, ms); }
    CleanRunsAreIntact(f, ms);
  }

  // ---------------------------------------------------------------- a frame left behind

  ghost predicate Leads(f: Flow, g: Flow)
    requires Sized(f.s)
  {
    exists ms :: Lawful(f, ms) && Flowed(f, ms) == g
  }

  lemma {:induction false} FlowSnoc(f: Flow, ms: seq<Move>, m: Move)
    requires Sized(f.s) && Lawful(f, ms) && Can(Flowed(f, ms), m) && Timely(Flowed(f, ms), m)
    ensures Lawful(f, ms + [m]) && Flowed(f, ms + [m]) == Moved(Flowed(f, ms), m)
    decreases ms
  {
    if ms == [] {
      assert [m][1..] == [];
      assert ms + [m] == [m];
    } else {
      assert (ms + [m])[1..] == ms[1..] + [m];
      FlowSnoc(Moved(f, ms[0]), ms[1..], m);
    }
  }

  lemma Lead(f: Flow, g: Flow, m: Move) returns (g': Flow)
    requires Sized(f.s) && Sized(g.s) && Leads(f, g) && Can(g, m) && Timely(g, m)
    ensures g' == Moved(g, m) && Sized(g'.s) && Leads(f, g')
  {
    var ms :| Lawful(f, ms) && Flowed(f, ms) == g;
    FlowSnoc(f, ms, m);
    g' := Moved(g, m);
  }

  lemma LeadWrite(f: Flow, g: Flow) returns (g': Flow)
    requires Sized(f.s) && Sized(g.s) && Leads(f, g) && g.s.writer.Busy()
    ensures g' == g.(s := WriterMove(g.s)) && Leads(f, g')
  {
    g' := Lead(f, g, Write);
  }

  lemma LeadRead(f: Flow, g: Flow) returns (g': Flow)
    requires Sized(f.s) && Sized(g.s) && Leads(f, g) && !g.s.reader.Idle()
    ensures g' == g.(s := ReaderMove(g.s)) && Leads(f, g')
  {
    g' := Lead(f, g, Read);
  }

  lemma LeadPop(f: Flow, g: Flow) returns (g': Flow)
    requires Sized(f.s) && Sized(g.s) && Leads(f, g) && g.started && !g.popping && g.s.reader.Idle()
    ensures g' == g.(s := g.s.(reader := TakeState(Wrap(g.rd)), found := None), popping := true) && Sized(g'.s) && Leads(f, g')
  {
    g' := Lead(f, g, Pop);
  }

  lemma LeadOn(f: Flow, g: Flow) returns (g': Flow)
    requires Sized(f.s) && Sized(g.s) && Leads(f, g) && g.popping && g.s.reader.Returned?
    ensures g' == g.(rd := g.rd + 1, popping := false) && Leads(f, g')
  {
    g' := Lead(f, g, Advance);
  }

  const FIRST := Req(0, 0, [])
  const LATER := Req(64, 0, [0])

  /** The first packet has claimed its slot and is being stored. */
  ghost predicate Storing(f: Flow) {
    && Sized(f.s) && f.started && f.checked.None? && !f.popping && f.s.reader.Idle() && f.s.writer == StoreSeq(FIRST)
    && f.s.completed == {} && f.s.begun[0] == Some(0) && forall i | 0 <= i < SLOTS :: !f.s.slots[i].state.Written?
  }

  lemma BeginStoring(f: Flow) returns (g: Flow)
    requires f == Flow(START, false, 0, None, false)
    ensures Leads(f, g) && Storing(g) && g.rd == 0
  {
    assert Lawful(f, []) && Flowed(f, []) == f;
    g := Lead(f, f, Check(FIRST));
    g := Lead(f, g, Begin);
    g := LeadWrite(f, g);
    assert g.s.writer == Claim(FIRST) && g.s.slots == START.slots;
    g := LeadWrite(f, g);
  }

  /** The reader finds its slot not yet written and moves on. */
  lemma PassBy(f: Flow, g: Flow) returns (g': Flow)
    requires Sized(f.s) && Leads(f, g) && Storing(g) && g.rd == 0
    ensures Leads(f, g') && Storing(g') && g'.rd == 1
  {
    g' := LeadPop(f, g);
    g' := LeadRead(f, g');
    g' := LeadOn(f, g');
  }

  /** The first packet, stored behind the read position. */
  ghost predicate LeftBehind(f: Flow, n: int) {
    && Sized(f.s) && f.started && f.rd == n && f.checked.None? && !f.popping && f.s.reader.Idle() && f.s.writer.Resting?
    && f.s.completed == {FIRST} && f.s.begun[0] == Some(0) && f.s.last[0] == Some(FIRST)
    && f.s.slots[0].Holds(0) && f.s.slots[0].len == 0
    && forall i | 0 < i < SLOTS :: !f.s.slots[i].state.Written?
  }

  lemma StoreHeader(f: Flow, g: Flow) returns (g': Flow)
    requires Sized(f.s) && Sized(g.s) && Leads(f, g) && g.s.writer == StoreSeq(FIRST)
    ensures Leads(f, g') && Sized(g'.s)
    ensures g' == g.(s := g.s.(slots := g.s.slots[0 := g.s.slots[0].(seqno := 0, timestamp := 0, len := 0)], writer := StoreByte(FIRST, 0)))
  {
    g' := LeadWrite(f, g);
    g' := LeadWrite(f, g');
    g' := LeadWrite(f, g');
  }

  lemma StoreBehind(f: Flow, g: Flow) returns (g': Flow)
    requires Sized(f.s) && Leads(f, g) && Storing(g) && g.rd == 1
    ensures Leads(f, g') && LeftBehind(g', 1)
  {
    g' := StoreHeader(f, g);
    g' := LeadWrite(f, g');
    g' := LeadWrite(f, g');
  }

  lemma MissOne(f: Flow, g: Flow, n: int) returns (g': Flow)
    requires Sized(f.s) && Leads(f, g) && LeftBehind(g, n) && 1 <= n < 64
    ensures Leads(f, g') && LeftBehind(g', n + 1)
  {
    g' := LeadPop(f, g);
    g' := LeadRead(f, g');
    g' := LeadOn(f, g');
  }

  /** The reader misses on, once around the ring. */
  lemma {:induction false} MissAround(f: Flow, g: Flow, n: int) returns (g': Flow)
    requires Sized(f.s) && Leads(f, g) && LeftBehind(g, n) && 1 <= n <= 64
    ensures Leads(f, g') && LeftBehind(g', 64)
    decreases 64 - n
  {
    if n == 64 {
      g' := g;
    } else {
      g' := MissOne(f, g, n);
      g' := MissAround(f, g', n + 1);
    }
  }

  /** The reader has come round to the slot and seen that it is written. */
  lemma Look(f: Flow, g: Flow) returns (g': Flow)
    requires Sized(f.s) && Leads(f, g) && LeftBehind(g, 64)
    ensures Leads(f, g') && g' == g.(s := g.s.(reader := TakeSeq(64), found := Some(FIRST)), popping := true)
  {
    g' := LeadPop(f, g);
    g' := LeadRead(f, g');
  }

  /** The packet that belongs there arrives and passes the late check. */
  lemma ArriveLater(f: Flow, g: Flow) returns (g': Flow)
    requires Sized(f.s) && Sized(g.s) && Leads(f, g) && g.started && g.rd == 64 && g.checked.None? && g.s.writer.Resting?
    ensures Leads(f, g') && g' == g.(s := g.s.(writer := LoadState(LATER), begun := g.s.begun[0 := Some(64)]))
  {
    g' := Lead(f, g, Check(LATER));
    g' := Lead(f, g', Begin);
  }

  lemma ClaimLater(f: Flow, g: Flow) returns (g': Flow)
    requires Sized(f.s) && Sized(g.s) && Leads(f, g) && g.s.writer == LoadState(LATER) && g.s.slots[0].Holds(0)
    ensures Leads(f, g') && g' == g.(s := g.s.(writer := Claim(LATER)))
  {
    g' := LeadWrite(f, g);
    g' := LeadWrite(f, g');
  }

  /** It claims the slot and stamps it. */
  lemma Stamp(f: Flow, g: Flow) returns (g': Flow)
    requires Sized(f.s) && Sized(g.s) && Leads(f, g) && g.s.writer == Claim(LATER)
    ensures Leads(f, g')
    ensures g' == g.(s := g.s.(slots := g.s.slots[0 := g.s.slots[0].(state := Writing, seqno := 64)], writer := StoreTime(LATER)))
  {
    g' := LeadWrite(f, g);
    g' := LeadWrite(f, g');
  }

  /** The reader accepts the number, and takes the length of the frame left behind. */
  lemma Mistake(f: Flow, g: Flow) returns (g': Flow)
    requires Sized(f.s) && Sized(g.s) && Leads(f, g) && g.s.reader == TakeSeq(64) && g.s.slots[0].seqno == 64 && g.s.slots[0].len == 0
    ensures Leads(f, g') && g' == g.(s := g.s.(reader := TakeTime(64, 0)))
  {
    g' := LeadRead(f, g);
    g' := LeadRead(f, g');
  }

  lemma Finish(f: Flow, g: Flow) returns (g': Flow)
    requires Sized(f.s) && Sized(g.s) && Leads(f, g) && g.s.writer == StoreTime(LATER) && g.s.slots[0].seqno == 64
    ensures Leads(f, g') && Sized(g'.s) && g'.s.writer.Resting? && g'.s.reader == g.s.reader
    ensures g'.s.slots[0].Holds(64) && g'.s.completed == g.s.completed + {LATER}
  {
    g' := LeadWrite(f, g);
    g' := LeadWrite(f, g');
    assert g'.s.writer == StoreByte(LATER, 0) && g'.s.slots[0].seqno == 64;
    g' := LeadWrite(f, g');
    g' := LeadWrite(f, g');
    assert g'.s.writer == Publish(LATER) && g'.s.slots[0].seqno == 64;
    g' := LeadWrite(f, g');
  }

  /** No bytes to copy: the take goes on to its rechecks. */
  lemma CopyNothing(f: Flow, g: Flow) returns (g': Flow)
    requires Sized(f.s) && Sized(g.s) && Leads(f, g) && g.s.reader == TakeTime(64, 0)
    ensures Leads(f, g') && g' == g.(s := g.s.(reader := RecheckState(64, Copy(0, g.s.slots[0].timestamp, []))))
  {
    g' := LeadRead(f, g);
    g' := LeadRead(f, g');
  }

  lemma Recheck(f: Flow, g: Flow, c: Copy) returns (g': Flow)
    requires Sized(f.s) && Sized(g.s) && Leads(f, g) && g.s.reader == RecheckState(64, c) && g.s.slots[0].Holds(64)
    ensures Leads(f, g') && g' == g.(s := g.s.(reader := Release(64, c)))
  {
    g' := LeadRead(f, g);
    g' := LeadRead(f, g');
  }

  lemma Accept(f: Flow, g: Flow) returns (g': Flow)
    requires Sized(f.s) && Sized(g.s) && Leads(f, g) && g.s.reader == TakeTime(64, 0) && g.s.slots[0].Holds(64)
    ensures Leads(f, g') && Sized(g'.s) && g'.s.completed == g.s.completed
    ensures g'.s.reader.Returned? && g'.s.reader.e == 64 && g'.s.reader.frame.Some? && g'.s.reader.frame.value.len == 0
  {
    g' := CopyNothing(f, g);
    g' := Recheck(f, g', g'.s.reader.c);
    g' := LeadRead(f, g');
  }

  /** A frame left behind can tear, with every arrival in the window and from a new buffer: the reader moves
      past packet 0 while it is being stored; 64 pops later packet 64 arrives between the two loads with which
      the take looks at its slot, and the take returns a frame with the number of one and the length of the
      other, which nobody sent. */
  lemma LeftBehindCanTear() returns (g: Flow)
    ensures Sized(g.s) && Leads(Flow(START, false, 0, None, false), g) && !Intact(g.s)
  {
    var f := Flow(START, false, 0, None, false);
    g := BeginStoring(f);
    g := PassBy(f, g);
    g := StoreBehind(f, g);
    g := MissAround(f, g, 1);
    g := Tear(f, g);
  }

  lemma Cross(f: Flow, g: Flow) returns (g': Flow)
    requires Sized(f.s) && Leads(f, g) && LeftBehind(g, 64)
    ensures Sized(g'.s) && Leads(f, g') && g'.s.completed == {FIRST}
    ensures g'.s.writer == StoreTime(LATER) && g'.s.reader == TakeTime(64, 0) && g'.s.slots[0].seqno == 64
  {
    g' := Look(f, g);
    g' := ArriveLater(f, g');
    g' := ClaimLater(f, g');
    g' := Stamp(f, g');
    g' := Mistake(f, g');
  }

  lemma Tear(f: Flow, g: Flow) returns (g': Flow)
    requires Sized(f.s) && Leads(f, g) && LeftBehind(g, 64)
    ensures Sized(g'.s) && Leads(f, g') && !Intact(g'.s)
  {
    g' := Cross(f, g);
    g' := Finish(f, g');
    g' := Accept(f, g');
    NobodySent(g'.s);
  }

  lemma NobodySent(s: System)
    requires s.completed == {FIRST, LATER} && s.reader.Returned? && s.reader.e == 64
    requires s.reader.frame.Some? && s.reader.frame.value.len == 0
    ensures !Intact(s)
  {
    assert FIRST.Seqno() == 0 && |LATER.data| == 1;
  }
}
