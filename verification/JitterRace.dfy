/** The jitter buffer shared by a receive thread that pushes and an audio callback that pops, one
    atomic access to a slot per step, in any interleaving (crates/jam-audio/src/jitter.rs:157-184 and
    :229-286). Memory is sequentially consistent. */
module JitterRace {
  import opened Common
  import opened Seq16
  import opened Jitter
  import opened Timeline

  /** A push: its unbounded sequence number, timestamp and payload. */
  datatype Req = Req(g: int, timestamp: u32, data: seq<byte>) {
    predicate Fits() { |data| <= MAX_FRAME_BYTES }
    function Seqno(): u16 { Wrap(g) }
    function At(): nat { Index(g) }
  }

  /** What the writer does next. */
  datatype Writer =
    | Resting
    | LoadState(p: Req) | LoadSeq(p: Req) | Claim(p: Req)
    | StoreSeq(p: Req) | StoreTime(p: Req) | StoreLen(p: Req) | StoreByte(p: Req, k: nat) | Publish(p: Req)
  {
    predicate Busy() { !Resting? }
    /** The slot has been claimed and not yet published. */
    predicate MidWrite() { Busy() && !LoadState? && !LoadSeq? && !Claim? }
  }

  datatype Copy = Copy(len: nat, timestamp: u32, bytes: seq<byte>)

  /** What the reader does next; `e` is the 16-bit number it reads. */
  datatype Reader =
    | Waiting
    | TakeState(e: u16) | TakeSeq(e: u16) | TakeLen(e: u16) | TakeTime(e: u16, len: nat) | TakeByte(e: u16, c: Copy)
    | RecheckState(e: u16, c: Copy) | RecheckSeq(e: u16, c: Copy) | Release(e: u16, c: Copy)
    | SkipState(e: u16) | SkipSeq(e: u16) | SkipRelease(e: u16)
    | Returned(e: u16, frame: Option<Copy>)
  {
    predicate Idle() { Waiting? || Returned? }
    /** Inside a take whose first load saw a written slot. */
    predicate Committed() { TakeSeq? || TakeLen? || TakeTime? || TakeByte? || RecheckState? || RecheckSeq? || Release? }
  }

  /** The shared slots, the two threads, and history: per slot, the last completed push and the highest
      number begun; all completed pushes; what the slot held when the current take first looked. */
  datatype System = System(
    slots: seq<Slot>, writer: Writer, reader: Reader,
    last: seq<Option<Req>>, begun: seq<Option<int>>, completed: set<Req>, found: Option<Req>)

  datatype Step = StartPush(p: Req) | WriterStep | StartTake(e: u16) | StartSkip(e: u16) | ReaderStep

  const START := System(seq(SLOTS, _ => EMPTY_SLOT), Resting, Waiting,
                        seq(SLOTS, _ => None), seq(SLOTS, _ => None), {}, None)

  predicate Sized(s: System) {
    && |s.slots| == |s.last| == |s.begun| == SLOTS
    && (forall i | 0 <= i < SLOTS :: |s.slots[i].payload| == MAX_FRAME_BYTES)
    && (s.writer.Busy() ==> s.writer.p.Fits())
    && (s.writer.StoreByte? ==> s.writer.k <= |s.writer.p.data|)
    && (s.reader.TakeByte? ==> |s.reader.c.bytes| <= s.reader.c.len <= MAX_FRAME_BYTES)
  }

  predicate Enabled(s: System, step: Step) {
    match step
    case StartPush(p) => s.writer.Resting? && p.Fits()
    case WriterStep => s.writer.Busy()
    case StartTake(e) => s.reader.Idle()
    case StartSkip(e) => s.reader.Idle()
    case ReaderStep => !s.reader.Idle()
  }

  function Put(s: System, i: nat, slot: Slot, w: Writer): System
    requires i < |s.slots|
  {
    s.(slots := s.slots[i := slot], writer := w)
  }

  function WriterMove(s: System): (r: System)
    requires Sized(s) && s.writer.Busy()
    ensures Sized(r) && r.reader == s.reader && r.begun == s.begun && r.found == s.found
  {
    var i := s.writer.p.At();
    var slot := s.slots[i];
    match s.writer
    case LoadState(p) => s.(writer := if slot.state.Written? then LoadSeq(p) else Claim(p))
    case LoadSeq(p) => s.(writer := if slot.seqno == p.Seqno() then Resting else Claim(p))
    case Claim(p) => Put(s, i, slot.(state := Writing), StoreSeq(p))
    case StoreSeq(p) => Put(s, i, slot.(seqno := p.Seqno()), StoreTime(p))
    case StoreTime(p) => Put(s, i, slot.(timestamp := p.timestamp), StoreLen(p))
    case StoreLen(p) => Put(s, i, slot.(len := |p.data|), StoreByte(p, 0))
    case StoreByte(p, k) =>
      if k == |p.data| then s.(writer := Publish(p))
      else Put(s, i, slot.(payload := slot.payload[k := p.data[k]]), StoreByte(p, k + 1))
    case Publish(p) =>
      Put(s, i, slot.(state := Written), Resting).(last := s.last[i := Some(p)], completed := s.completed + {p})
  }

  function ReaderMove(s: System): (r: System)
    requires Sized(s) && !s.reader.Idle()
    ensures Sized(r) && r.writer == s.writer && r.begun == s.begun && r.last == s.last && r.completed == s.completed
  {
    var i := s.reader.e % SLOTS;
    var slot := s.slots[i];
    match s.reader
    case TakeState(e) =>
      if slot.state.Written? then s.(reader := TakeSeq(e), found := s.last[i]) else s.(reader := Returned(e, None))
    case TakeSeq(e) => s.(reader := if slot.seqno == e then TakeLen(e) else Returned(e, None))
    case TakeLen(e) => s.(reader := TakeTime(e, slot.len))
    case TakeTime(e, len) =>
      s.(reader := if len > MAX_FRAME_BYTES then Returned(e, None) else TakeByte(e, Copy(len, slot.timestamp, [])))
    case TakeByte(e, c) =>
      if |c.bytes| == c.len then s.(reader := RecheckState(e, c))
      else s.(reader := TakeByte(e, c.(bytes := c.bytes + [slot.payload[|c.bytes|]])))
    case RecheckState(e, c) => s.(reader := if slot.state.Written? then RecheckSeq(e, c) else Returned(e, None))
    case RecheckSeq(e, c) => s.(reader := if slot.seqno == e then Release(e, c) else Returned(e, None))
    case Release(e, c) => s.(slots := s.slots[i := slot.(state := Empty)], reader := Returned(e, Some(c)))
    case SkipState(e) => s.(reader := if slot.state.Written? then SkipSeq(e) else Returned(e, None))
    case SkipSeq(e) => s.(reader := if slot.seqno == e then SkipRelease(e) else Returned(e, None))
    case SkipRelease(e) => s.(slots := s.slots[i := slot.(state := Empty)], reader := Returned(e, None))
  }

  function Next(s: System, step: Step): (r: System)
    requires Sized(s) && Enabled(s, step)
    ensures Sized(r)
  {
    match step
    case StartPush(p) => s.(writer := LoadState(p), begun := s.begun[p.At() := Some(p.g)])
    case WriterStep => WriterMove(s)
    case StartTake(e) => s.(reader := TakeState(e), found := None)
    case StartSkip(e) => s.(reader := SkipState(e), found := None)
    case ReaderStep => ReaderMove(s)
  }

  // ---------------------------------------------------------------- hypotheses on a run

  /** Pushes into one slot come in the order of their numbers: reordering stays under a ring. */
  predicate InOrder(s: System, step: Step)
    requires Sized(s)
  {
    step.StartPush? && s.begun[step.p.At()].Some? ==> s.begun[step.p.At()].value <= step.p.g
  }

  /** No push laps the 16-bit space while a take is at work on its slot. */
  predicate NoLap(s: System)
    requires Sized(s)
  {
    s.reader.Committed() && s.found.Some? && s.begun[s.reader.e % SLOTS].Some? ==>
      s.begun[s.reader.e % SLOTS].value < s.found.value.g + 0x1_0000
  }

  /** The slot the take is about to look at holds no other, stale frame. */
  predicate NotStale(s: System, step: Step)
    requires Sized(s)
  {
    step.ReaderStep? && s.reader.TakeState? ==>
      var slot := s.slots[s.reader.e % SLOTS];
      slot.state.Written? ==> slot.seqno == s.reader.e
  }

  predicate Allowed(s: System, steps: seq<Step>)
    requires Sized(s)
    decreases steps
  {
    steps != [] ==>
      && Enabled(s, steps[0]) && InOrder(s, steps[0]) && NoLap(Next(s, steps[0]))
      && Allowed(Next(s, steps[0]), steps[1..])
  }

  function Run(s: System, steps: seq<Step>): (r: System)
    requires Sized(s) && Allowed(s, steps)
    ensures Sized(r)
    decreases steps
  {
    if steps == [] then s else Run(Next(s, steps[0]), steps[1..])
  }

  predicate NeverStale(s: System, steps: seq<Step>)
    requires Sized(s) && Allowed(s, steps)
    decreases steps
  {
    steps != [] ==> NotStale(s, steps[0]) && NeverStale(Next(s, steps[0]), steps[1..])
  }

  // ---------------------------------------------------------------- the invariant

  /** The slot holds exactly the push `p`. */
  predicate Carries(slot: Slot, p: Req) {
    && slot.seqno == p.Seqno() && slot.timestamp == p.timestamp && slot.len == |p.data| <= |slot.payload|
    && slot.payload[..slot.len] == p.data
  }

  predicate SlotInv(s: System, i: nat)
    requires Sized(s) && i < SLOTS
  {
    && (s.last[i].Some? ==>
          && s.last[i].value in s.completed && s.last[i].value.At() == i
          && s.begun[i].Some? && s.last[i].value.g <= s.begun[i].value)
    && (s.slots[i].state.Written? ==> s.last[i].Some? && Carries(s.slots[i], s.last[i].value))
  }

  predicate WriterInv(s: System)
    requires Sized(s)
  {
    s.writer.Busy() ==>
      var p := s.writer.p;
      var slot := s.slots[p.At()];
      && s.begun[p.At()] == Some(p.g)
      && (s.writer.Claim? ==> !slot.Holds(p.Seqno()))
      && (s.writer.MidWrite() ==> !slot.state.Written?)
      && (s.writer.MidWrite() && !s.writer.StoreSeq? ==> slot.seqno == p.Seqno())
      && (s.writer.StoreLen? || s.writer.StoreByte? || s.writer.Publish? ==> slot.timestamp == p.timestamp)
      && (s.writer.StoreByte? ==> slot.len == |p.data| && slot.payload[..s.writer.k] == p.data[..s.writer.k])
      && (s.writer.Publish? ==> Carries(slot, p))
  }

  /** The slot still holds what the take found in it. */
  predicate Untouched(s: System, i: nat)
    requires Sized(s) && i < SLOTS
  {
    s.slots[i].state.Written? && s.last[i] == s.found
  }

  predicate Matches(c: Copy, q: Req) { c.len == |q.data| && c.timestamp == q.timestamp && c.bytes == q.data }

  predicate ReaderInv(s: System)
    requires Sized(s)
  {
    s.reader.Committed() ==>
      var i := s.reader.e % SLOTS;
      && s.found.Some? && s.found.value in s.completed && s.found.value.Seqno() == s.reader.e && s.found.value.At() == i
      && s.begun[i].Some?
      && var q := s.found.value;
         && (!Untouched(s, i) ==>
               && q.g < s.begun[i].value
               && (s.slots[i].state.Written? ==> s.last[i].Some? && q.g < s.last[i].value.g))
         && (s.reader.TakeTime? && Untouched(s, i) ==> s.reader.len == |q.data|)
         && (s.reader.TakeByte? && Untouched(s, i) ==>
               && s.reader.c.len == |q.data| && s.reader.c.timestamp == q.timestamp
               && s.reader.c.bytes == q.data[..|s.reader.c.bytes|])
         && (s.reader.RecheckState? && Untouched(s, i) ==> Matches(s.reader.c, q))
         && (s.reader.RecheckSeq? ==> Matches(s.reader.c, q) || s.slots[i].seqno != s.reader.e)
         && (s.reader.Release? ==> Matches(s.reader.c, q))
  }

  /** A frame the reader returned is, entirely, one completed push of the number it asked for. */
  ghost predicate Intact(s: System) {
    s.reader.Returned? && s.reader.frame.Some? ==>
      exists q :: q in s.completed && q.Seqno() == s.reader.e && Matches(s.reader.frame.value, q)
  }

  ghost predicate Inv(s: System) {
    && Sized(s)
    && (forall i | 0 <= i < SLOTS :: SlotInv(s, i))
    && WriterInv(s) && ReaderInv(s) && Intact(s)
  }

  lemma StartKeepsInv(s: System, step: Step)
    requires Inv(s) && Enabled(s, step) && InOrder(s, step) && !step.WriterStep? && !step.ReaderStep?
    ensures Inv(Next(s, step))
  {
    var s' := Next(s, step);
    forall i | 0 <= i < SLOTS ensures SlotInv(s', i) {
      assert SlotInv(s, i);
    }
  }

  lemma WriterKeepsSlots(s: System)
    requires Inv(s) && s.writer.Busy()
    ensures forall i | 0 <= i < SLOTS :: SlotInv(WriterMove(s), i)
  {
    forall i | 0 <= i < SLOTS ensures SlotInv(WriterMove(s), i) {
      assert SlotInv(s, i);
    }
  }

  lemma WriterKeepsWriterInv(s: System)
    requires Inv(s) && s.writer.Busy()
    ensures WriterInv(WriterMove(s))
  {
    assert SlotInv(s, s.writer.p.At());
  }

  lemma WriterElsewhere(s: System)
    requires Inv(s) && s.writer.Busy() && s.reader.Committed() && s.writer.p.At() != s.reader.e % SLOTS
    ensures ReaderInv(WriterMove(s))
  {
    var i := s.reader.e % SLOTS;
    assert WriterMove(s).slots[i] == s.slots[i] && WriterMove(s).last[i] == s.last[i];
  }

  lemma WriterPublishesHere(s: System)
    requires Inv(s) && s.writer.Publish? && NoLap(s) && s.reader.Committed() && s.writer.p.At() == s.reader.e % SLOTS
    ensures ReaderInv(WriterMove(s))
  {
    assert SlotInv(s, s.writer.p.At());
  }

  lemma WriterWorksHere(s: System)
    requires Inv(s) && s.writer.Busy() && !s.writer.Publish? && NoLap(s) && s.reader.Committed() && s.writer.p.At() == s.reader.e % SLOTS
    ensures ReaderInv(WriterMove(s))
  {
    IndexOfWrap(s.writer.p.g);
    assert SlotInv(s, s.writer.p.At());
  }

  lemma WriterKeepsReaderInv(s: System)
    requires Inv(s) && s.writer.Busy() && NoLap(s)
    ensures ReaderInv(WriterMove(s))
  {
    if s.reader.Committed() {
      if s.writer.p.At() != s.reader.e % SLOTS {
        WriterElsewhere(s);
      } else if s.writer.Publish? {
        WriterPublishesHere(s);
      } else {
        WriterWorksHere(s);
      }
    }
  }

  lemma WriterKeepsIntact(s: System)
    requires Inv(s) && s.writer.Busy()
    ensures Intact(WriterMove(s))
  {
    assert s.completed <= WriterMove(s).completed;
  }

  lemma WriterKeepsInv(s: System)
    requires Inv(s) && s.writer.Busy() && NoLap(s)
    ensures Inv(WriterMove(s))
  {
    WriterKeepsSlots(s);
    WriterKeepsWriterInv(s);
    WriterKeepsReaderInv(s);
    WriterKeepsIntact(s);
  }

  lemma ReaderKeepsSlots(s: System)
    requires Inv(s) && !s.reader.Idle()
    ensures forall i | 0 <= i < SLOTS :: SlotInv(ReaderMove(s), i)
  {
    forall i | 0 <= i < SLOTS ensures SlotInv(ReaderMove(s), i) {
      assert SlotInv(s, i);
    }
  }

  lemma ReaderKeepsWriterInv(s: System)
    requires Inv(s) && !s.reader.Idle()
    ensures WriterInv(ReaderMove(s))
  {
    if s.writer.Busy() { IndexOfWrap(s.writer.p.g); }
  }

  lemma ReaderKeepsInv(s: System)
    requires Inv(s) && !s.reader.Idle() && NoLap(s) && NotStale(s, ReaderStep)
    ensures Inv(ReaderMove(s))
  {
    ReaderKeepsSlots(s);
    ReaderKeepsWriterInv(s);
    ReaderKeepsReaderInv(s);
  }

  lemma ReaderKeepsReaderInv(s: System)
    requires Inv(s) && !s.reader.Idle() && NoLap(s) && NotStale(s, ReaderStep)
    ensures ReaderInv(ReaderMove(s)) && Intact(ReaderMove(s))
  {
    match s.reader
    case TakeState(e) => LookKeepsInv(s);
    case RecheckState(e, c) => RecheckKeepsInv(s);
    case Release(e, c) => assert Matches(c, s.found.value);
    case TakeSeq(_) => CopyingKeepsInv(s);
    case TakeLen(_) => CopyingKeepsInv(s);
    case TakeTime(_, _) => CopyingKeepsInv(s);
    case TakeByte(_, _) => CopyingKeepsInv(s);
    case _ =>
  }

  lemma LookKeepsInv(s: System)
    requires Inv(s) && s.reader.TakeState? && NotStale(s, ReaderStep)
    ensures ReaderInv(ReaderMove(s)) && Intact(ReaderMove(s))
  {
    assert SlotInv(s, s.reader.e % SLOTS);
  }

  lemma CopyingKeepsInv(s: System)
    requires Inv(s) && (s.reader.TakeSeq? || s.reader.TakeLen? || s.reader.TakeTime? || s.reader.TakeByte?)
    ensures ReaderInv(ReaderMove(s)) && Intact(ReaderMove(s))
  {
    assert SlotInv(s, s.reader.e % SLOTS);
  }

  /** A slot that was rewritten since the take looked at it now holds another number. */
  lemma RecheckKeepsInv(s: System)
    requires Inv(s) && s.reader.RecheckState? && NoLap(s)
    ensures ReaderInv(ReaderMove(s)) && Intact(ReaderMove(s))
  {
    var j := s.reader.e % SLOTS;
    assert SlotInv(s, j);
    if s.slots[j].state.Written? && !Untouched(s, j) {
      WrapInjectiveNearby(s.last[j].value.g, s.found.value.g);
    }
  }

  /** Safety for every interleaving: if pushes into a slot come in order, none laps the 16-bit space
      during a take, and no take starts on a stale frame, then every frame returned is exactly one
      completed push of the number asked for, never a mix of two. */
  lemma {:induction false} NoTornFrames(s: System, steps: seq<Step>)
    requires Inv(s) && NoLap(s) && Allowed(s, steps) && NeverStale(s, steps)
    ensures Inv(Run(s, steps)) && Intact(Run(s, steps))
    decreases steps
  {
    if steps != [] {
      match steps[0] {
        case WriterStep => WriterKeepsInv(s);
        case ReaderStep => ReaderKeepsInv(s);
        case _ => StartKeepsInv(s, steps[0]);
      }
      NoTornFrames(Next(s, steps[0]), steps[1..]);
    }
  }

  lemma NoTornFramesFromStart(steps: seq<Step>)
    requires Allowed(START, steps) && NeverStale(START, steps)
    ensures Intact(Run(START, steps))
  {
    NoTornFrames(START, steps);
  }

  // ---------------------------------------------------------------- the staleness condition is needed

  ghost predicate Reaches(s: System, t: System)
    requires Sized(s)
  {
    exists steps :: Allowed(s, steps) && Run(s, steps) == t
  }

  lemma {:induction false} RunSnoc(s: System, steps: seq<Step>, step: Step)
    requires Sized(s) && Allowed(s, steps)
    requires var t := Run(s, steps); Enabled(t, step) && InOrder(t, step) && NoLap(Next(t, step))
    ensures Allowed(s, steps + [step]) && Run(s, steps + [step]) == Next(Run(s, steps), step)
    decreases steps
  {
    if steps == [] {
      assert [step][1..] == [];
      assert steps + [step] == [step];
    } else {
      assert (steps + [step])[1..] == steps[1..] + [step];
      RunSnoc(Next(s, steps[0]), steps[1..], step);
    }
  }

  lemma Reach(s: System, t: System, step: Step) returns (t': System)
    requires Sized(s) && Sized(t) && Reaches(s, t)
    requires Enabled(t, step) && InOrder(t, step) && NoLap(Next(t, step))
    ensures t' == Next(t, step) && Sized(t') && Reaches(s, t')
  {
    var steps :| Allowed(s, steps) && Run(s, steps) == t;
    RunSnoc(s, steps, step);
    t' := Next(t, step);
  }

  /** With the writer at rest, the reader's copy loop runs to its end. */
  lemma {:induction false} ReachCopied(s: System, t: System, e: u16, c: Copy) returns (t': System, c': Copy)
    requires Sized(s) && Sized(t) && Reaches(s, t) && NoLap(t) && t.reader == TakeByte(e, c)
    ensures c'.len == c.len && c'.timestamp == c.timestamp
    ensures t' == t.(reader := RecheckState(e, c')) && Sized(t') && Reaches(s, t')
    decreases c.len - |c.bytes|
  {
    t' := Reach(s, t, ReaderStep);
    if |c.bytes| == c.len {
      c' := c;
    } else {
      t', c' := ReachCopied(s, t', e, t'.reader.c);
    }
  }

  /** The number with 16-bit image `e` that follows `g`. */
  function NumberAfter(g: int, e: u16): (n: int)
    requires Wrap(g) != e
    ensures g < n < g + 0x1_0000 && Wrap(n) == e
  {
    WrapSub(e, g);
    g + Wrap(e - g)
  }

  /** The writer performs a whole push of `p` up to storing the sequence number. */
  lemma ReachStamped(s: System, t: System, p: Req) returns (t': System)
    requires Sized(s) && Sized(t) && Reaches(s, t) && t.writer.Resting? && p.Fits()
    requires t.slots[p.At()].state.Written? && t.slots[p.At()].seqno != p.Seqno()
    requires t.reader.TakeSeq? && t.reader.e == p.Seqno() && t.found.Some? && t.reader.e % SLOTS == p.At()
    requires t.begun[p.At()] == Some(t.found.value.g) && t.found.value.g < p.g < t.found.value.g + 0x1_0000
    ensures Sized(t') && Reaches(s, t')
    ensures t' == t.(slots := t.slots[p.At() := t.slots[p.At()].(state := Writing, seqno := p.Seqno())],
                     writer := StoreTime(p), begun := t.begun[p.At() := Some(p.g)])
  {
    t' := ReachClaim(s, t, p);
    t' := Reach(s, t', WriterStep);
    t' := Reach(s, t', WriterStep);
  }

  lemma ReachClaim(s: System, t: System, p: Req) returns (t': System)
    requires Sized(s) && Sized(t) && Reaches(s, t) && t.writer.Resting? && p.Fits()
    requires t.slots[p.At()].state.Written? && t.slots[p.At()].seqno != p.Seqno()
    requires t.reader.TakeSeq? && t.found.Some? && t.reader.e % SLOTS == p.At()
    requires t.begun[p.At()] == Some(t.found.value.g) && t.found.value.g < p.g < t.found.value.g + 0x1_0000
    ensures Sized(t') && Reaches(s, t')
    ensures t' == t.(writer := Claim(p), begun := t.begun[p.At() := Some(p.g)])
  {
    t' := Reach(s, t, StartPush(p));
    t' := Reach(s, t', WriterStep);
    t' := Reach(s, t', WriterStep);
  }

  lemma ReachWriter(s: System, t: System) returns (t': System)
    requires Sized(s) && Sized(t) && Reaches(s, t) && NoLap(t) && t.writer.Busy()
    ensures t' == WriterMove(t) && Reaches(s, t') && NoLap(t')
  {
    t' := Reach(s, t, WriterStep);
  }

  /** The writer completes a push of at most one byte. */
  lemma ReachPublished(s: System, t: System, p: Req) returns (t': System)
    requires Sized(s) && Sized(t) && Reaches(s, t) && NoLap(t) && t.writer == StoreTime(p) && |p.data| <= 1
    ensures Sized(t') && Reaches(s, t') && NoLap(t') && t'.writer.Resting? && t'.reader == t.reader
    ensures t'.completed == t.completed + {p}
    ensures t'.slots[p.At()].Holds(t.slots[p.At()].seqno)
  {
    t' := ReachWriter(s, t);
    t' := ReachWriter(s, t');
    assert t'.writer == StoreByte(p, 0) && t'.slots[p.At()].seqno == t.slots[p.At()].seqno;
    t' := ReachCopiedOut(s, t', p);
    t' := ReachWriter(s, t');
  }

  /** The writer stores the one byte, if there is one. */
  lemma ReachCopiedOut(s: System, t: System, p: Req) returns (t': System)
    requires Sized(s) && Sized(t) && Reaches(s, t) && NoLap(t) && t.writer == StoreByte(p, 0) && |p.data| <= 1
    ensures Sized(t') && Reaches(s, t') && NoLap(t') && t'.writer == Publish(p)
    ensures t'.reader == t.reader && t'.completed == t.completed && t'.slots[p.At()].seqno == t.slots[p.At()].seqno
  {
    t' := ReachWriter(s, t);
    if |p.data| == 1 { t' := ReachWriter(s, t'); }
  }

  /** The reader finishes a take past its sequence check, on a slot that passes both rechecks. */
  lemma ReachReturned(s: System, t: System, e: u16, len: nat) returns (t': System, c: Copy)
    requires Sized(s) && Sized(t) && Reaches(s, t) && NoLap(t) && t.reader == TakeTime(e, len)
    requires len <= MAX_FRAME_BYTES && t.slots[e % SLOTS].Holds(e)
    ensures Sized(t') && t'.reader == Returned(e, Some(c)) && c.len == len && t'.completed == t.completed && Reaches(s, t')
  {
    t' := Reach(s, t, ReaderStep);
    t', c := ReachCopied(s, t', e, t'.reader.c);
    t' := ReachAccepted(s, t', e, c);
  }

  lemma ReachAccepted(s: System, t: System, e: u16, c: Copy) returns (t': System)
    requires Sized(s) && Sized(t) && Reaches(s, t) && NoLap(t) && t.reader == RecheckState(e, c) && t.slots[e % SLOTS].Holds(e)
    ensures Sized(t') && t'.reader == Returned(e, Some(c)) && t'.completed == t.completed && Reaches(s, t')
  {
    t' := Reach(s, t, ReaderStep);
    assert t' == t.(reader := RecheckSeq(e, c));
    t' := Reach(s, t', ReaderStep);
    assert t' == t.(reader := Release(e, c));
    t' := Reach(s, t', ReaderStep);
  }

  /** The take looks at the slot state, the push of `p` then stamps the slot, and the take accepts it. */
  lemma ReachMixed(s: System, p: Req) returns (t: System)
    requires Sized(s) && s.writer.Resting? && s.reader == TakeState(p.Seqno()) && p.Fits()
    requires p.Seqno() % SLOTS == p.At() && s.last[p.At()].Some?
    requires s.slots[p.At()].state.Written? && s.slots[p.At()].seqno != p.Seqno()
    requires var q := s.last[p.At()].value; s.begun[p.At()] == Some(q.g) && q.g < p.g < q.g + 0x1_0000
    ensures Sized(t) && Reaches(s, t) && NoLap(t)
    ensures t.reader == TakeTime(p.Seqno(), s.slots[p.At()].len) && t.writer == StoreTime(p)
    ensures t.slots[p.At()].seqno == p.Seqno() && t.completed == s.completed
  {
    assert Allowed(s, []) && Run(s, []) == s;
    t := Reach(s, s, ReaderStep);
    t := ReachStamped(s, t, p);
    t := Reach(s, t, ReaderStep);
    t := Reach(s, t, ReaderStep);
  }

  /** Without `NotStale` safety is lost, in every state: when a take starts on a slot that still holds
      another frame, a push of the wanted number that starts *after* the take has looked at the slot
      state can make it return a frame that nobody sent. */
  lemma StaleTakeCanTear(s: System, q: Req) returns (t: System)
    requires Inv(s) && s.writer.Resting? && s.reader.TakeState? && !NotStale(s, ReaderStep)
    requires s.last[s.reader.e % SLOTS] == Some(q) && s.begun[s.reader.e % SLOTS] == Some(q.g)
    requires forall c | c in s.completed :: c.Seqno() != s.reader.e
    ensures Sized(t) && Reaches(s, t) && !Intact(t)
  {
    var e := s.reader.e;
    var len := s.slots[e % SLOTS].len;
    assert s.slots[e % SLOTS].seqno == q.Seqno() && len <= MAX_FRAME_BYTES by {
      assert SlotInv(s, e % SLOTS);
    }
    var p := Req(NumberAfter(q.g, e), 0, if len == 0 then [0] else []);
    IndexOfWrap(p.g);
    t := ReachMixed(s, p);
    t := ReachPublished(s, t, p);
    var c: Copy;
    t, c := ReachReturned(s, t, e, len);
    assert t.completed == s.completed + {p} && c.len != |p.data|;
  }

  lemma {:induction false} RunConcat(s: System, first: seq<Step>, rest: seq<Step>)
    requires Sized(s) && Allowed(s, first) && Allowed(Run(s, first), rest)
    ensures Allowed(s, first + rest) && Run(s, first + rest) == Run(Run(s, first), rest)
    decreases first
  {
    if first == [] {
      assert first + rest == rest;
    } else {
      assert (first + rest)[1..] == first[1..] + rest;
      RunConcat(Next(s, first[0]), first[1..], rest);
    }
  }

  lemma ReachesOn(s: System, t: System, u: System)
    requires Sized(s) && Sized(t) && Reaches(s, t) && Reaches(t, u)
    ensures Reaches(s, u)
  {
    var first :| Allowed(s, first) && Run(s, first) == t;
    var rest :| Allowed(t, rest) && Run(t, rest) == u;
    RunConcat(s, first, rest);
  }

  /** The writer moves on with nobody reading. */
  lemma ReachSafely(s: System, t: System) returns (t': System)
    requires Sized(s) && Inv(t) && Reaches(s, t) && t.writer.Busy() && t.reader.Waiting?
    ensures t' == WriterMove(t) && Inv(t') && Reaches(s, t')
  {
    t' := Reach(s, t, WriterStep);
    WriterKeepsInv(t);
  }

  /** The push of packet 0, without data, up to storing its number; and then to its end. */
  lemma ReachFirstClaimed() returns (t: System)
    ensures Inv(t) && Reaches(START, t) && t.reader.Waiting? && t.completed == {} && t.begun[0] == Some(0)
    ensures t.writer == StoreSeq(Req(0, 0, []))
  {
    t := ReachFirstBegun();
    t := ReachSafely(START, t);
    t := ReachSafely(START, t);
  }

  lemma ReachFirstBegun() returns (t: System)
    ensures Inv(t) && Reaches(START, t) && t.reader.Waiting? && t.completed == {} && t.begun[0] == Some(0)
    ensures t.writer == LoadState(Req(0, 0, [])) && !t.slots[0].state.Written?
  {
    assert Allowed(START, []) && Run(START, []) == START;
    t := Reach(START, START, StartPush(Req(0, 0, [])));
    StartKeepsInv(START, StartPush(Req(0, 0, [])));
  }

  lemma ReachFirstHeader(s: System, t: System) returns (t': System)
    requires Sized(s) && Inv(t) && Reaches(s, t) && t.reader.Waiting? && t.completed == {} && t.begun[0] == Some(0)
    requires t.writer == StoreSeq(Req(0, 0, []))
    ensures Inv(t') && Reaches(s, t') && t'.reader.Waiting? && t'.completed == {} && t'.begun[0] == Some(0)
    ensures t'.writer == StoreByte(Req(0, 0, []), 0) && t'.slots[0].seqno == 0
  {
    t' := ReachSafely(s, t);
    t' := ReachSafely(s, t');
    t' := ReachSafely(s, t');
  }

  lemma ReachFirstStored(s: System, t: System) returns (t': System)
    requires Sized(s) && Inv(t) && Reaches(s, t) && t.reader.Waiting? && t.completed == {} && t.begun[0] == Some(0)
    requires t.writer == StoreByte(Req(0, 0, []), 0) && t.slots[0].seqno == 0
    ensures Inv(t') && Reaches(s, t') && t'.reader.Waiting? && t'.writer.Resting? && t'.completed == {Req(0, 0, [])}
    ensures t'.begun[0] == Some(0) && t'.last[0] == Some(Req(0, 0, [])) && t'.slots[0].Holds(0)
  {
    t' := ReachSafely(s, t);
    t' := ReachSafely(s, t');
  }

  /** From a new buffer: packet 0 is stored whole, a take of 64 begins with nothing in flight, and what it
      returns nobody sent. */
  lemma TornFrameFromStart() returns (t: System)
    ensures Sized(t) && Reaches(START, t) && !Intact(t)
  {
    var s := ReachFirstClaimed();
    s := ReachFirstHeader(START, s);
    s := ReachFirstStored(START, s);
    StartKeepsInv(s, StartTake(64));
    s := Reach(START, s, StartTake(64));
    t := StaleTakeCanTear(s, Req(0, 0, []));
    ReachesOn(START, s, t);
  }
}
