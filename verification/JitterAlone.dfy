/** The stepwise writer and reader of `JitterRace` and `JitterFlow`, each left alone, do exactly what the
    sequential operations of `Jitter` do: the models are of the same code. */
module JitterAlone {
  import opened Common
  import opened Seq16
  import opened Jitter
  import opened Timeline
  import opened JitterRace
  import F = JitterFlow

  /** How many steps the writer still has to take, at most. */
  function WriterLeft(w: Writer): nat {
    match w
    case Resting => 0
    case Publish(_) => 1
    case StoreByte(p, k) => 2 + if k <= |p.data| then |p.data| - k else 0
    case StoreLen(p) => 3 + |p.data|
    case StoreTime(p) => 4 + |p.data|
    case StoreSeq(p) => 5 + |p.data|
    case Claim(p) => 6 + |p.data|
    case LoadSeq(p) => 7 + |p.data|
    case LoadState(p) => 8 + |p.data|
  }

  /** The writer runs until it rests. */
  function WriteOut(s: System): (r: System)
    requires Sized(s)
    ensures Sized(r)
    decreases WriterLeft(s.writer)
  {
    if s.writer.Busy() then WriteOut(WriterMove(s)) else s
  }

  lemma {:induction false} WriteOutBytes(s: System, prior: seq<byte>)
    requires Sized(s) && s.writer.StoreByte? && |prior| == MAX_FRAME_BYTES
    requires s.slots[s.writer.p.At()].payload == Copied(prior, s.writer.p.data, s.writer.k)
    ensures var (p, i) := (s.writer.p, s.writer.p.At());
            WriteOut(s).slots == s.slots[i := s.slots[i].(state := Written, payload := Copied(prior, p.data, |p.data|))]
    decreases WriterLeft(s.writer)
  {
    var p, k := s.writer.p, s.writer.k;
    if k == |p.data| {
      var t := WriterMove(s);
      assert WriteOut(s) == WriteOut(t) == WriterMove(t);
    } else {
      CopyOne(prior, p.data, k);
      WriteOutBytes(WriterMove(s), prior);
    }
  }

  lemma WriteOutClaimed(s: System)
    requires Sized(s) && s.writer.Claim?
    ensures var (p, i) := (s.writer.p, s.writer.p.At());
            WriteOut(s).slots == s.slots[i := Fill(s.slots[i], p.Seqno(), p.timestamp, p.data)]
  {
    var p, i := s.writer.p, s.writer.p.At();
    var t1 := WriterMove(s);
    var t2 := WriterMove(t1);
    var t3 := WriterMove(t2);
    var t4 := WriterMove(t3);
    assert t4.slots == s.slots[i := s.slots[i].(state := Writing, seqno := p.Seqno(), timestamp := p.timestamp, len := |p.data|)];
    assert WriteOut(s) == WriteOut(t1) == WriteOut(t2) == WriteOut(t3) == WriteOut(t4);
    assert Copied(s.slots[i].payload, p.data, 0) == s.slots[i].payload;
    WriteOutBytes(t4, s.slots[i].payload);
    assert p.data[..|p.data|] == p.data;
  }

  /** A push that nothing interleaves with leaves the slots as the sequential push does. */
  lemma LoneWriterPushes(s: System, p: Req, b: Ring)
    requires Sized(s) && s.writer == LoadState(p) && b.Valid() && b.slots == s.slots
    requires b.started ==> !NewerThan(b.next, p.Seqno())
    ensures WriteOut(s).slots == Push(b, p.Seqno(), p.timestamp, p.data).0.slots
  {
    IndexOfWrap(p.g);
    var t := WriterMove(s);
    assert WriteOut(s) == WriteOut(t);
    if t.writer.LoadSeq? {
      var t' := WriterMove(t);
      assert WriteOut(t) == WriteOut(t');
      if t'.writer.Claim? { WriteOutClaimed(t'); }
    } else {
      WriteOutClaimed(t);
    }
  }

  function ReaderLeft(r: Reader): nat {
    match r
    case Waiting => 0 case Returned(_, _) => 0
    case Release(_, _) => 1 case RecheckSeq(_, _) => 2 case RecheckState(_, _) => 3
    case TakeByte(_, c) => 4 + if |c.bytes| <= c.len then c.len - |c.bytes| else 0
    case TakeTime(_, len) => 5 + len
    case TakeLen(_) => 6 + 0x1_0000 case TakeSeq(_) => 7 + 0x1_0000 case TakeState(_) => 8 + 0x1_0000
    case SkipRelease(_) => 1 case SkipSeq(_) => 2 case SkipState(_) => 3
  }

  /** The reader runs until it returns. */
  function ReadOut(s: System): (r: System)
    requires Sized(s)
    ensures Sized(r)
    decreases ReaderLeft(s.reader)
  {
    if s.reader.Idle() then s else ReadOut(ReaderMove(s))
  }

  lemma {:induction false} ReadOutBytes(s: System)
    requires Sized(s) && s.reader.TakeByte?
    requires var (c, slot) := (s.reader.c, s.slots[s.reader.e % SLOTS]);
             slot.Holds(s.reader.e) && c.bytes == slot.payload[..|c.bytes|]
    ensures var (e, c) := (s.reader.e, s.reader.c);
            var slot := s.slots[e % SLOTS];
            && ReadOut(s).reader == Returned(e, Some(c.(bytes := slot.payload[..c.len])))
            && ReadOut(s).slots == s.slots[e % SLOTS := slot.(state := Empty)]
    decreases ReaderLeft(s.reader)
  {
    var e, c, slot := s.reader.e, s.reader.c, s.slots[s.reader.e % SLOTS];
    var t := ReaderMove(s);
    assert ReadOut(s) == ReadOut(t);
    if |c.bytes| == c.len {
      var t2 := ReaderMove(t);
      var t3 := ReaderMove(t2);
      assert t3 == t.(reader := Release(e, c));
      assert ReadOut(t) == ReadOut(t2) == ReadOut(t3) == ReaderMove(t3);
    } else {
      assert t.reader.c.bytes == slot.payload[..|c.bytes| + 1];
      ReadOutBytes(t);
    }
  }

  /** A pop that nothing interleaves with returns what the sequential pop does, and empties the same slot. */
  lemma LoneReaderPops(s: System, b: Ring)
    requires Sized(s) && b.Valid() && b.slots == s.slots && b.started && s.reader == TakeState(b.next)
    ensures var (b', outcome, data) := Pop(b);
            && ReadOut(s).slots == b'.slots
            && ReadOut(s).reader == Returned(b.next, if outcome.Frame? then Some(Copy(outcome.len, outcome.timestamp, data)) else None)
  {
    var e, slot := b.next, s.slots[b.next % SLOTS];
    var t1 := ReaderMove(s);
    assert ReadOut(s) == ReadOut(t1);
    if slot.state.Written? {
      var t2 := ReaderMove(t1);
      assert ReadOut(t1) == ReadOut(t2);
      if slot.seqno == e {
        var t3 := ReaderMove(t2);
        var t4 := ReaderMove(t3);
        assert ReadOut(t2) == ReadOut(t3) == ReadOut(t4);
        if slot.len <= MAX_FRAME_BYTES {
          assert t4 == t1.(reader := TakeByte(e, Copy(slot.len, slot.timestamp, [])));
          ReadOutBytes(t4);
        }
      }
    }
  }

  lemma ReadOutOnce(s: System)
    requires Sized(s)
    ensures ReadOut(s) == if s.reader.Idle() then s else ReadOut(ReaderMove(s))
  {
  }

  lemma ReadOutReleased(s: System)
    requires Sized(s) && s.reader.SkipRelease?
    ensures ReadOut(s) == ReaderMove(s)
  {
    ReadOutOnce(s);
    ReadOutOnce(ReaderMove(s));
  }

  lemma ReadOutSkip(s: System)
    requires Sized(s) && s.reader.SkipSeq?
    ensures var (e, i) := (s.reader.e, s.reader.e % SLOTS);
            ReadOut(s).slots == if s.slots[i].seqno == e then s.slots[i := s.slots[i].(state := Empty)] else s.slots
  {
    var t := ReaderMove(s);
    ReadOutOnce(s);
    if t.reader.SkipRelease? {
      ReadOutReleased(t);
    } else {
      ReadOutOnce(t);
    }
  }

  /** The same of a skip. */
  lemma LoneReaderSkips(s: System, b: Ring)
    requires Sized(s) && b.Valid() && b.slots == s.slots && b.started && s.reader == SkipState(b.next)
    ensures ReadOut(s).slots == Skip(b).0.slots
  {
    var t := ReaderMove(s);
    assert ReadOut(s) == ReadOut(t);
    if t.reader.SkipSeq? { ReadOutSkip(t); }
  }

  // ---------------------------------------------------------------- with the read position

  /** Nothing is in progress, and the two models agree. */
  predicate Agree(f: F.Flow, b: Ring) {
    && Sized(f.s) && f.s.writer.Resting? && f.s.reader.Idle() && f.checked.None? && !f.popping
    && b.Valid() && b.slots == f.s.slots && b.started == f.started && (f.started ==> b.next == Wrap(f.rd))
  }

  /** A push that nothing interleaves with: the late check lets it through exactly if the sequential push is not
      late, read position and start are the same, and so are the slots when the writer rests. */
  lemma LonePushFlows(f: F.Flow, b: Ring, p: Req)
    requires Agree(f, b) && p.Fits()
    ensures var (f1, (b', outcome)) := (F.Moved(f, F.Check(p)), Push(b, p.Seqno(), p.timestamp, p.data));
            && f1.started == b'.started && Wrap(f1.rd) == b'.next
            && (f1.checked.None? <==> outcome.Late?)
            && b'.slots == if f1.checked.None? then f1.s.slots else WriteOut(F.Moved(f1, F.Begin).s).slots
  {
    var f1 := F.Moved(f, F.Check(p));
    if f1.checked.Some? { LoneWriterPushes(F.Moved(f1, F.Begin).s, p, b); }
  }

  /** A pop: the same outcome, slots and read position when the reader has moved on. */
  lemma LonePopFlows(f: F.Flow, b: Ring)
    requires Agree(f, b) && f.started
    ensures var (done, (b', outcome, data)) := (ReadOut(F.Moved(f, F.Pop).s), Pop(b));
            && done.slots == b'.slots
            && done.reader == Returned(b.next, if outcome.Frame? then Some(Copy(outcome.len, outcome.timestamp, data)) else None)
            && Agree(F.Moved(F.Moved(f, F.Pop).(s := done), F.Advance), b')
  {
    var begun := F.Moved(f, F.Pop).s;
    LoneReaderPops(begun, b);
    ReadOutKeepsWriter(begun);
  }

  lemma {:induction false} ReadOutKeepsWriter(s: System)
    requires Sized(s)
    ensures ReadOut(s).writer == s.writer
    decreases ReaderLeft(s.reader)
  {
    if !s.reader.Idle() { ReadOutKeepsWriter(ReaderMove(s)); }
  }
}
