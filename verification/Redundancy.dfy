/** Redundancy end to end: the sender attaches the previous frame to every packet
    (crates/jam-core/src/pipeline.rs:78-97, :325-346), the receive thread pushes both copies
    (crates/jam-core/src/net.rs:203-251), and the jitter buffer plays a stream without gaps. */
module Redundancy {
  import opened Common
  import opened Seq16
  import opened Jitter
  import opened Timeline
  import W = Wire
  import RoundTrip

  // ---------------------------------------------------------------- the sender

  datatype Sender = Sender(next: u16, prev: seq<byte>, clock: u32)

  datatype Session = Session(id: u16, sender: u16, codec: W.Codec, frame: u32, redundancy: bool)

  const FIRST := Sender(0, [], 0)

  function Tick32(clock: u32, frame: u32): u32 { (clock + frame) % 0x1_0000_0000 }

  /** `PrevFrame::get` */
  function Previous(prev: seq<byte>): Option<seq<byte>> { if |prev| > 0 then Some(prev) else None }

  datatype Datagram = Datagram(header: W.Header, audio: W.AudioPacket)

  /** One frame tick of the sender; `None` is a frame the encoder failed on. */
  function Emit(c: Session, s: Sender, encoded: Option<seq<byte>>): (Sender, Option<Datagram>) {
    match encoded
    case None => (s.(clock := Tick32(s.clock, c.frame)), None)
    case Some(p) =>
      (Sender(Wrap(s.next + 1), p, Tick32(s.clock, c.frame)),
       Some(Datagram(W.Header(W.AudioType, c.id, c.sender, s.next),
                     W.AudioPacket(s.clock, c.codec, p, if c.redundancy then Previous(s.prev) else None))))
  }

  /** Everything a sender emits over a run of frame ticks. */
  function Sent(c: Session, s: Sender, frames: seq<Option<seq<byte>>>): seq<Datagram>
    decreases frames
  {
    if frames == [] then []
    else
      var (s1, d) := Emit(c, s, frames[0]);
      (if d.Some? then [d.value] else []) + Sent(c, s1, frames[1..])
  }

  /** The payloads that were encoded. */
  function Payloads(frames: seq<Option<seq<byte>>>): seq<seq<byte>> {
    if frames == [] then []
    else (if frames[0].Some? then [frames[0].value] else []) + Payloads(frames[1..])
  }

  predicate ShapedAt(c: Session, d: Datagram, payloads: seq<seq<byte>>, k: nat, first: int, prev: seq<byte>)
    requires k < |payloads|
  {
    && d.header == W.Header(W.AudioType, c.id, c.sender, Wrap(first + k))
    && d.audio.codec == c.codec && d.audio.payload == payloads[k]
    && d.audio.redundant == if c.redundancy then Previous(if k == 0 then prev else payloads[k - 1]) else None
  }

  ghost predicate Shaped(c: Session, sent: seq<Datagram>, payloads: seq<seq<byte>>, first: int, prev: seq<byte>) {
    |sent| == |payloads| && forall k | 0 <= k < |sent| :: ShapedAt(c, sent[k], payloads, k, first, prev)
  }

  lemma ShapedPrepend(c: Session, d: Datagram, sent: seq<Datagram>, payloads: seq<seq<byte>>, first: int, prev: seq<byte>)
    requires |payloads| == |sent| + 1 && ShapedAt(c, d, payloads, 0, first, prev)
    requires forall k | 0 <= k < |sent| :: ShapedAt(c, sent[k], payloads, k + 1, first, prev)
    ensures Shaped(c, [d] + sent, payloads, first, prev)
  {
    forall k | 0 <= k < |sent| + 1 ensures ShapedAt(c, ([d] + sent)[k], payloads, k, first, prev) {
      if k > 0 { assert ([d] + sent)[k] == sent[k - 1] && ShapedAt(c, sent[k - 1], payloads, (k - 1) + 1, first, prev); }
    }
  }

  /** The k-th packet carries the k-th payload and, with redundancy, the one before it. */
  lemma {:induction false} SentIsShaped(c: Session, s: Sender, frames: seq<Option<seq<byte>>>, first: int)
    requires s.next == Wrap(first)
    ensures Shaped(c, Sent(c, s, frames), Payloads(frames), first, s.prev)
    decreases frames
  {
    if frames != [] {
      var (s1, d) := Emit(c, s, frames[0]);
      var sent1, payloads1 := Sent(c, s1, frames[1..]), Payloads(frames[1..]);
      if d.Some? {
        WrapSub(first, -1);
        SentIsShaped(c, s1, frames[1..], first + 1);
        assert Sent(c, s, frames) == [d.value] + sent1 && Payloads(frames) == [frames[0].value] + payloads1;
        forall k | 0 <= k < |sent1| ensures ShapedAt(c, sent1[k], Payloads(frames), k + 1, first, s.prev) {
          assert ShapedAt(c, sent1[k], payloads1, k, first + 1, s1.prev);
        }
        ShapedPrepend(c, d.value, sent1, Payloads(frames), first, s.prev);
      } else {
        SentIsShaped(c, s1, frames[1..], first);
        assert Sent(c, s, frames) == sent1 && Payloads(frames) == payloads1;
      }
    }
  }

  // ---------------------------------------------------------------- timestamps

  /** The tick in which the k-th payload was encoded. */
  function TickOf(frames: seq<Option<seq<byte>>>, k: nat): nat
    requires k < |Payloads(frames)|
    decreases frames
  {
    if frames[0].None? then 1 + TickOf(frames[1..], k) else if k == 0 then 0 else 1 + TickOf(frames[1..], k - 1)
  }

  /** The clock `n` frames on. */
  function ClockAfter(clock: u32, frame: u32, n: nat): u32 { (clock + n * frame) % 0x1_0000_0000 }

  lemma ClockSteps(clock: u32, frame: u32, n: nat)
    ensures ClockAfter(Tick32(clock, frame), frame, n) == ClockAfter(clock, frame, n + 1)
  {
    Distribute(1, n, frame);
    Turned(clock + frame, n * frame);
  }

  lemma Distribute(a: nat, b: nat, frame: nat)
    ensures (a + b) * frame == a * frame + b * frame
  {
  }

  lemma Turned(x: nat, p: nat)
    ensures (x % 0x1_0000_0000 + p) % 0x1_0000_0000 == (x + p) % 0x1_0000_0000
  {
  }

  lemma SentLength(c: Session, s: Sender, frames: seq<Option<seq<byte>>>)
    ensures |Sent(c, s, frames)| == |Payloads(frames)|
  {
    WrapSub(s.next, 0);
    SentIsShaped(c, s, frames, s.next);
  }

  /** The packet was stamped in its tick, with the session's codec. */
  predicate Stamped(c: Session, clock: u32, d: Datagram, tick: nat) {
    d.audio.timestamp == ClockAfter(clock, c.frame, tick) && d.audio.codec == c.codec
  }

  /** Every packet is stamped with the clock of the tick its payload was encoded in, failed frames counted, and
      carries the session's codec. */
  lemma {:induction false} StampsAreTrue(c: Session, s: Sender, frames: seq<Option<seq<byte>>>, k: nat)
    requires k < |Payloads(frames)|
    ensures |Sent(c, s, frames)| == |Payloads(frames)| && Stamped(c, s.clock, Sent(c, s, frames)[k], TickOf(frames, k))
    decreases frames
  {
    var (s1, d) := Emit(c, s, frames[0]);
    SentLength(c, s, frames);
    if d.None? || k > 0 {
      var j := if d.Some? then k - 1 else k;
      StampsAreTrue(c, s1, frames[1..], j);
      ClockSteps(s.clock, c.frame, TickOf(frames[1..], j));
      assert Sent(c, s, frames)[k] == Sent(c, s1, frames[1..])[j];
    }
  }

  /** The sender as the pipeline runs it: a generator, a clock, and a buffer holding the last frame. */
  class Upstream {
    const session: Session
    const seqGen: SeqGen
    const prevBuf: array<byte>
    var prevLen: nat
    var clock: u32

    ghost predicate Valid()
      reads this
    {
      prevBuf.Length == MAX_FRAME_BYTES && prevLen <= MAX_FRAME_BYTES
    }

    ghost function View(): Sender
      requires Valid()
      reads this, seqGen, prevBuf
    {
      Sender(seqGen.current, prevBuf[..prevLen], clock)
    }

    constructor (session: Session)
      ensures Valid() && View() == FIRST && this.session == session && fresh(seqGen) && fresh(prevBuf)
    {
      this.session := session;
      seqGen := new SeqGen();
      prevBuf := new byte[MAX_FRAME_BYTES](_ => 0);
      prevLen, clock := 0, 0;
    }

    method Store(data: seq<byte>)
      requires Valid() && |data| <= MAX_FRAME_BYTES
      modifies this`prevLen, prevBuf
      ensures Valid() && prevBuf[..prevLen] == data
    {
      forall i | 0 <= i < |data| {
        prevBuf[i] := data[i];
      }
      prevLen := |data|;
    }

    /** One frame tick; the encoder writes at most `MAX_FRAME_BYTES`, or fails. */
    method Frame(encoded: Option<seq<byte>>) returns (sent: Option<Datagram>)
      requires Valid() && (encoded.Some? ==> |encoded.value| <= MAX_FRAME_BYTES)
      modifies this, seqGen, prevBuf
      ensures Valid() && (View(), sent) == Emit(session, old(View()), encoded)
    {
      sent := None;
      if encoded.Some? {
        var redundant := if session.redundancy && prevLen > 0 then Some(prevBuf[..prevLen]) else None;
        var s := seqGen.Next();
        sent := Some(Datagram(W.Header(W.AudioType, session.id, session.sender, s),
                              W.AudioPacket(clock, session.codec, encoded.value, redundant)));
        Store(encoded.value);
      }
      clock := Tick32(clock, session.frame);
    }
  }

  // ---------------------------------------------------------------- the receiver

  /** The receive thread's pushes for an accepted audio packet: the frame, then the copy of the previous
      one under the previous number. */
  function PushBoth(b: Ring, h: W.Header, a: W.AudioPacket, frame: u32): (r: Ring)
    requires b.Valid()
    ensures r.Valid()
  {
    var b1 := Push(b, h.seqno, a.timestamp, a.payload).0;
    if a.redundant.Some? then
      Push(b1, Wrap(h.seqno - 1), (a.timestamp - frame) % 0x1_0000_0000, a.redundant.value).0
    else b1
  }

  /** From bytes; anything but audio leaves the buffer alone. */
  function Receive(b: Ring, datagram: seq<byte>, frame: u32): (r: Ring)
    requires b.Valid()
    ensures r.Valid()
  {
    match W.ParseDatagram(datagram)
    case Ok((h, Audio(a))) => PushBoth(b, h, a, frame)
    case _ => b
  }

  /** In send order, either the next packet is dealt with - delivered, or lost - or a frame is popped. */
  datatype Event = NextPacket | PopFrame

  datatype Rx = Rx(ring: Ring, handled: nat, popped: seq<Option<seq<byte>>>)

  function Step(x: Rx, e: Event, sent: seq<Datagram>, lost: seq<bool>, frame: u32): (r: Rx)
    requires x.ring.Valid() && |lost| == |sent| && (e.NextPacket? ==> x.handled < |sent|)
    ensures r.ring.Valid()
  {
    match e
    case NextPacket =>
      var d := sent[x.handled];
      Rx(if lost[x.handled] then x.ring else Receive(x.ring, W.EncodeAudio(d.header, d.audio), frame), x.handled + 1, x.popped)
    case PopFrame =>
      var (b, o, data) := Pop(x.ring);
      Rx(b, x.handled, x.popped + [if o.Frame? then Some(data) else None])
  }

  /** A packet arrives less than a ring ahead of the read position, and no frame is popped before its own
      packet has arrived or the following one has been dealt with. */
  predicate Timely(handled: nat, popped: nat, e: Event, lost: seq<bool>) {
    match e
    case NextPacket => handled < |lost| && handled < popped + SLOTS
    case PopFrame => popped < handled <= |lost| && (lost[popped] ==> popped + 1 < handled)
  }

  predicate AllTimely(handled: nat, popped: nat, events: seq<Event>, lost: seq<bool>)
    decreases events
  {
    events != [] ==>
      && Timely(handled, popped, events[0], lost)
      && if events[0].NextPacket? then AllTimely(handled + 1, popped, events[1..], lost)
         else AllTimely(handled, popped + 1, events[1..], lost)
  }

  function Run(x: Rx, events: seq<Event>, sent: seq<Datagram>, lost: seq<bool>, frame: u32): (r: Rx)
    requires x.ring.Valid() && |lost| == |sent| && AllTimely(x.handled, |x.popped|, events, lost)
    ensures r.ring.Valid()
    decreases events
  {
    if events == [] then x else Run(Step(x, events[0], sent, lost, frame), events[1..], sent, lost, frame)
  }

  // ---------------------------------------------------------------- repair

  predicate FirstArrives(lost: seq<bool>) { |lost| > 0 ==> !lost[0] }

  /** Frame `j` reaches the receiver: in its own packet, or as the copy in the following one. */
  predicate Recovered(redundancy: bool, lost: seq<bool>, j: nat) {
    j < |lost| && (!lost[j] || (redundancy && j + 1 < |lost| && !lost[j + 1]))
  }

  predicate Payload(p: seq<byte>) { 0 < |p| <= MAX_FRAME_BYTES }

  ghost predicate Repaired(t: Timeline, redundancy: bool, lost: seq<bool>, n: nat, payloads: seq<seq<byte>>) {
    && n <= |lost| == |payloads|
    && (t.started <==> n > 0)
    && (n > 0 ==> 0 <= t.rd <= n && t.hi < n)
    && (forall j :: j in t.frames <==> t.started && t.rd <= j && Recovered(redundancy, lost[..n], j))
    && (forall j | j in t.frames :: 0 <= j < |payloads| && t.frames[j].data == payloads[j])
  }

  function MapBoth(t: Timeline, k: int, d: Datagram, frame: u32): Timeline {
    var t1 := MapPush(t, k, Packet(d.audio.timestamp, d.audio.payload)).0;
    if d.audio.redundant.Some? then
      MapPush(t1, k - 1, Packet((d.audio.timestamp - frame) % 0x1_0000_0000, d.audio.redundant.value)).0
    else t1
  }

  /** What the receiver stores of a datagram: its own frame under its number and stamp, and the one before it, if
      it brings that and it is still missing and not too late, under the number before and a frame earlier. */
  lemma StoresBoth(t: Timeline, k: int, d: Datagram, frame: u32)
    requires t.started && t.rd < k && k !in t.frames && k - 1 !in t.frames && d.audio.redundant.Some?
    requires |d.audio.payload| <= MAX_FRAME_BYTES && |d.audio.redundant.value| <= MAX_FRAME_BYTES
    ensures var t' := MapBoth(t, k, d, frame);
            && k in t'.frames && t'.frames[k] == Packet(d.audio.timestamp, d.audio.payload)
            && k - 1 in t'.frames
            && t'.frames[k - 1] == Packet((d.audio.timestamp - frame) % 0x1_0000_0000, d.audio.redundant.value)
  {
  }

  lemma {:induction false} TicksAscend(frames: seq<Option<seq<byte>>>, k: nat)
    requires 0 < k < |Payloads(frames)|
    ensures TickOf(frames, k - 1) < TickOf(frames, k)
    decreases frames
  {
    if frames[0].None? { TicksAscend(frames[1..], k); } else if k > 1 { TicksAscend(frames[1..], k - 1); }
  }

  lemma TurnedBack(x: nat, d: nat, frame: nat)
    requires 0 < frame <= d <= 0x1_0000_0000
    ensures ((x + d) % 0x1_0000_0000 - frame) % 0x1_0000_0000 == x % 0x1_0000_0000 <==> d == frame
  {
  }

  lemma GapIs(gap: nat, frame: nat)
    requires gap > 0 && frame > 0
    ensures gap * frame >= frame && (gap * frame == frame <==> gap == 1)
  {
    if gap > 1 {
      assert gap * frame == frame + (gap - 1) * frame;
      assert (gap - 1) * frame >= frame;
    }
  }

  lemma ClockBack(clock: u32, frame: u32, n: nat, gap: nat)
    requires 0 < frame && gap > 0 && gap * frame <= 0x1_0000_0000
    ensures (ClockAfter(clock, frame, n + gap) - frame) % 0x1_0000_0000 == ClockAfter(clock, frame, n) <==> gap == 1
  {
    Distribute(n, gap, frame);
    GapIs(gap, frame);
    TurnedBack(clock + n * frame, gap * frame, frame);
  }

  /** So a recovered frame gets its own timestamp exactly if no frame failed to encode between the two - as long
      as such a gap does not last a whole turn of the 32-bit clock, a day. Nothing that plays frames reads it. */
  lemma RecoveredStampIff(c: Session, s: Sender, frames: seq<Option<seq<byte>>>, k: nat)
    requires 0 < k < |Payloads(frames)| && c.frame > 0
    requires (TickOf(frames, k) - TickOf(frames, k - 1)) * c.frame <= 0x1_0000_0000
    ensures |Sent(c, s, frames)| == |Payloads(frames)|
    ensures (Sent(c, s, frames)[k].audio.timestamp - c.frame) % 0x1_0000_0000 == Sent(c, s, frames)[k - 1].audio.timestamp
       <==> TickOf(frames, k) == TickOf(frames, k - 1) + 1
  {
    StampsAreTrue(c, s, frames, k);
    StampsAreTrue(c, s, frames, k - 1);
    TicksAscend(frames, k);
    ClockBack(s.clock, c.frame, TickOf(frames, k - 1), TickOf(frames, k) - TickOf(frames, k - 1));
  }

  /** One more packet dealt with: it brings its own frame and recovers the one before it, or neither. */
  lemma RecoveredNext(redundancy: bool, lost: seq<bool>, n: nat, j: nat)
    requires n < |lost|
    ensures Recovered(redundancy, lost[..n + 1], j)
       <==> Recovered(redundancy, lost[..n], j) || (!lost[n] && (j == n || (redundancy && j + 1 == n)))
  {
  }

  lemma DeliverRepairs(t: Timeline, lost: seq<bool>, n: nat, payloads: seq<seq<byte>>, c: Session, sent: seq<Datagram>)
    requires Repaired(t, c.redundancy, lost, n, payloads) && n < |lost| && !lost[n] && FirstArrives(lost)
    requires Shaped(c, sent, payloads, 0, []) && forall p | p in payloads :: Payload(p)
    ensures Repaired(MapBoth(t, n, sent[n], c.frame), c.redundancy, lost, n + 1, payloads)
  {
    assert ShapedAt(c, sent[n], payloads, n, 0, []);
    assert payloads[n] in payloads;
    if n > 0 { assert payloads[n - 1] in payloads; }
    var t' := MapBoth(t, n, sent[n], c.frame);
    forall j ensures j in t'.frames <==> t'.started && t'.rd <= j && Recovered(c.redundancy, lost[..n + 1], j) {
      if j >= 0 { RecoveredNext(c.redundancy, lost, n, j); }
    }
  }

  lemma LossChangesNothing(t: Timeline, redundancy: bool, lost: seq<bool>, n: nat, payloads: seq<seq<byte>>)
    requires Repaired(t, redundancy, lost, n, payloads) && n < |lost| && lost[n] && FirstArrives(lost)
    ensures Repaired(t, redundancy, lost, n + 1, payloads)
  {
    forall j ensures j in t.frames <==> t.started && t.rd <= j && Recovered(redundancy, lost[..n + 1], j) {
      if j >= 0 { RecoveredNext(redundancy, lost, n, j); }
    }
  }

  lemma PushBothTracks(b: Ring, t: Timeline, k: nat, d: Datagram, frame: u32)
    requires Tracks(b, t) && (t.started ==> 0 <= t.rd <= k < t.rd + SLOTS)
    requires d.header.seqno == Wrap(k)
    ensures Tracks(PushBoth(b, d.header, d.audio, frame), MapBoth(t, k, d, frame))
  {
    var p := Packet(d.audio.timestamp, d.audio.payload);
    var (b1, t1) := (Push(b, Wrap(k), p.timestamp, p.data).0, MapPush(t, k, p).0);
    PushStaysNear(b, t, k, p);
    if d.audio.redundant.Some? {
      var q := Packet((d.audio.timestamp - frame) % 0x1_0000_0000, d.audio.redundant.value);
      var (b2, t2) := (Push(b1, Wrap(Wrap(k) - 1), q.timestamp, q.data).0, MapPush(t1, k - 1, q).0);
      assert Tracks(b2, t2) by { PushPreviousTracks(b1, t1, k, q); }
      assert PushBoth(b, d.header, d.audio, frame) == b2 && MapBoth(t, k, d, frame) == t2;
    } else {
      assert PushBoth(b, d.header, d.audio, frame) == b1 && MapBoth(t, k, d, frame) == t1;
    }
  }

  lemma PushStaysNear(b: Ring, t: Timeline, k: nat, p: Packet)
    requires Tracks(b, t) && (t.started ==> 0 <= t.rd <= k < t.rd + SLOTS)
    ensures var (b1, t1) := (Push(b, Wrap(k), p.timestamp, p.data).0, MapPush(t, k, p).0);
            Tracks(b1, t1) && (t1.started ==> 0 <= t1.rd <= k < t1.rd + SLOTS)
  {
    PushTracks(b, t, k, p);
  }

  lemma PushPreviousTracks(b: Ring, t: Timeline, k: nat, p: Packet)
    requires Tracks(b, t) && (t.started ==> 0 <= t.rd <= k < t.rd + SLOTS)
    ensures Tracks(Push(b, Wrap(Wrap(k) - 1), p.timestamp, p.data).0, MapPush(t, k - 1, p).0)
  {
    WrapSub(k, 1);
    PushTracks(b, t, k - 1, p);
  }

  /** The concrete receiver, through bytes and the 16-bit ring, follows the map. */
  lemma ReceiveTracks(b: Ring, t: Timeline, k: nat, d: Datagram, frame: u32)
    requires Tracks(b, t) && (t.started ==> 0 <= t.rd <= k < t.rd + SLOTS)
    requires d.header.ptype == W.AudioType && d.header.seqno == Wrap(k) && RoundTrip.BlocksFit(d.audio)
    ensures Tracks(Receive(b, W.EncodeAudio(d.header, d.audio), frame), MapBoth(t, k, d, frame))
  {
    ReceiveIsPushBoth(b, d, frame);
    PushBothTracks(b, t, k, d, frame);
  }

  lemma ReceiveIsPushBoth(b: Ring, d: Datagram, frame: u32)
    requires b.Valid() && d.header.ptype == W.AudioType && RoundTrip.BlocksFit(d.audio)
    ensures Receive(b, W.EncodeAudio(d.header, d.audio), frame) == PushBoth(b, d.header, d.audio, frame)
  {
    RoundTrip.AudioRoundTrip(d.header, d.audio);
  }

  /** What a pop of frame `j` should return. */
  function Due(redundancy: bool, lost: seq<bool>, payloads: seq<seq<byte>>, j: nat): Option<seq<byte>>
    requires j < |payloads|
  {
    if Recovered(redundancy, lost, j) then Some(payloads[j]) else None
  }

  /** The receiver's progress: what it has popped is right, and the buffer can continue. */
  ghost predicate Good(x: Rx, t: Timeline, redundancy: bool, lost: seq<bool>, payloads: seq<seq<byte>>) {
    && Tracks(x.ring, t) && Repaired(t, redundancy, lost, x.handled, payloads)
    && (x.handled > 0 ==> t.rd == |x.popped|) && (x.handled == 0 ==> x.popped == [])
    && |x.popped| <= |payloads|
    && forall j | 0 <= j < |x.popped| :: x.popped[j] == Due(redundancy, lost, payloads, j)
  }

  lemma PacketIsGood(x: Rx, t: Timeline, c: Session, sent: seq<Datagram>, lost: seq<bool>, payloads: seq<seq<byte>>)
    returns (t': Timeline)
    requires Good(x, t, c.redundancy, lost, payloads) && FirstArrives(lost) && |lost| == |sent|
    requires Timely(x.handled, |x.popped|, NextPacket, lost)
    requires Shaped(c, sent, payloads, 0, []) && forall p | p in payloads :: Payload(p)
    ensures Good(Step(x, NextPacket, sent, lost, c.frame), t', c.redundancy, lost, payloads)
  {
    var n := x.handled;
    if lost[n] {
      LossChangesNothing(t, c.redundancy, lost, n, payloads);
      t' := t;
    } else {
      assert ShapedAt(c, sent[n], payloads, n, 0, []);
      assert payloads[n] in payloads && (n > 0 ==> payloads[n - 1] in payloads);
      DeliverRepairs(t, lost, n, payloads, c, sent);
      ReceiveTracks(x.ring, t, n, sent[n], c.frame);
      t' := MapBoth(t, n, sent[n], c.frame);
    }
  }

  /** When a frame is popped in time, whether it has been recovered is already decided. */
  lemma DecidedInTime(redundancy: bool, lost: seq<bool>, handled: nat, popped: nat)
    requires Timely(handled, popped, PopFrame, lost)
    ensures Recovered(redundancy, lost[..handled], popped) <==> Recovered(redundancy, lost, popped)
  {
  }

  lemma PopIsGood(x: Rx, t: Timeline, redundancy: bool, sent: seq<Datagram>, lost: seq<bool>, payloads: seq<seq<byte>>, frame: u32)
    returns (t': Timeline)
    requires Good(x, t, redundancy, lost, payloads) && |lost| == |sent| && Timely(x.handled, |x.popped|, PopFrame, lost)
    ensures Good(Step(x, PopFrame, sent, lost, frame), t', redundancy, lost, payloads)
  {
    DecidedInTime(redundancy, lost, x.handled, |x.popped|);
    PopTracks(x.ring, t);
    t' := MapPop(t).0;
  }

  lemma {:induction false} RunIsGood(x: Rx, t: Timeline, events: seq<Event>, c: Session, sent: seq<Datagram>, lost: seq<bool>, payloads: seq<seq<byte>>)
    returns (t': Timeline)
    requires Good(x, t, c.redundancy, lost, payloads) && FirstArrives(lost) && |lost| == |sent|
    requires AllTimely(x.handled, |x.popped|, events, lost)
    requires Shaped(c, sent, payloads, 0, []) && forall p | p in payloads :: Payload(p)
    ensures Good(Run(x, events, sent, lost, c.frame), t', c.redundancy, lost, payloads)
    decreases events
  {
    if events == [] {
      t' := t;
    } else {
      var t1: Timeline;
      if events[0].NextPacket? { t1 := PacketIsGood(x, t, c, sent, lost, payloads); }
      else { t1 := PopIsGood(x, t, c.redundancy, sent, lost, payloads, c.frame); }
      t' := RunIsGood(Step(x, events[0], sent, lost, c.frame), t1, events[1..], c, sent, lost, payloads);
    }
  }

  /** Exactly which frames are played: for every loss pattern that keeps the first packet and every timely
      schedule, a pop returns the next payload that was sent if its own packet arrived or, with redundancy,
      the one behind it did; otherwise it reports the frame as missing. */
  lemma PlayedIffRecovered(c: Session, frames: seq<Option<seq<byte>>>, lost: seq<bool>, events: seq<Event>)
    requires forall p | p in Payloads(frames) :: Payload(p)
    requires |lost| == |Sent(c, FIRST, frames)| && FirstArrives(lost) && AllTimely(0, 0, events, lost)
    ensures var popped := Run(Rx(NEW_RING, 0, []), events, Sent(c, FIRST, frames), lost, c.frame).popped;
            && |popped| <= |Payloads(frames)|
            && forall j | 0 <= j < |popped| :: popped[j] == Due(c.redundancy, lost, Payloads(frames), j)
  {
    SentIsShaped(c, FIRST, frames, 0);
    NewRingTracks();
    var t := RunIsGood(Rx(NEW_RING, 0, []), NEW_TIMELINE, events, c, Sent(c, FIRST, frames), lost, Payloads(frames));
  }

  predicate NoTwoInARow(lost: seq<bool>) { forall k | 0 < k < |lost| :: !(lost[k - 1] && lost[k]) }

  /** The pops of a timely schedule: of a lost frame only when a packet behind it has been dealt with. */
  lemma {:induction false} PoppedInTime(x: Rx, events: seq<Event>, sent: seq<Datagram>, lost: seq<bool>, frame: u32, j: nat)
    requires x.ring.Valid() && |lost| == |sent| && AllTimely(x.handled, |x.popped|, events, lost)
    requires |x.popped| <= j < |Run(x, events, sent, lost, frame).popped|
    ensures j < |lost| && (lost[j] ==> j + 1 < |lost|)
    decreases events
  {
    if events != [] && |Step(x, events[0], sent, lost, frame).popped| <= j {
      PoppedInTime(Step(x, events[0], sent, lost, frame), events[1..], sent, lost, frame, j);
    }
  }

  /** Single losses are repaired: with redundancy on, if the first packet arrives and no two in a row are
      lost, every pop returns the next payload that was sent; none is missing. */
  lemma SingleLossesAreRepaired(c: Session, frames: seq<Option<seq<byte>>>, lost: seq<bool>, events: seq<Event>)
    requires c.redundancy && forall p | p in Payloads(frames) :: Payload(p)
    requires |lost| == |Sent(c, FIRST, frames)| && FirstArrives(lost) && NoTwoInARow(lost) && AllTimely(0, 0, events, lost)
    ensures var popped := Run(Rx(NEW_RING, 0, []), events, Sent(c, FIRST, frames), lost, c.frame).popped;
            && |popped| <= |Payloads(frames)|
            && forall j | 0 <= j < |popped| :: popped[j] == Some(Payloads(frames)[j])
  {
    PlayedIffRecovered(c, frames, lost, events);
    var x := Rx(NEW_RING, 0, []);
    forall j | 0 <= j < |Run(x, events, Sent(c, FIRST, frames), lost, c.frame).popped| ensures Recovered(true, lost, j) {
      PoppedInTime(x, events, Sent(c, FIRST, frames), lost, c.frame, j);
      assert lost[j] ==> !(lost[j + 1 - 1] && lost[j + 1]);
    }
  }
}
