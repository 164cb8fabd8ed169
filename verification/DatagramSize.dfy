/** What the fixed send buffers hold: `MAX_DATAGRAM` bytes (crates/jam-protocol/src/lib.rs:26-34). */
module DatagramSize {
  import opened Common
  import opened Utf8
  import opened Wire
  import opened RoundTrip
  import H = Handshake
  import M = Membership
  import C = ClientControl
  import R = Redundancy

  const MAX_DATAGRAM := 2048

  /** The largest payload that fits twice. */
  const MAX_TWICE := 1015

  predicate Fits(datagram: seq<byte>) { |datagram| <= MAX_DATAGRAM }

  // ---------------------------------------------------------------- audio

  lemma AudioLength(h: Header, a: AudioPacket)
    ensures |EncodeAudio(h, a)| == 16 + |a.payload| + if a.redundant.Some? then 2 + |a.redundant.value| else 0
  {
  }

  /** An audio datagram fits exactly if its blocks and the second block's length take at most 2032 bytes. */
  lemma AudioFitsIff(h: Header, a: AudioPacket)
    ensures Fits(EncodeAudio(h, a)) <==> |a.payload| + (if a.redundant.Some? then 2 + |a.redundant.value| else 0) <= 2032
  {
    AudioLength(h, a);
  }

  function Wired(d: R.Datagram): seq<byte> { EncodeAudio(d.header, d.audio) }

  /** A sender whose encoder stays within 1015 bytes a frame - as PCM does, at 960 bytes for the longest frame -
      never overflows its buffer, with or without redundancy. */
  lemma {:induction false} SenderFits(c: R.Session, s: R.Sender, frames: seq<Option<seq<byte>>>)
    requires |s.prev| <= MAX_TWICE && forall f | f in frames && f.Some? :: |f.value| <= MAX_TWICE
    ensures forall d | d in R.Sent(c, s, frames) :: Fits(Wired(d))
    decreases frames
  {
    if frames != [] {
      var (s1, d) := R.Emit(c, s, frames[0]);
      assert frames[0] in frames;
      if d.Some? { AudioLength(d.value.header, d.value.audio); }
      SenderFits(c, s1, frames[1..]);
    }
  }

  /** The bound is tight: frames of 1016 bytes, which the encoder's buffer holds, do not fit with redundancy. */
  lemma TwoLargeFramesOverflow(c: R.Session, s: R.Sender, p: seq<byte>)
    requires c.redundancy && |p| == MAX_TWICE + 1
    ensures R.Payload(p) && |R.Sent(c, s, [Some(p), Some(p)])| == 2 && !Fits(Wired(R.Sent(c, s, [Some(p), Some(p)])[1]))
  {
    var (s1, d1) := R.Emit(c, s, Some(p));
    var (s2, d2) := R.Emit(c, s1, Some(p));
    assert [Some(p), Some(p)][1..] == [Some(p)] && [Some(p)][1..] == [];
    assert R.Sent(c, s1, [Some(p)]) == [d2.value] + [];
    AudioLength(d2.value.header, d2.value.audio);
  }

  // ---------------------------------------------------------------- control

  lemma TextLength(t: Text)
    ensures |EncodeText(t)| <= 1 + MAX_NAME_LEN
  {
    CutKeepsText(t);
  }

  lemma {:induction false} EachLength(ps: seq<PlayerInfo>)
    ensures |EncodeEach(ps)| <= |ps| * (3 + MAX_NAME_LEN)
    decreases ps
  {
    if ps != [] {
      TextLength(ps[0].name);
      EachLength(ps[1..]);
    }
  }

  /** The longest control datagram is a WELCOME to a full room. */
  lemma ControlFits(h: Header, c: Control)
    requires RosterFits(c)
    ensures |EncodeControl(h, c)| <= 195 && Fits(EncodeControl(h, c))
  {
    match c
    case Hello(_, _, name, _, _) => TextLength(name);
    case Welcome(_, _, _, _, _, roster) => EachLength(roster);
    case Roster(roster) => EachLength(roster);
    case _ =>
  }

  /** Everything the host's machine sends fits. */
  lemma HostSendsFit(h: H.Host, e: M.Input, a: H.Action, header: Header)
    requires a in M.Step(h, e).1 && a.Send?
    ensures RosterFits(a.control) && Fits(EncodeControl(header, a.control))
  {
    M.AnnouncementsAreTrue(h, e);
    assert M.Truthful(a, M.Step(h, e).0);
    if a.control.Welcome? || a.control.Roster? { ListIsShort(a.control.roster, M.Step(h, e).0, |a.control.roster|); }
    ControlFits(header, a.control);
  }

  /** Ids ascend from 0 to at most 4. */
  lemma {:induction false} ListIsShort(roster: seq<PlayerInfo>, h: H.Host, n: nat)
    requires M.Lists(roster, h) && n <= |roster|
    ensures n <= MAX_CLIENTS + 1 && (n > 0 ==> roster[n - 1].id >= n - 1)
  {
    if n > 0 {
      ListIsShort(roster, h, n - 1);
      assert roster[n - 1] in roster;
      if n > 1 { assert roster[n - 2].id < roster[n - 1].id; }
    }
  }

  /** A client sends no rosters. */
  predicate Short(o: C.Out) { o.Tx? ==> !o.control.Welcome? && !o.control.Roster? }

  lemma {:induction false} ActsAreShort(s: C.Session, hello: Control, actions: seq<H.ClientAction>, now: nat)
    requires hello.Hello? && forall a | a in actions && a.SendToHost? :: a.control == hello
    ensures forall o | o in C.ActAll(s, hello, actions, now).1 :: Short(o)
    decreases actions
  {
    if actions != [] { ActsAreShort(C.Act(s, hello, actions[0], now).0, hello, actions[1..], now); }
  }

  /** Everything the client's loop sends fits. */
  lemma ClientSendsFit(s: C.Session, hello: Control, i: C.Input, o: C.Out, header: Header)
    requires hello.Hello? && o in C.Turn(s, hello, i).1 && o.Tx?
    ensures Fits(EncodeControl(header, o.control))
  {
    TurnIsShort(s, hello, i);
    ControlFits(header, o.control);
  }

  lemma TurnIsShort(s: C.Session, hello: Control, i: C.Input)
    requires hello.Hello?
    ensures forall o | o in C.Turn(s, hello, i).1 :: Short(o)
  {
    var (s1, actions, _) := C.Receive(s, i);
    var (phase', more) := H.ClientTick(s1.phase, hello, i.now);
    ReceiveIsShort(s, i);
    ActsAreShort(s1.(phase := phase'), hello, actions + more, i.now);
  }

  lemma ReceiveIsShort(s: C.Session, i: C.Input)
    ensures (forall o | o in C.Receive(s, i).2 :: Short(o)) && forall a | a in C.Receive(s, i).1 :: !a.SendToHost?
  {
  }
}
