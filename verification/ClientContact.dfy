/** What one turn of the client's loop sends, packet by packet (crates/jam-core/src/control.rs:431-602): its
    acknowledgements, its HELLOs, its pings and keepalives, and when it finds the host lost. */
module ClientContact {
  import opened Common
  import opened Seq16
  import opened Handshake
  import opened ClientControl
  import opened Retries
  import W = Wire

  datatype Sort = Acks | Hellos | Timers | Losses | Starts | Flushes

  predicate Of(o: Out, sort: Sort) {
    match sort
    case Acks => o.Tx? && o.control.Ack?
    case Hellos => o.Tx? && o.control.Hello?
    case Timers => o.Tx? && (o.control.Ping? || o.control.Keepalive?)
    case Losses => o.HostLost?
    case Starts => o.AudioUp?
    case Flushes => o.BufferReset?
  }

  function Sift(outs: seq<Out>, sort: Sort): seq<Out> {
    if outs == [] then [] else (if Of(outs[0], sort) then [outs[0]] else []) + Sift(outs[1..], sort)
  }

  lemma {:induction false} SiftConcat(a: seq<Out>, b: seq<Out>, sort: Sort)
    ensures Sift(a + b, sort) == Sift(a, sort) + Sift(b, sort)
    decreases a
  {
    if a == [] {
      assert a + b == b;
    } else {
      assert (a + b)[0] == a[0] && (a + b)[1..] == a[1..] + b;
      SiftConcat(a[1..], b, sort);
      Regroup(if Of(a[0], sort) then [a[0]] else [], Sift(a[1..], sort), Sift(b, sort));
    }
  }

  lemma SiftOne(o: Out, sort: Sort)
    ensures Sift([o], sort) == if Of(o, sort) then [o] else []
  {
    assert [o][1..] == [];
  }

  lemma SiftTwo(a: Out, b: Out, sort: Sort)
    ensures Sift([a, b], sort) == (if Of(a, sort) then [a] else []) + if Of(b, sort) then [b] else []
  {
    assert [a, b] == [a] + [b];
    SiftConcat([a], [b], sort);
    SiftOne(a, sort);
    SiftOne(b, sort);
  }

  // ---------------------------------------------------------------- the machine

  /** What moves the client's machine: while joining, a WELCOME, which lets it in with everything the WELCOME says,
      or a DENY; and once it is in, a ROSTER, which it passes on. Nothing else moves it or makes it act. */
  lemma ReactsExactly(p: Phase, c: W.Control)
    ensures var (p', out) := ClientOnControl(p, c);
            && (forall id: u16, session: u16, params :: StartAudio(id, session, params) in out <==>
                  p.Joining? && c.Welcome? && (id, session) == (c.assignedId, c.session) && params == Params(c.sampleRate, c.frameSamples, c.codec))
            && (forall players :: RosterUpdate(players) in out <==>
                  ((p.Joining? && c.Welcome? && players == c.roster) || (p.Joined? && c.Roster? && players == c.roster)))
            && (forall why :: Fail(why) in out <==> p.Joining? && c.Deny? && why == Denied(c.reason))
            && (forall hello :: SendToHost(hello) !in out)
            && (p' != p <==> p.Joining? && (c.Welcome? || c.Deny?))
            && (p'.Joined? && !p.Joined? ==> p' == Joined(c.assignedId, c.session, Params(c.sampleRate, c.frameSamples, c.codec)))
            && (p'.GaveUp? && !p.GaveUp? ==> p' == GaveUp(Denied(c.reason)))
  {
  }

  // ---------------------------------------------------------------- the parts of a turn

  /** The four parts of a turn's output. */
  function Parts(s: Session, hello: W.Control, i: Input): (seq<Out>, seq<Out>, seq<Out>, seq<Out>) {
    var (s1, actions, out1) := Receive(s, i);
    var (phase', more) := ClientTick(s1.phase, hello, i.now);
    var (s2, out2) := ActAll(s1.(phase := phase'), hello, actions + more, i.now);
    var (s3, out3) := CheckHost(s2, hello, i.now, i.nowUs, i.lastRx);
    (out1, out2, out3, StayInTouch(s3, i.now, i.pingUs).1)
  }

  lemma SiftTurn(s: Session, hello: W.Control, i: Input, sort: Sort)
    ensures var (a, b, c, d) := Parts(s, hello, i);
            Sift(Turn(s, hello, i).1, sort) == Sift(a, sort) + Sift(b, sort) + Sift(c, sort) + Sift(d, sort)
  {
    var (a, b, c, d) := Parts(s, hello, i);
    SiftConcat(a, b, sort);
    SiftConcat(a + b, c, sort);
    SiftConcat(a + b + c, d, sort);
  }

  predicate Welcomed(i: Input) { i.event.Some? && i.event.value.control.Welcome? }

  /** The client is joining when the turn's tick comes. */
  predicate StillJoining(s: Session, i: Input) {
    s.phase.Joining? && !Welcomed(i) && !(i.event.Some? && i.event.value.control.Deny?)
  }

  /** A WELCOME comes while the client is joining. */
  predicate Joins(s: Session, i: Input) { s.phase.Joining? && Welcomed(i) }

  predicate IsDenied(s: Session, i: Input) { s.phase.Joining? && i.event.Some? && i.event.value.control.Deny? }

  /** The audio path the WELCOME asks for. */
  function Granted(i: Input): Out
    requires Welcomed(i)
  {
    var c := i.event.value.control;
    AudioUp(c.assignedId, c.session, Params(c.sampleRate, c.frameSamples, c.codec))
  }

  /** The tick sends a HELLO: the next try after 100 ms, or, after the tenth, the first of a new handshake while
      the window is open. */
  predicate TriesAgain(s: Session, i: Input) {
    && StillJoining(s, i) && i.now >= s.phase.lastTx + 100
    && (s.phase.tries < 10 || (!SaysGoodbye(s, i) && s.deadline.Some? && i.now < s.deadline.value))
  }

  /** The client is joined, and has heard nothing for more than five seconds. */
  predicate LosesHost(s: Session, i: Input) {
    && ((s.joined && !SaysGoodbye(s, i)) || Joins(s, i))
    && i.nowUs > i.lastRx + 5_000_000
  }

  /** Between the packet and the check for a lost host. */
  function Acted(s: Session, hello: W.Control, i: Input): Session {
    var (s1, actions, _) := Receive(s, i);
    var (phase', more) := ClientTick(s1.phase, hello, i.now);
    ActAll(s1.(phase := phase'), hello, actions + more, i.now).0
  }

  /** The actions of a turn, one way or the other. */
  lemma ActsAre(s: Session, hello: W.Control, i: Input)
    ensures var (s1, actions, _) := Receive(s, i);
            var (phase', more) := ClientTick(s1.phase, hello, i.now);
            && |actions + more| <= 2
            && (!(s.phase.Joining? && !StillJoining(s, i)) && !(StillJoining(s, i) && i.now >= s.phase.lastTx + 100) ==> actions + more == [])
            && (StillJoining(s, i) && i.now >= s.phase.lastTx + 100 ==>
                  actions + more == [if s.phase.tries < 10 then SendToHost(hello) else Fail(Timeout)])
            && (s.phase.Joining? && i.event.Some? && i.event.value.control.Deny? ==> |actions + more| == 1 && (actions + more)[0].Fail? && (actions + more)[0].why.Denied?)
            && (s.phase.Joining? && Welcomed(i) ==> |actions + more| == 2 && (actions + more)[0].StartAudio? && (actions + more)[1].RosterUpdate?)
  {
  }

  lemma ActOneOut(s: Session, hello: W.Control, a: ClientAction, now: nat)
    ensures ActAll(s, hello, [a], now) == Act(s, hello, a, now)
  {
    assert [a][1..] == [];
    assert Act(s, hello, a, now).1 + [] == Act(s, hello, a, now).1;
  }

  lemma ActTwoOut(s: Session, hello: W.Control, a: ClientAction, b: ClientAction, now: nat)
    ensures var (s1, out1) := Act(s, hello, a, now);
            var (s2, out2) := Act(s1, hello, b, now);
            ActAll(s, hello, [a, b], now) == (s2, out1 + out2)
  {
    assert [a, b][1..] == [b];
    ActOneOut(Act(s, hello, a, now).0, hello, b, now);
  }

  lemma ActsAreOne(s: Session, hello: W.Control, i: Input)
    requires s.joined ==> s.phase.Joined?
    ensures var (_, out, _, _) := Parts(s, hello, i);
            var s2 := Acted(s, hello, i);
            && (s2.joined <==> ((s.joined && !SaysGoodbye(s, i)) || Joins(s, i)))
            && (TriesAgain(s, i) && s.phase.tries < 10 ==> out == [Tx(hello, s2.sessionId, s2.senderId, i.now)])
            && (TriesAgain(s, i) && s.phase.tries >= 10 ==> out == [Begins(i.now), Tx(hello, s2.sessionId, s2.senderId, i.now)])
            && (!TriesAgain(s, i) ==> out == if Joins(s, i) then [BufferReset, Granted(i)] else [])
  {
    var (s1, actions, _) := Receive(s, i);
    var (phase', more) := ClientTick(s1.phase, hello, i.now);
    var all := actions + more;
    ActsAre(s, hello, i);
    if |all| == 1 {
      assert all == [all[0]];
      ActOneOut(s1.(phase := phase'), hello, all[0], i.now);
    } else if |all| == 2 {
      assert all == [all[0], all[1]];
      ActTwoOut(s1.(phase := phase'), hello, all[0], all[1], i.now);
    }
  }

  lemma ReceivedSift(s: Session, hello: W.Control, i: Input, sort: Sort)
    ensures var (out, _, _, _) := Parts(s, hello, i);
            Sift(out, sort) == if Welcomed(i) && sort.Acks? then [Acknowledgement(s, i)]
                               else if SaysGoodbye(s, i) && sort.Flushes? then [BufferReset] else []
  {
    var (out, _, _, _) := Parts(s, hello, i);
    if out != [] {
      assert out == [out[0]];
      SiftOne(out[0], sort);
    }
  }

  /** The number the WELCOME came under, in the session it names, under the client's id so far; 2 is the code of a
      WELCOME. */
  function Acknowledgement(s: Session, i: Input): Out
    requires Welcomed(i)
  {
    Tx(W.Ack(i.event.value.seqno, 2), i.event.value.control.session, s.senderId, i.now)
  }

  lemma ActedSift(s: Session, hello: W.Control, i: Input, sort: Sort)
    requires hello.Hello? && (s.joined ==> s.phase.Joined?)
    ensures var (_, out, _, _) := Parts(s, hello, i);
            var s2 := Acted(s, hello, i);
            Sift(out, sort) == if TriesAgain(s, i) && sort.Hellos? then [Tx(hello, s2.sessionId, s2.senderId, i.now)]
                               else if Joins(s, i) && sort.Flushes? then [BufferReset]
                               else if Joins(s, i) && sort.Starts? then [Granted(i)] else []
  {
    var (_, out, _, _) := Parts(s, hello, i);
    ActsAreOne(s, hello, i);
    if TriesAgain(s, i) && s.phase.tries < 10 {
      SiftOne(out[0], sort);
    } else if TriesAgain(s, i) {
      SiftTwo(out[0], out[1], sort);
    } else if Joins(s, i) {
      SiftTwo(out[0], out[1], sort);
    }
  }

  lemma CheckedSift(s: Session, hello: W.Control, i: Input, sort: Sort)
    requires hello.Hello?
    ensures var (s', out) := CheckHost(s, hello, i.now, i.nowUs, i.lastRx);
            var lost := s.joined && i.nowUs > i.lastRx + 5_000_000;
            && Sift(out, sort) == (if !lost then [] else match sort
                 case Hellos => [Tx(hello, s.sessionId, s.senderId, i.now)]
                 case Losses => [HostLost(i.now)]
                 case Flushes => [BufferReset]
                 case _ => [])
            && s'.joined == (s.joined && !lost) && s'.sessionId == s.sessionId && s'.senderId == s.senderId
            && s'.lastPing == s.lastPing && s'.lastKeepalive == s.lastKeepalive
  {
    var out := CheckHost(s, hello, i.now, i.nowUs, i.lastRx).1;
    if out != [] {
      assert out == [out[0], out[1]] + [out[2], out[3]];
      SiftConcat([out[0], out[1]], [out[2], out[3]], sort);
      SiftTwo(out[0], out[1], sort);
      SiftTwo(out[2], out[3], sort);
    }
  }

  lemma TouchedSift(s: Session, now: nat, pingUs: u64, sort: Sort)
    ensures var out := StayInTouch(s, now, pingUs).1;
            Sift(out, sort) == if sort.Timers? then out else []
  {
    var out := StayInTouch(s, now, pingUs).1;
    if |out| == 2 {
      assert out == [out[0], out[1]];
      SiftTwo(out[0], out[1], sort);
    } else if |out| == 1 {
      assert out == [out[0]];
      SiftOne(out[0], sort);
    }
  }

  // ---------------------------------------------------------------- what a turn sends

  /** A WELCOME is acknowledged once, whatever the client is doing, under the number it came under; nothing else
      is acknowledged. */
  lemma AcknowledgesExactly(s: Session, hello: W.Control, i: Input)
    requires hello.Hello? && (s.joined ==> s.phase.Joined?)
    ensures Sift(Turn(s, hello, i).1, Acks)
         == if i.event.Some? && i.event.value.control.Welcome?
            then [Tx(W.Ack(i.event.value.seqno, 2), i.event.value.control.session, s.senderId, i.now)] else []
  {
    SiftTurn(s, hello, i, Acks);
    ReceivedSift(s, hello, i, Acks);
    ActedSift(s, hello, i, Acks);
    CheckedSift(Acted(s, hello, i), hello, i, Acks);
    TouchedSift(CheckHost(Acted(s, hello, i), hello, i.now, i.nowUs, i.lastRx).0, i.now, i.pingUs, Acks);
  }

  /** A turn sends a HELLO, and then one, if and only if the client tries again or has lost the host: a joining
      client that has not been answered tries again 100 ms after its last try, ten times, and after that begins
      anew while its window is open; a joined one has lost the host after more than five seconds of silence. */
  lemma GreetsExactly(s: Session, hello: W.Control, i: Input)
    requires hello.Hello? && (s.joined ==> s.phase.Joined?)
    ensures var (s', outs) := Turn(s, hello, i);
            Sift(outs, Hellos) == if TriesAgain(s, i) || LosesHost(s, i) then [Tx(hello, s'.sessionId, s'.senderId, i.now)] else []
  {
    SiftTurn(s, hello, i, Hellos);
    ReceivedSift(s, hello, i, Hellos);
    ActedSift(s, hello, i, Hellos);
    ActsAreOne(s, hello, i);
    CheckedSift(Acted(s, hello, i), hello, i, Hellos);
    TouchedSift(CheckHost(Acted(s, hello, i), hello, i.now, i.nowUs, i.lastRx).0, i.now, i.pingUs, Hellos);
  }

  /** It finds the host lost exactly when it is joined and has heard nothing for more than five seconds, and then
      it is no longer joined. */
  lemma LosesHostExactly(s: Session, hello: W.Control, i: Input)
    requires hello.Hello? && (s.joined ==> s.phase.Joined?)
    ensures Sift(Turn(s, hello, i).1, Losses) == if LosesHost(s, i) then [HostLost(i.now)] else []
    ensures Turn(s, hello, i).0.joined <==>
              ((s.joined && !SaysGoodbye(s, i)) || Joins(s, i)) && !LosesHost(s, i)
  {
    SiftTurn(s, hello, i, Losses);
    ReceivedSift(s, hello, i, Losses);
    ActedSift(s, hello, i, Losses);
    ActsAreOne(s, hello, i);
    CheckedSift(Acted(s, hello, i), hello, i, Losses);
    TouchedSift(CheckHost(Acted(s, hello, i), hello, i.now, i.nowUs, i.lastRx).0, i.now, i.pingUs, Losses);
  }

  /** Audio is started exactly when a joining client is let in, with the id, the session and the parameters of the
      WELCOME. */
  lemma StartsAudioExactly(s: Session, hello: W.Control, i: Input)
    requires hello.Hello? && (s.joined ==> s.phase.Joined?)
    ensures Sift(Turn(s, hello, i).1, Starts) == if Joins(s, i) then [Granted(i)] else []
  {
    SiftTurn(s, hello, i, Starts);
    ReceivedSift(s, hello, i, Starts);
    ActedSift(s, hello, i, Starts);
    CheckedSift(Acted(s, hello, i), hello, i, Starts);
    TouchedSift(CheckHost(Acted(s, hello, i), hello, i.now, i.nowUs, i.lastRx).0, i.now, i.pingUs, Starts);
  }

  /** The stream's buffer is emptied then, at the session's goodbye, and when the host is lost. */
  lemma EmptiesBufferExactly(s: Session, hello: W.Control, i: Input)
    requires hello.Hello? && (s.joined ==> s.phase.Joined?)
    ensures Sift(Turn(s, hello, i).1, Flushes)
         == (if SaysGoodbye(s, i) then [BufferReset] else []) + (if Joins(s, i) then [BufferReset] else [])
            + if LosesHost(s, i) then [BufferReset] else []
  {
    SiftTurn(s, hello, i, Flushes);
    ReceivedSift(s, hello, i, Flushes);
    ActedSift(s, hello, i, Flushes);
    ActsAreOne(s, hello, i);
    CheckedSift(Acted(s, hello, i), hello, i, Flushes);
    TouchedSift(CheckHost(Acted(s, hello, i), hello, i.now, i.nowUs, i.lastRx).0, i.now, i.pingUs, Flushes);
  }

  // ---------------------------------------------------------------- where a turn leaves the client

  function PhaseAfter(s: Session, i: Input): Phase {
    if LosesHost(s, i) then Joining(i.now, 1)
    else if Joins(s, i) then Joined(Granted(i).senderId, Granted(i).sessionId, Granted(i).params)
    else if IsDenied(s, i) then GaveUp(Denied(i.event.value.control.reason))
    else if !s.phase.Joining? || i.now < s.phase.lastTx + 100 then s.phase
    else if s.phase.tries < 10 then Joining(i.now, s.phase.tries + 1)
    else if TriesAgain(s, i) then Joining(i.now, 1)
    else GaveUp(Timeout)
  }

  /** Thirty seconds to be let in again, from the last time it was let in or lost the host; none after a goodbye
      or a refusal. */
  function DeadlineAfter(s: Session, i: Input): Option<nat> {
    if Joins(s, i) || LosesHost(s, i) then Some(i.now + 30_000)
    else if SaysGoodbye(s, i) || IsDenied(s, i) then None
    else s.deadline
  }

  /** Where the actions leave it, before the check for a lost host. */
  predicate ActedRight(s: Session, hello: W.Control, i: Input) {
    var s2, quiet := Acted(s, hello, i), i.(lastRx := i.nowUs);
    && s2.phase == PhaseAfter(s, quiet) && s2.deadline == DeadlineAfter(s, quiet)
    && s2.sessionId == (if Joins(s, i) then Granted(i).sessionId else s.sessionId)
    && s2.senderId == (if Joins(s, i) then Granted(i).senderId else s.senderId)
  }

  lemma ActedJoins(s: Session, hello: W.Control, i: Input)
    requires Joins(s, i) && !s.joined
    ensures ActedRight(s, hello, i)
  {
    var (s1, actions, _) := Receive(s, i);
    var (phase', more) := ClientTick(s1.phase, hello, i.now);
    assert actions + more == [actions[0], actions[1]];
    ActTwoOut(s1.(phase := phase'), hello, actions[0], actions[1], i.now);
  }

  lemma ActedDenied(s: Session, hello: W.Control, i: Input)
    requires IsDenied(s, i) && !s.joined
    ensures ActedRight(s, hello, i)
  {
    var (s1, actions, _) := Receive(s, i);
    var (phase', more) := ClientTick(s1.phase, hello, i.now);
    assert actions + more == [actions[0]];
    ActOneOut(s1.(phase := phase'), hello, actions[0], i.now);
  }

  lemma ActedTries(s: Session, hello: W.Control, i: Input)
    requires StillJoining(s, i) && i.now >= s.phase.lastTx + 100 && !s.joined
    ensures ActedRight(s, hello, i)
  {
    var (s1, actions, _) := Receive(s, i);
    var (phase', more) := ClientTick(s1.phase, hello, i.now);
    assert actions == [] && actions + more == [more[0]];
    ActOneOut(s1.(phase := phase'), hello, more[0], i.now);
  }

  lemma ActedIdle(s: Session, hello: W.Control, i: Input)
    requires !Joins(s, i) && !IsDenied(s, i) && !(StillJoining(s, i) && i.now >= s.phase.lastTx + 100) && (s.joined ==> s.phase.Joined?)
    ensures ActedRight(s, hello, i)
  {
    ActsAre(s, hello, i);
  }

  lemma ActedIs(s: Session, hello: W.Control, i: Input)
    requires s.joined ==> s.phase.Joined?
    ensures ActedRight(s, hello, i)
  {
    if Joins(s, i) {
      ActedJoins(s, hello, i);
    } else if IsDenied(s, i) {
      ActedDenied(s, hello, i);
    } else if StillJoining(s, i) && i.now >= s.phase.lastTx + 100 {
      ActedTries(s, hello, i);
    } else {
      ActedIdle(s, hello, i);
    }
  }

  /** Where every turn leaves the client: its phase, its window, and the id and session it sends under. */
  lemma ClientIsAfter(s: Session, hello: W.Control, i: Input)
    requires s.joined ==> s.phase.Joined?
    ensures var s' := Turn(s, hello, i).0;
            && s'.phase == PhaseAfter(s, i) && s'.deadline == DeadlineAfter(s, i)
            && s'.sessionId == (if Joins(s, i) then Granted(i).sessionId else s.sessionId)
            && s'.senderId == (if Joins(s, i) then Granted(i).senderId else s.senderId)
  {
    ActedIs(s, hello, i);
    ActsAreOne(s, hello, i);
  }

  /** What is due of the timers, one second and half a second after they last ran. */
  predicate Due(joined: bool, now: nat, last: nat, interval: nat) { joined && now >= last + interval }

  lemma TimersKept(s: Session, hello: W.Control, i: Input)
    ensures Acted(s, hello, i).lastPing == s.lastPing && Acted(s, hello, i).lastKeepalive == s.lastKeepalive
  {
    var (s1, actions, _) := Receive(s, i);
    var (phase', more) := ClientTick(s1.phase, hello, i.now);
    var all := actions + more;
    ActsAre(s, hello, i);
    if |all| == 1 {
      assert all == [all[0]];
      ActOneOut(s1.(phase := phase'), hello, all[0], i.now);
    } else if |all| == 2 {
      assert all == [all[0], all[1]];
      ActTwoOut(s1.(phase := phase'), hello, all[0], all[1], i.now);
    }
  }

  /** A client that is joined at the end of a turn has sent, in that turn, a ping if a second has passed since the
      last, stamped with the turn's time, and a keepalive if half a second has, both under its id and session;
      any other client neither. */
  lemma StaysInTouchExactly(s: Session, hello: W.Control, i: Input)
    requires hello.Hello? && (s.joined ==> s.phase.Joined?)
    ensures var (s', outs) := Turn(s, hello, i);
            && Sift(outs, Timers)
               == (if Due(s'.joined, i.now, s.lastPing, 1000) then [Tx(W.Ping(i.pingUs), s'.sessionId, s'.senderId, i.now)] else [])
                + (if Due(s'.joined, i.now, s.lastKeepalive, 500) then [Tx(W.Keepalive, s'.sessionId, s'.senderId, i.now)] else [])
            && s'.lastPing == (if Due(s'.joined, i.now, s.lastPing, 1000) then i.now else s.lastPing)
            && s'.lastKeepalive == (if Due(s'.joined, i.now, s.lastKeepalive, 500) then i.now else s.lastKeepalive)
  {
    SiftTurn(s, hello, i, Timers);
    ReceivedSift(s, hello, i, Timers);
    ActedSift(s, hello, i, Timers);
    TimersKept(s, hello, i);
    CheckedSift(Acted(s, hello, i), hello, i, Timers);
    TouchedSift(CheckHost(Acted(s, hello, i), hello, i.now, i.nowUs, i.lastRx).0, i.now, i.pingUs, Timers);
  }
}
