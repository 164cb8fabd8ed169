/** The client's control loop (crates/jam-core/src/control.rs:395-582): joining, rejoining after the host has
    been lost, and giving up. */
module ClientControl {
  import opened Common
  import opened Utf8
  import opened Seq16
  import opened Handshake
  import opened Retries
  import W = Wire

  const REJOIN_WINDOW_MS := 30_000
  const MAX_HANDSHAKES := 30

  /** The id a client sends under until it has been given one. */
  const UNJOINED_SENDER_ID: u16 := 0xffff

  /** A control packet from the host. */
  datatype Event = Event(seqno: u16, session: u16, control: W.Control)

  datatype Session = Session(phase: Phase, joined: bool, deadline: Option<nat>, sessionId: u16, senderId: u16,
                             roster: seq<W.PlayerInfo>, rosterSeq: Option<u16>, lastPing: nat, lastKeepalive: nat)

  /** What the loop does to the outside: packets to the host, the buffer of the stream from the host, the audio
      path, and, for the record, when it begins a handshake and when it finds the host lost. */
  datatype Out =
    | Begins(at: nat)
    | Tx(control: W.Control, session: u16, sender: u16, at: nat)
    | BufferReset
    | AudioUp(senderId: u16, sessionId: u16, params: Params)
    | HostLost(at: nat)

  /** `accept_control_seq` */
  function AcceptSeq(last: Option<u16>, incoming: u16): (Option<u16>, bool) {
    if last.None? || NewerThan(incoming, last.value) then (Some(incoming), true) else (last, false)
  }

  function Begin(s: Session, hello: W.Control, now: nat): (Session, seq<Out>) {
    (s.(phase := ClientStart(hello, now).0), [Begins(now), Tx(hello, s.sessionId, s.senderId, now)])
  }

  function OnEvent(s: Session, e: Event, now: nat): (Session, seq<ClientAction>, seq<Out>) {
    match e.control
    case Welcome(_, session, _, _, _, _) =>
      var (phase', actions) := ClientOnControl(s.phase, e.control);
      (s.(phase := phase'), actions, [Tx(W.Ack(e.seqno, W.TypeCode(W.WelcomeType)), session, s.senderId, now)])
    case Roster(players) =>
      var (last', fresher) := AcceptSeq(s.rosterSeq, e.seqno);
      (s.(rosterSeq := last', roster := if fresher then players else s.roster), [], [])
    case Deny(_) =>
      var (phase', actions) := ClientOnControl(s.phase, e.control);
      (s.(phase := phase'), actions, [])
    case Bye =>
      if e.session == s.sessionId then (s.(joined := false, deadline := None), [], [BufferReset]) else (s, [], [])
    case _ => (s, [], [])
  }

  function Act(s: Session, hello: W.Control, a: ClientAction, now: nat): (Session, seq<Out>) {
    match a
    case SendToHost(c) => (s, [Tx(c, s.sessionId, s.senderId, now)])
    case StartAudio(id, session, params) =>
      (s.(sessionId := session, senderId := id, joined := true, deadline := Some(now + REJOIN_WINDOW_MS), rosterSeq := None),
       [BufferReset, AudioUp(id, session, params)])
    case RosterUpdate(players) => (s.(roster := players), [])
    case Fail(Denied(_)) => (s.(deadline := None), [])
    case Fail(Timeout) => if s.deadline.Some? && now < s.deadline.value then Begin(s, hello, now) else (s, [])
  }

  function ActAll(s: Session, hello: W.Control, actions: seq<ClientAction>, now: nat): (Session, seq<Out>)
    decreases actions
  {
    if actions == [] then (s, [])
    else
      var (s1, out) := Act(s, hello, actions[0], now);
      var (s2, outs) := ActAll(s1, hello, actions[1..], now);
      (s2, out + outs)
  }

  /** The host has been quiet for too long; the times are in microseconds. */
  function CheckHost(s: Session, hello: W.Control, now: nat, nowUs: nat, lastRx: nat): (Session, seq<Out>) {
    if s.joined && Monus(nowUs, lastRx) > PEER_TIMEOUT_MS * 1000 then
      var (s', out) := Begin(s.(joined := false, deadline := Some(now + REJOIN_WINDOW_MS)), hello, now);
      (s', [HostLost(now), BufferReset] + out)
    else (s, [])
  }

  /** Pings and keepalives to a host the client is joined to. */
  function StayInTouch(s: Session, now: nat, pingUs: u64): (Session, seq<Out>) {
    var ping, keep := s.joined && Monus(now, s.lastPing) >= PING_INTERVAL_MS, s.joined && Monus(now, s.lastKeepalive) >= KEEPALIVE_MS;
    (s.(lastPing := if ping then now else s.lastPing, lastKeepalive := if keep then now else s.lastKeepalive),
     (if ping then [Tx(W.Ping(pingUs), s.sessionId, s.senderId, now)] else []) +
     (if keep then [Tx(W.Keepalive, s.sessionId, s.senderId, now)] else []))
  }

  datatype Input = Input(event: Option<Event>, now: nat, nowUs: nat, lastRx: nat, pingUs: u64)

  function Receive(s: Session, i: Input): (Session, seq<ClientAction>, seq<Out>) {
    if i.event.Some? then OnEvent(s, i.event.value, i.now) else (s, [], [])
  }

  /** One turn of the loop, up to its timers. */
  function Attend(s: Session, hello: W.Control, i: Input): (Session, seq<Out>) {
    var (s1, actions, out1) := Receive(s, i);
    var (phase', more) := ClientTick(s1.phase, hello, i.now);
    var (s2, out2) := ActAll(s1.(phase := phase'), hello, actions + more, i.now);
    var (s3, out3) := CheckHost(s2, hello, i.now, i.nowUs, i.lastRx);
    (s3, out1 + out2 + out3)
  }

  /** One turn of the loop. */
  function Turn(s: Session, hello: W.Control, i: Input): (Session, seq<Out>) {
    var (s1, out1) := Attend(s, hello, i);
    var (s2, out2) := StayInTouch(s1, i.now, i.pingUs);
    (s2, out1 + out2)
  }

  class ClientLoop {
    const room: W.RoomCode
    const name: Text
    var cs: ClientHandshake
    var joined: bool
    var deadline: Option<nat>
    var sessionId: u16
    var senderId: u16
    var roster: seq<W.PlayerInfo>
    var rosterSeq: Option<u16>
    var lastPing: nat
    var lastKeepalive: nat

    ghost predicate Valid()
      reads this, cs
    {
      cs.hello == HelloFor(room, name)
    }

    ghost function View(): Session
      reads this, cs
    {
      Session(cs.phase, joined, deadline, sessionId, senderId, roster, rosterSeq, lastPing, lastKeepalive)
    }

    /** The loop's prologue: the window opens, then the first handshake begins. */
    constructor (room: W.RoomCode, name: Text, openedAt: nat, now: nat)
      ensures Valid() && fresh(cs) && View() == Begin(NewSession(openedAt), HelloFor(room, name), now).0
    {
      this.room, this.name := room, name;
      cs := new ClientHandshake(room, name);
      joined, deadline := false, Some(openedAt + REJOIN_WINDOW_MS);
      sessionId, senderId, roster, rosterSeq, lastPing, lastKeepalive := 0, UNJOINED_SENDER_ID, [], None, 0, 0;
      new;
      var _ := cs.Start(now);
    }

    method BeginHandshake(now: nat) returns (outs: seq<Out>)
      requires Valid()
      modifies this`cs
      ensures Valid() && fresh(cs) && (View(), outs) == Begin(old(View()), HelloFor(room, name), now)
    {
      cs := new ClientHandshake(room, name);
      var actions := cs.Start(now);
      return [Begins(now), Tx(actions[0].control, sessionId, senderId, now)];
    }

    method HandleEvent(e: Event, now: nat) returns (actions: seq<ClientAction>, outs: seq<Out>)
      requires Valid()
      modifies this`joined, this`deadline, this`roster, this`rosterSeq, cs
      ensures Valid() && (View(), actions, outs) == OnEvent(old(View()), e, now)
    {
      actions, outs := [], [];
      match e.control
      case Welcome(_, session, _, _, _, _) =>
        outs := [Tx(W.Ack(e.seqno, W.TypeCode(W.WelcomeType)), session, senderId, now)];
        actions := cs.OnControl(e.control);
      case Roster(players) =>
        if rosterSeq.None? || NewerThan(e.seqno, rosterSeq.value) {
          rosterSeq := Some(e.seqno);
          roster := players;
        }
      case Deny(_) =>
        actions := cs.OnControl(e.control);
      case Bye =>
        if e.session == sessionId {
          joined := false;
          deadline := None;
          outs := [BufferReset];
        }
      case _ =>
    }

    method Perform(a: ClientAction, now: nat) returns (outs: seq<Out>)
      requires Valid()
      modifies this
      ensures Valid() && (cs == old(cs) || fresh(cs)) && (View(), outs) == Act(old(View()), HelloFor(room, name), a, now)
    {
      outs := [];
      match a
      case SendToHost(c) =>
        outs := [Tx(c, sessionId, senderId, now)];
      case StartAudio(id, session, params) =>
        sessionId, senderId, joined := session, id, true;
        deadline := Some(now + REJOIN_WINDOW_MS);
        rosterSeq := None;
        outs := [BufferReset, AudioUp(id, session, params)];
      case RosterUpdate(players) =>
        roster := players;
      case Fail(Denied(_)) =>
        deadline := None;
      case Fail(Timeout) =>
        if deadline.Some? && now < deadline.value {
          outs := BeginHandshake(now);
        }
    }

    method PerformAll(actions: seq<ClientAction>, now: nat) returns (outs: seq<Out>)
      requires Valid()
      modifies this
      ensures Valid() && (cs == old(cs) || fresh(cs)) && (View(), outs) == ActAll(old(View()), HelloFor(room, name), actions, now)
    {
      outs := [];
      ghost var hello, all := HelloFor(room, name), ActAll(View(), HelloFor(room, name), actions, now);
      for k := 0 to |actions|
        invariant Valid() && (cs == old(cs) || fresh(cs))
        invariant ActAll(View(), hello, actions[k..], now).0 == all.0
        invariant outs + ActAll(View(), hello, actions[k..], now).1 == all.1
      {
        ghost var rest := ActAll(View(), hello, actions[k..], now).1;
        assert actions[k..][1..] == actions[k + 1..];
        var out := Perform(actions[k], now);
        Regroup(outs, out, ActAll(View(), hello, actions[k + 1..], now).1);
        outs := outs + out;
      }
      assert actions[|actions|..] == [] && outs + [] == outs;
    }

    method WatchHost(now: nat, nowUs: nat, lastRx: nat) returns (outs: seq<Out>)
      requires Valid()
      modifies this
      ensures Valid() && (cs == old(cs) || fresh(cs))
      ensures (View(), outs) == CheckHost(old(View()), HelloFor(room, name), now, nowUs, lastRx)
    {
      outs := [];
      if joined && Monus(nowUs, lastRx) > PEER_TIMEOUT_MS * 1000 {
        joined := false;
        deadline := Some(now + REJOIN_WINDOW_MS);
        outs := BeginHandshake(now);
        outs := [HostLost(now), BufferReset] + outs;
      }
    }

    method Iterate(i: Input) returns (outs: seq<Out>)
      requires Valid()
      modifies this, cs
      ensures Valid() && (cs == old(cs) || fresh(cs)) && (View(), outs) == Turn(old(View()), HelloFor(room, name), i)
    {
      var out1 := AttendHost(i);
      var out2 := KeepInTouch(i.now, i.pingUs);
      return out1 + out2;
    }

    method KeepInTouch(now: nat, pingUs: u64) returns (outs: seq<Out>)
      requires Valid()
      modifies this`lastPing, this`lastKeepalive
      ensures Valid() && (View(), outs) == StayInTouch(old(View()), now, pingUs)
    {
      var pings, keeps := [], [];
      if joined && Monus(now, lastPing) >= PING_INTERVAL_MS {
        lastPing := now;
        pings := [Tx(W.Ping(pingUs), sessionId, senderId, now)];
      }
      if joined && Monus(now, lastKeepalive) >= KEEPALIVE_MS {
        lastKeepalive := now;
        keeps := [Tx(W.Keepalive, sessionId, senderId, now)];
      }
      outs := pings + keeps;
    }

    method AttendHost(i: Input) returns (outs: seq<Out>)
      requires Valid()
      modifies this, cs
      ensures Valid() && (cs == old(cs) || fresh(cs)) && (View(), outs) == Attend(old(View()), HelloFor(room, name), i)
    {
      var actions: seq<ClientAction>, out1: seq<Out> := [], [];
      if i.event.Some? {
        actions, out1 := HandleEvent(i.event.value, i.now);
      }
      var more := cs.Tick(i.now);
      var out2 := PerformAll(actions + more, i.now);
      var out3 := WatchHost(i.now, i.nowUs, i.lastRx);
      return out1 + out2 + out3;
    }
  }

  function NewSession(openedAt: nat): Session {
    Session(Idle, false, Some(openedAt + REJOIN_WINDOW_MS), 0, UNJOINED_SENDER_ID, [], None, 0, 0)
  }

  function Turns(s: Session, hello: W.Control, inputs: seq<Input>): (Session, seq<Out>)
    decreases inputs
  {
    if inputs == [] then (s, [])
    else
      var (s1, out) := Turn(s, hello, inputs[0]);
      var (s2, outs) := Turns(s1, hello, inputs[1..]);
      (s2, out + outs)
  }

  /** A whole life of the loop: the window opens, the first handshake begins, and turns follow. */
  function Life(hello: W.Control, openedAt: nat, now: nat, inputs: seq<Input>): (Session, seq<Out>) {
    var (s, out) := Begin(NewSession(openedAt), hello, now);
    var (s', outs) := Turns(s, hello, inputs);
    (s', out + outs)
  }

  // ---------------------------------------------------------------- effort since the host was lost

  /** Counted from the start, or from when the host was last lost: handshakes begun and HELLOs sent; and, for
      the current handshake, the times of its HELLOs and how often it started audio. */
  datatype Effort = Effort(since: nat, handshakes: nat, hellos: nat, times: seq<nat>, audio: nat)

  function Count(f: Effort, o: Out): Effort {
    match o
    case HostLost(at) => Effort(at, 0, 0, [], 0)
    case Begins(_) => f.(handshakes := f.handshakes + 1, times := [], audio := 0)
    case Tx(c, _, _, at) => if c.Hello? then f.(hellos := f.hellos + 1, times := f.times + [at]) else f
    case BufferReset => f
    case AudioUp(_, _, _) => f.(audio := f.audio + 1)
  }

  function CountAll(f: Effort, outs: seq<Out>): Effort
    decreases outs
  {
    if outs == [] then f else CountAll(Count(f, outs[0]), outs[1..])
  }

  lemma {:induction false} CountConcat(f: Effort, a: seq<Out>, b: seq<Out>)
    ensures CountAll(f, a + b) == CountAll(CountAll(f, a), b)
    decreases a
  {
    if a == [] {
      assert a + b == b;
    } else {
      assert (a + b)[0] == a[0] && (a + b)[1..] == a[1..] + b;
      CountConcat(Count(f, a[0]), a[1..], b);
    }
  }

  lemma CountTwo(f: Effort, a: Out, b: Out)
    ensures CountAll(f, [a, b]) == Count(Count(f, a), b)
  {
    assert [a, b][1..] == [b] && [b][1..] == [];
    assert CountAll(f, [a, b]) == CountAll(Count(f, a), [b]);
    assert CountAll(Count(f, a), [b]) == CountAll(Count(Count(f, a), b), []);
  }

  predicate Bounded(f: Effort) {
    f.handshakes <= MAX_HANDSHAKES && f.hellos <= MAX_HANDSHAKES * CONTROL_MAX_TRIES
    && |f.times| <= CONTROL_MAX_TRIES && Spaced(f.times) && f.audio <= 1
  }

  /** While joining: how far the attempts have come, and how much time that has taken at least. */
  predicate OnSchedule(s: Session, f: Effort)
    requires s.phase.Joining?
  {
    && 1 <= s.phase.tries == |f.times| && f.times[|f.times| - 1] == s.phase.lastTx && f.audio == 0
    && 1 <= f.handshakes && f.hellos == CONTROL_MAX_TRIES * (f.handshakes - 1) + s.phase.tries
    && s.phase.lastTx >= f.since + 1000 * (f.handshakes - 1) + 100 * (s.phase.tries - 1)
    && (s.deadline.Some? ==> s.deadline.value == f.since + REJOIN_WINDOW_MS)
  }

  predicate Inv(s: Session, f: Effort) {
    && Bounded(f)
    && (s.joined ==> s.phase.Joined?)
    && (s.phase.Joining? ==> OnSchedule(s, f))
  }

  lemma ReceiveKeepsInv(s: Session, f: Effort, i: Input)
    requires Inv(s, f)
    ensures var (s', actions, out) := Receive(s, i);
            && CountAll(f, out) == f && Bounded(f)
            && (s'.phase.Joining? ==> actions == [] && Inv(s', f))
            && (actions == [] ==> Inv(s', f))
            && (actions != [] ==> s.phase.Joining? && !s'.joined && s'.phase == ClientOnControl(s.phase, i.event.value.control).0
                                  && actions == ClientOnControl(s.phase, i.event.value.control).1)
  {
  }

  /** A handshake begins: at the first turn of a lost host, or when ten tries have failed inside the window. */
  lemma BeginKeepsInv(s: Session, f: Effort, hello: W.Control, now: nat)
    requires hello.Hello? && !s.joined && Bounded(f)
    requires f.handshakes < MAX_HANDSHAKES && f.hellos == CONTROL_MAX_TRIES * f.handshakes
    requires now >= f.since + 1000 * f.handshakes && (s.deadline.Some? ==> s.deadline.value == f.since + REJOIN_WINDOW_MS)
    ensures Inv(Begin(s, hello, now).0, CountAll(f, Begin(s, hello, now).1))
  {
    CountTwo(f, Begins(now), Tx(hello, s.sessionId, s.senderId, now));
  }

  lemma TickKeepsInv(s: Session, f: Effort, hello: W.Control, now: nat)
    requires Inv(s, f) && hello.Hello?
    ensures var (phase', actions) := ClientTick(s.phase, hello, now);
            var (s', out) := ActAll(s.(phase := phase'), hello, actions, now);
            Inv(s', CountAll(f, out))
  {
    var (phase', actions) := ClientTick(s.phase, hello, now);
    if actions != [] {
      assert actions[1..] == [];
      var (s', out) := Act(s.(phase := phase'), hello, actions[0], now);
      assert out + [] == out;
      if actions[0].Fail? && out != [] {
        BeginKeepsInv(s.(phase := phase'), f, hello, now);
      }
    }
  }

  /** WELCOME or DENY ends the handshake; the tick that follows then has nothing to do. */
  lemma AnswerKeepsInv(s: Session, f: Effort, hello: W.Control, c: W.Control, now: nat)
    requires Bounded(f) && f.audio == 0 && s.phase.Joining? && ClientOnControl(s.phase, c).1 != [] && !s.joined
    ensures var (phase', actions) := ClientOnControl(s.phase, c);
            var (s', out) := ActAll(s.(phase := phase'), hello, actions, now);
            Inv(s', CountAll(f, out))
  {
    var (phase', actions) := ClientOnControl(s.phase, c);
    var s1 := s.(phase := phase');
    if c.Welcome? {
      var (s2, out2) := Act(s1, hello, actions[0], now);
      assert actions[1..] == [RosterUpdate(c.roster)] && actions[1..][1..] == [];
      assert ActAll(s2, hello, actions[1..], now).1 == [];
      assert out2 + [] == out2;
      CountTwo(f, BufferReset, AudioUp(c.assignedId, c.session, Params(c.sampleRate, c.frameSamples, c.codec)));
    } else {
      assert actions[1..] == [];
    }
  }

  lemma CheckKeepsInv(s: Session, f: Effort, hello: W.Control, i: Input)
    requires Inv(s, f) && hello.Hello?
    ensures var (s', out) := CheckHost(s, hello, i.now, i.nowUs, i.lastRx);
            Inv(s', CountAll(f, out))
  {
    if s.joined && Monus(i.nowUs, i.lastRx) > PEER_TIMEOUT_MS * 1000 {
      var s1 := s.(joined := false, deadline := Some(i.now + REJOIN_WINDOW_MS));
      BeginKeepsInv(s1, Effort(i.now, 0, 0, [], 0), hello, i.now);
      CountConcat(f, [HostLost(i.now), BufferReset], Begin(s1, hello, i.now).1);
      CountTwo(f, HostLost(i.now), BufferReset);
    }
  }

  lemma AttendKeepsInv(s: Session, f: Effort, hello: W.Control, i: Input)
    requires Inv(s, f) && hello.Hello?
    ensures Inv(Attend(s, hello, i).0, CountAll(f, Attend(s, hello, i).1))
  {
    var (s1, actions, out1) := Receive(s, i);
    var (phase', more) := ClientTick(s1.phase, hello, i.now);
    var (s2, out2) := ActAll(s1.(phase := phase'), hello, actions + more, i.now);
    ReceiveKeepsInv(s, f, i);
    if actions == [] {
      assert actions + more == more;
      TickKeepsInv(s1, f, hello, i.now);
    } else {
      assert more == [] && actions + more == actions && phase' == s1.phase;
      AnswerKeepsInv(s1.(phase := s.phase), f, hello, i.event.value.control, i.now);
    }
    CheckKeepsInv(s2, CountAll(f, out2), hello, i);
    CountConcat(f, out1, out2);
    CountConcat(f, out1 + out2, CheckHost(s2, hello, i.now, i.nowUs, i.lastRx).1);
  }

  /** Pings and keepalives count for nothing. */
  lemma TouchCountsNothing(f: Effort, s: Session, now: nat, pingUs: u64)
    ensures CountAll(f, StayInTouch(s, now, pingUs).1) == f
  {
    var outs := StayInTouch(s, now, pingUs).1;
    if |outs| == 2 {
      assert outs == [outs[0], outs[1]];
      CountTwo(f, outs[0], outs[1]);
    } else if |outs| == 1 {
      assert outs[1..] == [];
    }
  }

  lemma TurnKeepsInv(s: Session, f: Effort, hello: W.Control, i: Input)
    requires Inv(s, f) && hello.Hello?
    ensures Inv(Turn(s, hello, i).0, CountAll(f, Turn(s, hello, i).1))
  {
    var (s1, out1) := Attend(s, hello, i);
    AttendKeepsInv(s, f, hello, i);
    CountConcat(f, out1, StayInTouch(s1, i.now, i.pingUs).1);
    TouchCountsNothing(CountAll(f, out1), s1, i.now, i.pingUs);
  }

  lemma {:induction false} TurnsKeepInv(s: Session, f: Effort, hello: W.Control, inputs: seq<Input>)
    requires Inv(s, f) && hello.Hello?
    ensures Inv(Turns(s, hello, inputs).0, CountAll(f, Turns(s, hello, inputs).1))
    decreases inputs
  {
    if inputs != [] {
      var (s1, out) := Turn(s, hello, inputs[0]);
      TurnKeepsInv(s, f, hello, inputs[0]);
      TurnsKeepInv(s1, CountAll(f, out), hello, inputs[1..]);
      CountConcat(f, out, Turns(s1, hello, inputs[1..]).1);
    }
  }

  /** At every point of every life of the loop: since the start, or since the host was last lost, at most 30
      handshakes have begun and at most 300 HELLOs been sent; the current handshake has sent at most ten, at
      least 100 ms apart, and started audio at most once. */
  lemma RejoiningIsBounded(hello: W.Control, openedAt: nat, now: nat, inputs: seq<Input>)
    requires hello.Hello? && openedAt <= now
    ensures Bounded(CountAll(Effort(openedAt, 0, 0, [], 0), Life(hello, openedAt, now, inputs).1))
  {
    var f := Effort(openedAt, 0, 0, [], 0);
    var (s, out) := Begin(NewSession(openedAt), hello, now);
    BeginKeepsInv(NewSession(openedAt), f, hello, now);
    TurnsKeepInv(s, CountAll(f, out), hello, inputs);
    CountConcat(f, out, Turns(s, hello, inputs).1);
  }

  // ---------------------------------------------------------------- giving up

  /** Neither joined nor joining: given up, denied, or told goodbye while joined. */
  predicate Over(s: Session) { !s.joined && !s.phase.Joining? }

  predicate Quiet(o: Out) { o.BufferReset? || (o.Tx? && !o.control.Hello?) }

  lemma TurnStaysOver(s: Session, hello: W.Control, i: Input)
    requires Over(s)
    ensures Over(Turn(s, hello, i).0) && forall o | o in Turn(s, hello, i).1 :: Quiet(o)
  {
    var (s1, actions, out1) := Receive(s, i);
    assert actions == [] && Over(s1);
    assert actions + [] == [];
  }

  /** Once the client is over, no HELLO is ever sent again, no handshake begun and no audio started. */
  lemma {:induction false} GivingUpIsFinal(s: Session, hello: W.Control, inputs: seq<Input>)
    requires Over(s)
    ensures Over(Turns(s, hello, inputs).0) && forall o | o in Turns(s, hello, inputs).1 :: Quiet(o)
    decreases inputs
  {
    if inputs != [] {
      TurnStaysOver(s, hello, inputs[0]);
      GivingUpIsFinal(Turn(s, hello, inputs[0]).0, hello, inputs[1..]);
    }
  }

  lemma ActOne(s: Session, hello: W.Control, a: ClientAction, now: nat)
    ensures ActAll(s, hello, [a], now).0 == Act(s, hello, a, now).0
  {
    assert [a][1..] == [];
  }

  lemma ActTwo(s: Session, hello: W.Control, a: ClientAction, b: ClientAction, now: nat)
    ensures ActAll(s, hello, [a, b], now).0 == Act(Act(s, hello, a, now).0, hello, b, now).0
  {
    assert [a, b][1..] == [b];
    ActOne(Act(s, hello, a, now).0, hello, b, now);
  }

  /** The tick of a joining client ends the attempt iff the tenth try has gone unanswered and the window is
      closed. */
  lemma TickGivesUpIff(s: Session, hello: W.Control, now: nat)
    requires s.phase.Joining? && !s.joined
    ensures var (phase', more) := ClientTick(s.phase, hello, now);
            Over(ActAll(s.(phase := phase'), hello, more, now).0) <==>
              && s.phase.tries >= CONTROL_MAX_TRIES && now >= s.phase.lastTx + CONTROL_RETRY_MS
              && (s.deadline.None? || now >= s.deadline.value)
  {
    var (phase', more) := ClientTick(s.phase, hello, now);
    if more != [] { ActOne(s.(phase := phase'), hello, more[0], now); }
  }

  lemma CheckKeepsOver(s: Session, hello: W.Control, i: Input)
    requires !s.joined || s.phase.Joined?
    ensures Over(CheckHost(s, hello, i.now, i.nowUs, i.lastRx).0) <==> Over(s)
  {
  }

  /** A joining client gives up in a turn iff it is denied, or no WELCOME comes in it and its tick after the
      tenth try finds the window closed - by time, or by a goodbye, be it in this very turn. */
  lemma GivesUpIff(s: Session, f: Effort, hello: W.Control, i: Input)
    requires Inv(s, f) && s.phase.Joining?
    ensures Over(Turn(s, hello, i).0) <==>
              || (i.event.Some? && i.event.value.control.Deny?)
              || (&& !(i.event.Some? && i.event.value.control.Welcome?)
                  && s.phase.tries >= CONTROL_MAX_TRIES && i.now >= s.phase.lastTx + CONTROL_RETRY_MS
                  && (|| s.deadline.None? || i.now >= f.since + REJOIN_WINDOW_MS
                      || (i.event.Some? && i.event.value.control.Bye? && i.event.value.session == s.sessionId)))
  {
    var (s1, actions, _) := Receive(s, i);
    var (phase', more) := ClientTick(s1.phase, hello, i.now);
    var s2 := s1.(phase := phase');
    if actions == [] {
      assert actions + more == more;
      TickGivesUpIff(s1, hello, i.now);
    } else if i.event.value.control.Deny? {
      assert actions + more == [actions[0]];
      ActOne(s2, hello, actions[0], i.now);
    } else {
      assert actions + more == [actions[0], actions[1]];
      ActTwo(s2, hello, actions[0], actions[1], i.now);
    }
    CheckKeepsOver(ActAll(s2, hello, actions + more, i.now).0, hello, i);
  }

  predicate SaysGoodbye(s: Session, i: Input) {
    i.event.Some? && i.event.value.control.Bye? && i.event.value.session == s.sessionId
  }

  /** When the session's goodbye ends a client: always, unless it is joining and its tick in this turn is not
      the one after the tenth try. */
  lemma GoodbyeEndsIff(s: Session, f: Effort, hello: W.Control, i: Input)
    requires Inv(s, f) && SaysGoodbye(s, i)
    ensures Over(Turn(s, hello, i).0) <==>
              !s.phase.Joining? || (s.phase.tries >= CONTROL_MAX_TRIES && i.now >= s.phase.lastTx + CONTROL_RETRY_MS)
  {
    if s.phase.Joining? {
      GivesUpIff(s, f, hello, i);
    } else {
      assert Receive(s, i).1 == [] && ClientTick(Receive(s, i).0.phase, hello, i.now).1 == [];
    }
  }

  /** Between tries, a goodbye only closes the window and resets the buffer. */
  lemma GoodbyeTurn(s: Session, hello: W.Control, i: Input)
    requires !s.joined && s.phase.Joining? && SaysGoodbye(s, i) && i.now < s.phase.lastTx + CONTROL_RETRY_MS
    ensures Turn(s, hello, i).0 == s.(deadline := None)
  {
    assert ActAll(s.(deadline := None), hello, [] + [], i.now) == (s.(deadline := None), []);
  }

  lemma RetryTurn(s: Session, hello: W.Control, i: Input)
    requires !s.joined && s.phase.Joining? && i.event.None?
    requires s.phase.tries < CONTROL_MAX_TRIES && i.now >= s.phase.lastTx + CONTROL_RETRY_MS
    ensures Turn(s, hello, i).0 == s.(phase := Joining(i.now, s.phase.tries + 1))
    ensures Tx(hello, s.sessionId, s.senderId, i.now) in Turn(s, hello, i).1
  {
    var s' := s.(phase := Joining(i.now, s.phase.tries + 1));
    assert [SendToHost(hello)][1..] == [] && [] + [SendToHost(hello)] == [SendToHost(hello)];
    assert ActAll(s', hello, [SendToHost(hello)], i.now) == (s', [Tx(hello, s.sessionId, s.senderId, i.now)] + []);
  }

  /** A WELCOME starts a joining client's audio, whatever was said before. */
  lemma WelcomeTurn(s: Session, hello: W.Control, i: Input)
    requires !s.joined && s.phase.Joining? && i.event.Some? && i.event.value.control.Welcome?
    requires Monus(i.nowUs, i.lastRx) <= PEER_TIMEOUT_MS * 1000
    ensures var w := i.event.value.control;
            && Turn(s, hello, i).0.joined && Turn(s, hello, i).0.phase.Joined?
            && Turn(s, hello, i).0.senderId == w.assignedId && Turn(s, hello, i).0.sessionId == w.session
            && AudioUp(w.assignedId, w.session, Params(w.sampleRate, w.frameSamples, w.codec)) in Turn(s, hello, i).1
  {
    var (phase', actions) := ClientOnControl(s.phase, i.event.value.control);
    var (s1, out) := Act(s.(phase := phase'), hello, actions[0], i.now);
    assert actions[1..][1..] == [] && actions + [] == actions;
    assert ActAll(s1, hello, actions[1..], i.now).1 == [];
    assert out[1] in Turn(s, hello, i).1;
  }

  /** The host has been silent: the client starts over, and keeps the session it was in. */
  lemma HostLostTurn(s: Session, hello: W.Control, i: Input)
    requires s.joined && s.phase.Joined? && i.event.None? && Monus(i.nowUs, i.lastRx) > PEER_TIMEOUT_MS * 1000
    ensures Turn(s, hello, i).0 == s.(joined := false, deadline := Some(i.now + REJOIN_WINDOW_MS), phase := Joining(i.now, 1))
  {
    assert Receive(s, i).1 + ClientTick(Receive(s, i).0.phase, hello, i.now).1 == [];
  }

  /** A life in which a goodbye comes while the client is joining: it has joined, loses the host, and is told
      goodbye for the session it was in while it tries to rejoin. It goes on greeting, and a WELCOME - of the
      host started again - starts its audio. */
  lemma GoodbyeWhileRejoining(hello: W.Control, now: nat, c: W.Control, again: W.Control) returns (bye: Input, tick: Input, s2: Session)
    requires c.Welcome? && again.Welcome?
    ensures var s0 := Begin(NewSession(now), hello, now).0;
            var s1 := Turn(s0, hello, Input(Some(Event(1, c.session, c)), now + 10, 0, 0, 0)).0;
            s1.joined && s2 == Turn(s1, hello, Input(None, now + 6000, 6_000_000, 0, 0)).0
    ensures bye.event == Some(Event(2, c.session, W.Bye)) && SaysGoodbye(s2, bye) && !Over(Turn(s2, hello, bye).0)
    ensures tick.event.None? && tick.now == now + 6100
    ensures var (s4, out4) := Turn(Turn(s2, hello, bye).0, hello, tick);
            var (s5, out5) := Turn(s4, hello, Input(Some(Event(0, again.session, again)), now + 6110, 0, 0, 0));
            && Tx(hello, c.session, c.assignedId, now + 6100) in out4 && s5.joined
            && AudioUp(again.assignedId, again.session, Params(again.sampleRate, again.frameSamples, again.codec)) in out5
  {
    bye, tick := Input(Some(Event(2, c.session, W.Bye)), now + 6050, 0, 0, 0), Input(None, now + 6100, 0, 0, 0);
    var s0 := Begin(NewSession(now), hello, now).0;
    WelcomeTurn(s0, hello, Input(Some(Event(1, c.session, c)), now + 10, 0, 0, 0));
    var s1 := Turn(s0, hello, Input(Some(Event(1, c.session, c)), now + 10, 0, 0, 0)).0;
    HostLostTurn(s1, hello, Input(None, now + 6000, 6_000_000, 0, 0));
    s2 := Turn(s1, hello, Input(None, now + 6000, 6_000_000, 0, 0)).0;
    GoodbyeTurn(s2, hello, bye);
    RetryTurn(Turn(s2, hello, bye).0, hello, tick);
    WelcomeTurn(Turn(Turn(s2, hello, bye).0, hello, tick).0, hello, Input(Some(Event(0, again.session, again)), now + 6110, 0, 0, 0));
  }

  // ---------------------------------------------------------------- rosters out of order

  datatype Numbered = Numbered(g: int, roster: seq<W.PlayerInfo>)

  /** The roster shown after ROSTERs with these sequence numbers have arrived, in this order. */
  function Shown(last: Option<u16>, shown: seq<W.PlayerInfo>, arrivals: seq<Numbered>): (Option<u16>, seq<W.PlayerInfo>) {
    if arrivals == [] then (last, shown)
    else
      var n := |arrivals| - 1;
      var (last1, shown1) := Shown(last, shown, arrivals[..n]);
      var (last2, fresher) := AcceptSeq(last1, Wrap(arrivals[n].g));
      (last2, if fresher then arrivals[n].roster else shown1)
  }

  /** Of ROSTERs that arrive in any order, delayed or repeated, the one with the highest number is shown, as
      long as their numbers are within 32767 of each other. */
  lemma {:induction false} NewestIsShown(shown: seq<W.PlayerInfo>, arrivals: seq<Numbered>) returns (k: nat)
    requires arrivals != []
    requires forall a, b | 0 <= a < |arrivals| && 0 <= b < |arrivals| :: arrivals[a].g - arrivals[b].g <= 0x7fff
    ensures k < |arrivals| && forall a | 0 <= a < |arrivals| :: arrivals[a].g <= arrivals[k].g
    ensures Shown(None, shown, arrivals) == (Some(Wrap(arrivals[k].g)), arrivals[k].roster)
    decreases |arrivals|
  {
    var n := |arrivals| - 1;
    if n == 0 {
      k := 0;
    } else {
      k := NewestIsShown(shown, arrivals[..n]);
      NewerThanIsTrueOrder(arrivals[n].g, arrivals[k].g);
      if arrivals[n].g > arrivals[k].g { k := n; }
    }
  }

  /** What the host has told the client: the WELCOME it last joined by, if it ever did, and the ROSTERs that
      have arrived since. */
  datatype Heard = Heard(welcome: Option<Numbered>, rosters: seq<Numbered>)

  /** One turn's packet, whose number is `g` before it wraps. */
  function HeardMore(s: Session, heard: Heard, i: Input, g: int): Heard {
    if i.event.None? then heard
    else match i.event.value.control
      case Welcome(_, _, _, _, _, roster) => if s.phase.Joining? then Heard(Some(Numbered(g, roster)), []) else heard
      case Roster(players) => heard.(rosters := heard.rosters + [Numbered(g, players)])
      case _ => heard
  }

  predicate NumberedBy(inputs: seq<Input>, gs: seq<int>) {
    |gs| == |inputs| && forall k | 0 <= k < |inputs| && inputs[k].event.Some? :: inputs[k].event.value.seqno == Wrap(gs[k])
  }

  function HeardIn(s: Session, hello: W.Control, heard: Heard, inputs: seq<Input>, gs: seq<int>): Heard
    requires |gs| == |inputs|
    decreases inputs
  {
    if inputs == [] then heard
    else HeardIn(Turn(s, hello, inputs[0]).0, hello, HeardMore(s, heard, inputs[0], gs[0]), inputs[1..], gs[1..])
  }

  function First(heard: Heard): seq<W.PlayerInfo> { if heard.welcome.Some? then heard.welcome.value.roster else [] }

  /** The roster is that of the WELCOME unless a ROSTER has come since, and then it is the dedup's choice. */
  predicate ShowsHeard(s: Session, heard: Heard) {
    (s.rosterSeq, s.roster) == Shown(None, First(heard), heard.rosters)
  }

  lemma ShownSnoc(shown: seq<W.PlayerInfo>, arrivals: seq<Numbered>, n: Numbered)
    ensures var (last, roster) := Shown(None, shown, arrivals);
            var (last', fresher) := AcceptSeq(last, Wrap(n.g));
            Shown(None, shown, arrivals + [n]) == (last', if fresher then n.roster else roster)
  {
    assert (arrivals + [n])[..|arrivals|] == arrivals;
  }

  predicate SameRoster(s: Session, s': Session) { s'.rosterSeq == s.rosterSeq && s'.roster == s.roster }

  lemma TimersKeepRoster(s: Session, hello: W.Control, i: Input)
    ensures SameRoster(s, StayInTouch(CheckHost(s, hello, i.now, i.nowUs, i.lastRx).0, i.now, i.pingUs).0)
  {
  }

  /** Failing, retrying and sending leave the roster alone. */
  lemma ActsKeepRoster(s: Session, hello: W.Control, actions: seq<ClientAction>, now: nat)
    requires |actions| <= 1 && forall a | a in actions :: a.Fail? || a.SendToHost?
    ensures SameRoster(s, ActAll(s, hello, actions, now).0)
  {
    if actions != [] {
      assert actions == [actions[0]];
      ActOne(s, hello, actions[0], now);
    }
  }

  /** So do the tick, the check for a lost host and the timers. */
  lemma QuietTurnKeepsRoster(s: Session, hello: W.Control, i: Input)
    requires Receive(s, i).1 == [] || (i.event.Some? && i.event.value.control.Deny?)
    ensures SameRoster(Receive(s, i).0, Turn(s, hello, i).0)
  {
    var (s1, actions, _) := Receive(s, i);
    var (phase', more) := ClientTick(s1.phase, hello, i.now);
    assert |actions + more| <= 1 && forall a | a in actions + more :: a.Fail? || a.SendToHost?;
    ActsKeepRoster(s1.(phase := phase'), hello, actions + more, i.now);
    TimersKeepRoster(ActAll(s1.(phase := phase'), hello, actions + more, i.now).0, hello, i);
  }

  /** Joining shows the WELCOME's roster and forgets the numbers of all ROSTERs before it. */
  lemma JoiningTurnShowsWelcome(s: Session, hello: W.Control, i: Input)
    requires s.phase.Joining? && i.event.Some? && i.event.value.control.Welcome?
    ensures Turn(s, hello, i).0.rosterSeq == None && Turn(s, hello, i).0.roster == i.event.value.control.roster
  {
    var (phase', actions) := ClientOnControl(s.phase, i.event.value.control);
    assert actions + [] == [actions[0], actions[1]];
    ActTwo(s.(phase := phase'), hello, actions[0], actions[1], i.now);
  }

  lemma RosterShowsHeard(s: Session, heard: Heard, e: Event, g: int, now: nat)
    requires ShowsHeard(s, heard) && e.control.Roster? && e.seqno == Wrap(g)
    ensures ShowsHeard(OnEvent(s, e, now).0, heard.(rosters := heard.rosters + [Numbered(g, e.control.roster)]))
  {
    ShownSnoc(First(heard), heard.rosters, Numbered(g, e.control.roster));
  }

  lemma OthersKeepRoster(s: Session, e: Event, now: nat)
    requires !e.control.Roster?
    ensures OnEvent(s, e, now).0.rosterSeq == s.rosterSeq && OnEvent(s, e, now).0.roster == s.roster
  {
  }

  lemma ReceiveShowsHeard(s: Session, heard: Heard, i: Input, g: int)
    requires ShowsHeard(s, heard) && (i.event.Some? ==> i.event.value.seqno == Wrap(g))
    requires !(s.phase.Joining? && i.event.Some? && i.event.value.control.Welcome?)
    ensures ShowsHeard(Receive(s, i).0, HeardMore(s, heard, i, g))
  {
    if i.event.Some? {
      if i.event.value.control.Roster? {
        RosterShowsHeard(s, heard, i.event.value, g, i.now);
      } else {
        OthersKeepRoster(s, i.event.value, i.now);
        assert HeardMore(s, heard, i, g) == heard;
      }
    }
  }

  lemma TurnShowsHeard(s: Session, hello: W.Control, heard: Heard, i: Input, g: int)
    requires ShowsHeard(s, heard) && (i.event.Some? ==> i.event.value.seqno == Wrap(g))
    ensures ShowsHeard(Turn(s, hello, i).0, HeardMore(s, heard, i, g))
  {
    if s.phase.Joining? && i.event.Some? && i.event.value.control.Welcome? {
      JoiningTurnShowsWelcome(s, hello, i);
    } else {
      QuietTurnKeepsRoster(s, hello, i);
      ReceiveShowsHeard(s, heard, i, g);
    }
  }

  lemma {:induction false} TurnsShowHeard(s: Session, hello: W.Control, heard: Heard, inputs: seq<Input>, gs: seq<int>)
    requires ShowsHeard(s, heard) && NumberedBy(inputs, gs)
    ensures ShowsHeard(Turns(s, hello, inputs).0, HeardIn(s, hello, heard, inputs, gs))
    decreases inputs
  {
    if inputs != [] {
      TurnShowsHeard(s, hello, heard, inputs[0], gs[0]);
      TurnsShowHeard(Turn(s, hello, inputs[0]).0, hello, HeardMore(s, heard, inputs[0], gs[0]), inputs[1..], gs[1..]);
    }
  }

  /** Everything that has told the client who is in the session since it last joined. */
  function Told(heard: Heard): seq<Numbered> { (if heard.welcome.Some? then [heard.welcome.value] else []) + heard.rosters }

  predicate NewestAt(told: seq<Numbered>, k: nat) {
    k < |told| && forall n | n in told :: n.g <= told[k].g
  }

  /** Over every life of the loop, with the numbers heard since the last join within 32767 of each other: the
      client shows the newest ROSTER that has come since, however they were delayed, repeated or reordered,
      and the WELCOME's own roster while none has. So what it shows is the newest of all it was told exactly
      when no ROSTER has come since the WELCOME, or one at least as new as it. */
  lemma NewestRosterWins(hello: W.Control, openedAt: nat, now: nat, inputs: seq<Input>, gs: seq<int>) returns (heard: Heard, k: nat)
    requires NumberedBy(inputs, gs)
    requires var told := Told(HeardIn(Begin(NewSession(openedAt), hello, now).0, hello, Heard(None, []), inputs, gs));
             told != [] && forall m, n | m in told && n in told :: m.g - n.g <= 0x7fff
    ensures heard == HeardIn(Begin(NewSession(openedAt), hello, now).0, hello, Heard(None, []), inputs, gs)
    ensures k < |Told(heard)| && Life(hello, openedAt, now, inputs).0.roster == Told(heard)[k].roster
    ensures heard.rosters == [] ==> k == 0
    ensures heard.rosters != [] ==> Told(heard)[k] in heard.rosters && forall r | r in heard.rosters :: r.g <= Told(heard)[k].g
    ensures NewestAt(Told(heard), k) <==>
              heard.rosters == [] || heard.welcome.None? || exists r | r in heard.rosters :: r.g >= heard.welcome.value.g
  {
    var s := Begin(NewSession(openedAt), hello, now).0;
    heard := HeardIn(s, hello, Heard(None, []), inputs, gs);
    TurnsShowHeard(s, hello, Heard(None, []), inputs, gs);
    assert forall r | r in heard.rosters :: r in Told(heard);
    k := ChosenOf(heard);
    ChosenIsNewestIff(heard, k);
  }

  /** The one of all it was told that the client shows. */
  lemma ChosenOf(heard: Heard) returns (k: nat)
    requires Told(heard) != [] && forall a, b | 0 <= a < |heard.rosters| && 0 <= b < |heard.rosters| :: heard.rosters[a].g - heard.rosters[b].g <= 0x7fff
    ensures k < |Told(heard)|
    ensures Shown(None, First(heard), heard.rosters).1 == Told(heard)[k].roster
    ensures heard.rosters == [] ==> k == 0
    ensures heard.rosters != [] ==> Told(heard)[k] in heard.rosters && forall r | r in heard.rosters :: r.g <= Told(heard)[k].g
  {
    if heard.rosters == [] {
      k := 0;
    } else {
      var j := NewestIsShown(First(heard), heard.rosters);
      k := if heard.welcome.Some? then j + 1 else j;
      assert Told(heard)[k] == heard.rosters[j];
    }
  }

  lemma ChosenIsNewestIff(heard: Heard, k: nat)
    requires k < |Told(heard)| && (heard.rosters == [] ==> k == 0)
    requires heard.rosters != [] ==> Told(heard)[k] in heard.rosters && forall r | r in heard.rosters :: r.g <= Told(heard)[k].g
    ensures NewestAt(Told(heard), k) <==>
              heard.rosters == [] || heard.welcome.None? || exists r | r in heard.rosters :: r.g >= heard.welcome.value.g
  {
    assert forall n :: n in Told(heard) <==> (heard.welcome.Some? && n == heard.welcome.value) || n in heard.rosters;
  }

  /** An input on which it is not: a client is welcomed with number 9, and a ROSTER sent before, with number 7,
      is late. The older roster is shown. */
  lemma LateRosterReplacesWelcome(hello: W.Control, now: nat, c: W.Control, older: seq<W.PlayerInfo>)
    requires c.Welcome?
    ensures var s0 := Begin(NewSession(now), hello, now).0;
            var s1 := Turn(s0, hello, Input(Some(Event(9, c.session, c)), now + 10, 0, 0, 0)).0;
            var s2 := Turn(s1, hello, Input(Some(Event(7, c.session, W.Roster(older))), now + 20, 0, 0, 0)).0;
            s1.joined && s1.roster == c.roster && s2.joined && s2.roster == older
  {
    var s0 := Begin(NewSession(now), hello, now).0;
    var welcome := Input(Some(Event(9, c.session, c)), now + 10, 0, 0, 0);
    var late := Input(Some(Event(7, c.session, W.Roster(older))), now + 20, 0, 0, 0);
    JoiningTurnShowsWelcome(s0, hello, welcome);
    WelcomeTurn(s0, hello, welcome);
    var s1 := Turn(s0, hello, welcome).0;
    QuietTurnKeepsRoster(s1, hello, late);
    RosterTurnKeepsJoined(s1, hello, late);
  }

  lemma RosterTurnKeepsJoined(s: Session, hello: W.Control, i: Input)
    requires s.joined && s.phase.Joined? && i.event.Some? && i.event.value.control.Roster?
    requires Monus(i.nowUs, i.lastRx) <= PEER_TIMEOUT_MS * 1000
    ensures Turn(s, hello, i).0.joined
  {
    assert Receive(s, i).1 + ClientTick(Receive(s, i).0.phase, hello, i.now).1 == [];
  }
}
