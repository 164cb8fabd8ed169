/** Who is refused, and why (crates/jam-protocol/src/handshake.rs:330-386), and that whatever the host's machine
    answers is sent (crates/jam-core/src/control.rs:121-134). */
module Refusals {
  import opened Common
  import opened Utf8
  import opened Handshake
  import opened Membership
  import opened HostControl
  import W = Wire

  predicate Full(slots: Slots) { forall j | 0 <= j < W.MAX_CLIENTS :: slots[j].Some? }

  predicate Stranger(slots: Slots, a: Addr) { forall j | 0 <= j < W.MAX_CLIENTS :: !At(slots, j, a) }

  /** The version is looked at first, then the room, then whether there is a place. */
  function Refusal(h: Host, hello: W.Control, a: Addr): Option<W.DenyReason>
    requires hello.Hello?
  {
    if hello.version != 1 then Some(W.VersionMismatch)
    else if hello.room != h.room then Some(W.BadRoomCode)
    else if Stranger(h.slots, a) && Full(h.slots) then Some(W.RoomFull)
    else None
  }

  /** Nothing but WELCOMEs and ROSTERs. */
  predicate Tells(actions: seq<Action>) { forall x | x in actions && x.Send? :: x.control.Welcome? || x.control.Roster? }

  lemma {:induction false} BroadcastTells(slots: Slots, roster: seq<W.PlayerInfo>, except: Option<Addr>, n: nat)
    requires n <= W.MAX_CLIENTS
    ensures Tells(Broadcast(slots, roster, except, n))
  {
    if n > 0 { BroadcastTells(slots, roster, except, n - 1); }
  }

  lemma {:induction false} LeftsTell(reasons: Reasons, n: nat)
    requires n <= W.MAX_CLIENTS
    ensures Tells(Lefts(reasons, n))
  {
    if n > 0 { LeftsTell(reasons, n - 1); }
  }

  lemma {:induction false} RepeatsTell(h: Host, slots: Slots, now: nat, n: nat, roster: seq<W.PlayerInfo>)
    requires n <= W.MAX_CLIENTS
    ensures Tells(Repeats(h, slots, now, n, roster))
  {
    if n > 0 { RepeatsTell(h, slots, now, n - 1, roster); }
  }

  /** A HELLO is answered with a DENY and its reason, and with nothing else, and leaves the room as it is, if and
      only if it is of another version, names another room, or comes from a stranger while every slot is taken;
      no other step denies anything. */
  lemma RefusesExactly(h: Host, e: Input)
    ensures if e.HelloFrom? && e.hello.Hello? && Refusal(h, e.hello, e.addr).Some?
            then Step(h, e) == (h, [Send(e.addr, W.Deny(Refusal(h, e.hello, e.addr).value))])
            else Tells(Step(h, e).1)
  {
    var h' := Step(h, e).0;
    match e
    case HelloFrom(addr, hello, _) =>
      if hello.Hello? && Refusal(h, hello, addr).None? { BroadcastTells(h'.slots, RosterOf(h'), Some(addr), W.MAX_CLIENTS); }
    case ByeFrom(addr) =>
      LeftsTell(Departing(h.slots, addr), W.MAX_CLIENTS);
      BroadcastTells(h'.slots, RosterOf(h'), None, W.MAX_CLIENTS);
    case ClockAt(now) =>
      LeftsTell(Overdue(h.slots, now), W.MAX_CLIENTS);
      RepeatsTell(h', h.slots, now, W.MAX_CLIENTS, RosterOf(h'));
      BroadcastTells(h'.slots, RosterOf(h'), None, W.MAX_CLIENTS);
    case _ =>
  }

  /** What becomes of the program's own client, which greets in the host's version: it is told that the room is
      another if and only if it is, that the room is full if and only if it names the right one, is not in it and
      every slot is taken, and is otherwise let in; being told so it gives up for that reason. */
  lemma ClientIsRefusedIff(h: Host, room: W.RoomCode, name: Text, a: Addr, now: nat, p: Phase)
    requires p.Joining?
    ensures var hello := HelloFor(room, name);
            var (h', out) := Step(h, HelloFrom(a, hello, now));
            && (out == [Send(a, W.Deny(W.BadRoomCode))] <==> room != h.room)
            && (out == [Send(a, W.Deny(W.RoomFull))] <==> room == h.room && Stranger(h.slots, a) && Full(h.slots))
            && (!Stranger(h'.slots, a) <==> !Stranger(h.slots, a) || (room == h.room && !Full(h.slots)))
            && forall x | x in out && x.Send? && x.control.Deny? ::
                 ClientOnControl(p, x.control) == (GaveUp(Denied(x.control.reason)), [Fail(Denied(x.control.reason))])
  {
    var e := HelloFrom(a, HelloFor(room, name), now);
    var (h', out) := Step(h, e);
    RefusesExactly(h, e);
    if Refusal(h, e.hello, a).None? {
      assert out[0] in out;
      var k := if Stranger(h.slots, a) then FreeSlot(h.slots).value else Position(h.slots, a).value;
      assert At(h'.slots, k, a);
    }
  }

  // ---------------------------------------------------------------- sending

  /** What is sent, but for pings and keepalives. */
  function Answers(sent: seq<Packet>): seq<Action> {
    if sent == [] then []
    else
      var (before, p) := (Answers(sent[..|sent| - 1]), sent[|sent| - 1]);
      if p.control.Ping? || p.control.Keepalive? then before else before + [Send(p.to, p.control)]
  }

  lemma AnswersSnoc(sent: seq<Packet>, p: Packet)
    ensures Answers(sent + [p])
         == if p.control.Ping? || p.control.Keepalive? then Answers(sent) else Answers(sent) + [Send(p.to, p.control)]
  {
    assert (sent + [p])[..|sent|] == sent;
  }

  function Sends(actions: seq<Action>): seq<Action> {
    if actions == [] then [] else (if actions[0].Send? then [actions[0]] else []) + Sends(actions[1..])
  }

  lemma {:induction false} SendsConcat(a: seq<Action>, b: seq<Action>)
    ensures Sends(a + b) == Sends(a) + Sends(b)
    decreases a
  {
    if a == [] {
      assert a + b == b;
    } else {
      assert (a + b)[0] == a[0] && (a + b)[1..] == a[1..] + b;
      SendsConcat(a[1..], b);
      Regroup(if a[0].Send? then [a[0]] else [], Sends(a[1..]), Sends(b));
    }
  }

  /** No pings and no keepalives. */
  predicate Untimed(actions: seq<Action>) { forall x | x in actions && x.Send? :: !x.control.Ping? && !x.control.Keepalive? }

  lemma StepUntimed(h: Host, e: Input)
    ensures Untimed(Step(h, e).1)
  {
    RefusesExactly(h, e);
  }

  lemma {:induction false} ExecuteSends(c: Loop, actions: seq<Action>)
    requires AllFit(actions) && Untimed(actions)
    ensures Answers(Execute(c, actions).sent) == Answers(c.sent) + Sends(actions)
    ensures Execute(c, actions).log == c.log
    decreases actions
  {
    if actions != [] {
      var c1 := Perform(c, actions[0]);
      if actions[0].Send? { AnswersSnoc(c.sent, Packet(actions[0].to, c.next, actions[0].control)); }
      ExecuteSends(c1, actions[1..]);
      Regroup(Answers(c.sent), if actions[0].Send? then [actions[0]] else [], Sends(actions[1..]));
    }
  }

  /** All that the machine has answered has been sent. */
  predicate AllSent(c: Loop) { Answers(c.sent) == Sends(c.log) }

  lemma HandleSends(c: Loop, e: Input)
    requires AllSent(c)
    ensures AllSent(Handle(c, e))
    ensures Handle(c, e).log == c.log + Step(c.host, e).1
  {
    var (h', out) := Step(c.host, e);
    StepFits(c.host, e);
    StepUntimed(c.host, e);
    ExecuteSends(c.(host := h', log := c.log + out), out);
    SendsConcat(c.log, out);
  }

  lemma EventSends(c: Loop, event: Option<Event>, now: nat)
    requires AllSent(c)
    ensures AllSent(AfterEvent(c, event, now))
  {
    if event.Some? {
      var from, control, known := event.value.from, event.value.control, Position(c.host.slots, event.value.from);
      var c1 := if known.Some? then Handle(c, HeardFrom(known.value + 1, now)) else c;
      if known.Some? { HandleSends(c, HeardFrom(known.value + 1, now)); }
      match control
      case Hello(_, _, _, _, _) => HandleSends(c1, HelloFrom(from, control, now));
      case Ack(s, _) => HandleSends(c1, AckFrom(from, s, now));
      case Bye => HandleSends(c1, ByeFrom(from));
      case _ =>
    }
  }

  lemma {:induction false} FedSends(c: Loop, n: nat)
    requires AllSent(c) && n <= W.MAX_CLIENTS
    ensures AllSent(Fed(c, n))
  {
    if n > 0 {
      FedSends(c, n - 1);
      var c1 := Fed(c, n - 1);
      if c1.streams[n - 1].lastRx > 0 { HandleSends(c1, HeardFrom(n, c1.streams[n - 1].lastRx / 1000)); }
    }
  }

  lemma {:induction false} ToAllSends(c: Loop, packets: seq<W.Control>, n: nat)
    requires AllSent(c) && n <= W.MAX_CLIENTS == |packets|
    requires forall j | 0 <= j < W.MAX_CLIENTS :: packets[j].Ping? || packets[j].Keepalive?
    ensures AllSent(SentToAll(c, packets, n))
  {
    if n > 0 {
      ToAllSends(c, packets, n - 1);
      var c1 := SentToAll(c, packets, n - 1);
      if c.host.slots[n - 1].Some? { AnswersSnoc(c1.sent, Packet(c.host.slots[n - 1].value.addr, c1.next, packets[n - 1])); }
    }
  }

  lemma TurnSends(c: Loop, i: TurnInput)
    requires AllSent(c) && i.Valid()
    ensures AllSent(Turn(c, i))
  {
    EventSends(c, i.event, i.now);
    var met := Noted(AfterEvent(c, i.event, i.now), i.noted);
    FedSends(met, W.MAX_CLIENTS);
    var c1 := Fed(met, W.MAX_CLIENTS);
    HandleSends(c1, ClockAt(i.now));
    var c2 := Handle(c1, ClockAt(i.now));
    ToAllSends(c2.(lastPing := i.now), Pings(i.pingUs), W.MAX_CLIENTS);
    ToAllSends(Pinged(c2, i.now, i.pingUs).(lastKeepalive := i.now), KEEPALIVES, W.MAX_CLIENTS);
  }

  /** Over every session, what the loop sends, but for pings and keepalives, is exactly what the machine has
      answered, each to the address it is meant for, in order. */
  lemma {:induction false} AnswersAreSent(s: System, ms: seq<Move>)
    requires AllSent(s.c) && AllPossible(s, ms)
    ensures AllSent(RunSystem(s, ms).c)
    decreases ms
  {
    if ms != [] {
      if ms[0].Control? { TurnSends(s.c, ms[0].input); }
      AnswersAreSent(Do(s, ms[0]), ms[1..]);
    }
  }

  /** So a refusal goes out, and nothing else does, in the turn that meets the HELLO, before the clock is looked at. */
  lemma RefusalIsSent(c: Loop, event: Event, now: nat)
    requires event.control.Hello? && Stranger(c.host.slots, event.from) && Refusal(c.host, event.control, event.from).Some?
    ensures AfterEvent(c, Some(event), now).host == c.host
    ensures AfterEvent(c, Some(event), now).sent
         == c.sent + [Packet(event.from, c.next, W.Deny(Refusal(c.host, event.control, event.from).value))]
  {
    assert Position(c.host.slots, event.from).None?;
    RefusesExactly(c.host, HelloFrom(event.from, event.control, now));
    StepFits(c.host, HelloFrom(event.from, event.control, now));
    var deny := Send(event.from, W.Deny(Refusal(c.host, event.control, event.from).value));
    var c1 := c.(log := c.log + [deny]);
    assert [deny][1..] == [];
    assert Execute(c1, [deny]) == Perform(c1, deny);
  }
}
