/** What the host's loop has sent (crates/jam-core/src/control.rs:43-75, :128-134, :288-305): its numbers, the
    number remembered for every WELCOME that waits for an answer, and its pings and keepalives. */
module HostSends {
  import opened Common
  import opened Seq16
  import opened Handshake
  import opened Membership
  import opened HostControl
  import opened HostLiveness
  import opened Refusals
  import W = Wire
  import C = ClientControl
  import ClientContact

  // ---------------------------------------------------------------- numbers

  /** Packets go out under consecutive numbers. */
  predicate Consecutive(c: Loop) {
    c.next == Wrap(|c.sent|) && forall j | 0 <= j < |c.sent| :: c.sent[j].seqno == Wrap(j)
  }

  lemma PerformCounts(c: Loop, a: Action)
    requires Fits(a) && Consecutive(c)
    ensures Consecutive(Perform(c, a))
  {
  }

  lemma {:induction false} ExecuteCounts(c: Loop, actions: seq<Action>)
    requires AllFit(actions) && Consecutive(c)
    ensures Consecutive(Execute(c, actions))
    decreases actions
  {
    if actions != [] {
      PerformCounts(c, actions[0]);
      ExecuteCounts(Perform(c, actions[0]), actions[1..]);
    }
  }

  lemma HandleCounts(c: Loop, e: Input)
    requires Consecutive(c)
    ensures Consecutive(Handle(c, e))
  {
    var (h', out) := Step(c.host, e);
    StepFits(c.host, e);
    ExecuteCounts(c.(host := h', log := c.log + out), out);
  }

  lemma {:induction false} FedCounts(c: Loop, n: nat)
    requires Consecutive(c) && n <= W.MAX_CLIENTS
    ensures Consecutive(Fed(c, n))
  {
    if n > 0 {
      FedCounts(c, n - 1);
      var c1 := Fed(c, n - 1);
      if c1.streams[n - 1].lastRx > 0 { HandleCounts(c1, HeardFrom(n, c1.streams[n - 1].lastRx / 1000)); }
    }
  }

  lemma {:induction false} SentToAllCounts(c: Loop, packets: seq<W.Control>, n: nat)
    requires Consecutive(c) && n <= W.MAX_CLIENTS == |packets|
    ensures Consecutive(SentToAll(c, packets, n))
  {
    if n > 0 { SentToAllCounts(c, packets, n - 1); }
  }

  lemma EventCounts(c: Loop, event: Option<Event>, now: nat)
    requires Consecutive(c)
    ensures Consecutive(AfterEvent(c, event, now))
  {
    if event.Some? {
      var from, control, known := event.value.from, event.value.control, Position(c.host.slots, event.value.from);
      var c1 := if known.Some? then Handle(c, HeardFrom(known.value + 1, now)) else c;
      if known.Some? { HandleCounts(c, HeardFrom(known.value + 1, now)); }
      match control
      case Hello(_, _, _, _, _) => HandleCounts(c1, HelloFrom(from, control, now));
      case Ack(s, _) => HandleCounts(c1, AckFrom(from, s, now));
      case Bye => HandleCounts(c1, ByeFrom(from));
      case _ =>
    }
  }

  lemma TurnCounts(c: Loop, i: TurnInput)
    requires Consecutive(c) && i.Valid()
    ensures Consecutive(Turn(c, i))
  {
    EventCounts(c, i.event, i.now);
    FedCounts(Met(c, i), W.MAX_CLIENTS);
    var c1 := Fed(Met(c, i), W.MAX_CLIENTS);
    HandleCounts(c1, ClockAt(i.now));
    var c2 := Handle(c1, ClockAt(i.now));
    SentToAllCounts(c2.(lastPing := i.now), Pings(i.pingUs), W.MAX_CLIENTS);
    SentToAllCounts(Pinged(c2, i.now, i.pingUs).(lastKeepalive := i.now), KEEPALIVES, W.MAX_CLIENTS);
  }

  /** Over every session, the packets sent are numbered 0, 1, 2, ..., wrapping. */
  lemma {:induction false} NumbersAreConsecutive(s: System, ms: seq<Move>)
    requires Consecutive(s.c) && AllPossible(s, ms)
    ensures Consecutive(RunSystem(s, ms).c)
    decreases ms
  {
    if ms != [] {
      if ms[0].Control? { TurnCounts(s.c, ms[0].input); }
      NumbersAreConsecutive(Do(s, ms[0]), ms[1..]);
    }
  }

  // ---------------------------------------------------------------- the number a pending slot waits for

  /** The number of the last WELCOME sent to an address. */
  function LastWelcome(sent: seq<Packet>, a: Addr): Option<u16> {
    if sent == [] then None
    else
      var p := sent[|sent| - 1];
      if p.to == a && p.control.Welcome? then Some(p.seqno) else LastWelcome(sent[..|sent| - 1], a)
  }

  lemma LastWelcomeSnoc(sent: seq<Packet>, p: Packet, a: Addr)
    ensures LastWelcome(sent + [p], a) == if p.to == a && p.control.Welcome? then Some(p.seqno) else LastWelcome(sent, a)
  {
    assert (sent + [p])[..|sent|] == sent;
  }

  predicate Waiting(slot: Option<Slot>, number: Option<u16>) {
    slot.Some? && slot.value.state.Pending? ==> number.Some? && slot.value.state.welcomeSeq == number
  }

  predicate StampRight(c: Loop, k: nat)
    requires k < W.MAX_CLIENTS
  {
    c.host.slots[k].Some? ==> Waiting(c.host.slots[k], LastWelcome(c.sent, c.host.slots[k].value.addr))
  }

  predicate Welcomes(a: Action, to: Addr) { a.Send? && a.to == to && a.control.Welcome? }

  predicate AnyWelcomes(actions: seq<Action>, to: Addr) { exists a :: a in actions && Welcomes(a, to) }

  lemma PerformStamps(c: Loop, a: Action, k: nat)
    requires Fits(a) && k < W.MAX_CLIENTS && IsPending(c.host.slots[k])
    ensures var (slot, slot', to) := (c.host.slots[k].value, Perform(c, a).host.slots[k], c.host.slots[k].value.addr);
            && slot'.Some? && slot'.value.addr == to && slot'.value.state.Pending?
            && if Welcomes(a, to) then slot'.value.state.welcomeSeq == LastWelcome(Perform(c, a).sent, to) == Some(c.next)
               else slot'.value.state.welcomeSeq == slot.state.welcomeSeq && LastWelcome(Perform(c, a).sent, to) == LastWelcome(c.sent, to)
  {
    if a.Send? { LastWelcomeSnoc(c.sent, Packet(a.to, c.next, a.control), c.host.slots[k].value.addr); }
  }

  lemma {:induction false} ExecuteStamps(c: Loop, actions: seq<Action>, k: nat)
    requires AllFit(actions) && k < W.MAX_CLIENTS && IsPending(c.host.slots[k])
    ensures var (slot, c', to) := (c.host.slots[k].value, Execute(c, actions), c.host.slots[k].value.addr);
            var slot' := c'.host.slots[k];
            && slot'.Some? && slot'.value.addr == to && slot'.value.state.Pending?
            && if AnyWelcomes(actions, to) then LastWelcome(c'.sent, to).Some? && slot'.value.state.welcomeSeq == LastWelcome(c'.sent, to)
               else slot'.value.state.welcomeSeq == slot.state.welcomeSeq && LastWelcome(c'.sent, to) == LastWelcome(c.sent, to)
    decreases actions
  {
    if actions != [] {
      PerformStamps(c, actions[0], k);
      ExecuteStamps(Perform(c, actions[0]), actions[1..], k);
      AnyCons(actions, c.host.slots[k].value.addr);
    }
  }

  lemma AnyCons(actions: seq<Action>, to: Addr)
    requires actions != []
    ensures AnyWelcomes(actions, to) <==> Welcomes(actions[0], to) || AnyWelcomes(actions[1..], to)
  {
    if AnyWelcomes(actions, to) && !Welcomes(actions[0], to) {
      var a :| a in actions && Welcomes(a, to);
      assert a in actions[1..];
    }
    if AnyWelcomes(actions[1..], to) {
      var a :| a in actions[1..] && Welcomes(a, to);
      assert a in actions;
    }
  }

  lemma {:induction false} ExecuteKeepsActive(c: Loop, actions: seq<Action>, k: nat)
    requires AllFit(actions) && k < W.MAX_CLIENTS && !IsPending(c.host.slots[k])
    ensures Execute(c, actions).host.slots[k] == c.host.slots[k]
    decreases actions
  {
    if actions != [] { ExecuteKeepsActive(Perform(c, actions[0]), actions[1..], k); }
  }

  /** A step leaves a slot pending under the number it waited for before, or sends it a WELCOME. */
  lemma StepWaits(h: Host, e: Input, k: nat)
    requires Distinct(h.slots) && k < W.MAX_CLIENTS && !e.WelcomeStamped? && IsPending(Step(h, e).0.slots[k])
    ensures var slot' := Step(h, e).0.slots[k].value;
            || AnyWelcomes(Step(h, e).1, slot'.addr)
            || (&& IsPending(h.slots[k]) && h.slots[k].value.addr == slot'.addr
                && h.slots[k].value.state.welcomeSeq == slot'.state.welcomeSeq)
  {
    var (h', out) := Step(h, e);
    match e
    case HelloFrom(addr, hello, now) => HelloWaits(h, addr, hello, now, k);
    case ClockAt(now) => assert h'.slots[k] == AfterTick(h.slots[k], now);
    case _ =>
  }

  lemma HelloWaits(h: Host, addr: Addr, hello: W.Control, now: nat, k: nat)
    requires k < W.MAX_CLIENTS
    ensures var (h', out) := OnHello(h, addr, hello, now);
            h'.slots[k] != h.slots[k] ==> h'.slots[k].Some? && h'.slots[k].value.addr == addr && AnyWelcomes(out, addr)
  {
    var (h', out) := OnHello(h, addr, hello, now);
    if h'.slots[k] != h.slots[k] { assert out[0] in out && Welcomes(out[0], addr); }
  }

  lemma HandleStamps(c: Loop, e: Input, k: nat)
    requires Distinct(c.host.slots) && k < W.MAX_CLIENTS && !e.WelcomeStamped? && StampRight(c, k)
    ensures StampRight(Handle(c, e), k)
  {
    var (h', out) := Step(c.host, e);
    var c1 := c.(host := h', log := c.log + out);
    StepFits(c.host, e);
    if IsPending(h'.slots[k]) {
      StepWaits(c.host, e, k);
      ExecuteStamps(c1, out, k);
    } else {
      ExecuteKeepsActive(c1, out, k);
    }
  }

  lemma EventStamps(c: Loop, event: Option<Event>, now: nat, k: nat)
    requires Distinct(c.host.slots) && k < W.MAX_CLIENTS && StampRight(c, k)
    ensures StampRight(AfterEvent(c, event, now), k)
  {
    if event.Some? {
      var from, control, known := event.value.from, event.value.control, Position(c.host.slots, event.value.from);
      var c1 := if known.Some? then Handle(c, HeardFrom(known.value + 1, now)) else c;
      if known.Some? {
        HandleStamps(c, HeardFrom(known.value + 1, now), k);
        HandleKeepsDistinct(c, HeardFrom(known.value + 1, now));
      }
      match control
      case Hello(_, _, _, _, _) => HandleStamps(c1, HelloFrom(from, control, now), k);
      case Ack(s, _) => HandleStamps(c1, AckFrom(from, s, now), k);
      case Bye => HandleStamps(c1, ByeFrom(from), k);
      case _ =>
    }
  }

  lemma {:induction false} SentToAllStamps(c: Loop, packets: seq<W.Control>, n: nat, a: Addr)
    requires n <= W.MAX_CLIENTS == |packets| && forall j | 0 <= j < W.MAX_CLIENTS :: !packets[j].Welcome?
    ensures LastWelcome(SentToAll(c, packets, n).sent, a) == LastWelcome(c.sent, a)
  {
    if n > 0 {
      SentToAllStamps(c, packets, n - 1, a);
      var c1 := SentToAll(c, packets, n - 1);
      if c.host.slots[n - 1].Some? { LastWelcomeSnoc(c1.sent, Packet(c.host.slots[n - 1].value.addr, c1.next, packets[n - 1]), a); }
    }
  }

  lemma TimersStamp(c: Loop, now: nat, pingUs: seq<u64>, a: Addr)
    requires |pingUs| == W.MAX_CLIENTS
    ensures LastWelcome(KeptAlive(Pinged(c, now, pingUs), now).sent, a) == LastWelcome(c.sent, a)
  {
    SentToAllStamps(c.(lastPing := now), Pings(pingUs), W.MAX_CLIENTS, a);
    SentToAllStamps(Pinged(c, now, pingUs).(lastKeepalive := now), KEEPALIVES, W.MAX_CLIENTS, a);
  }

  lemma TurnStamps(c: Loop, i: TurnInput, k: nat)
    requires Distinct(c.host.slots) && i.Valid() && k < W.MAX_CLIENTS && StampRight(c, k)
    ensures StampRight(Turn(c, i), k)
  {
    var c1 := Fed(Met(c, i), W.MAX_CLIENTS);
    var c2 := Handle(c1, ClockAt(i.now));
    EventStamps(c, i.event, i.now, k);
    FedSlots(Met(c, i));
    TurnKeepsDistinct(c, i);
    HandleStamps(c1, ClockAt(i.now), k);
    TimersPublishNothing(c2, i.now, i.pingUs);
    if c2.host.slots[k].Some? { TimersStamp(c2, i.now, i.pingUs, c2.host.slots[k].value.addr); }
  }

  lemma {:induction false} RunStamps(s: System, ms: seq<Move>, k: nat)
    requires Distinct(s.c.host.slots) && AllPossible(s, ms) && k < W.MAX_CLIENTS && StampRight(s.c, k)
    ensures StampRight(RunSystem(s, ms).c, k)
    decreases ms
  {
    if ms != [] {
      if ms[0].Control? {
        TurnStamps(s.c, ms[0].input, k);
        TurnKeepsDistinct(s.c, ms[0].input);
      }
      RunStamps(Do(s, ms[0]), ms[1..], k);
    }
  }

  /** At every turn of every session: the number a pending slot waits for is that of the last WELCOME sent to its
      address. When that WELCOME reaches the client, the one acknowledgement its loop sends, handed to the
      machine, makes the slot active. */
  lemma AcknowledgementActivates(h: Host, ms: seq<Move>, k: nat, s: C.Session, hello: W.Control, i: C.Input, now: nat)
    requires h.slots == NO_SLOTS && k < W.MAX_CLIENTS && AllPossible(System(NewLoop(h), EMPTY_TABLE, EMPTY_TABLE), ms)
    requires hello.Hello? && (s.joined ==> s.phase.Joined?) && i.event.Some? && i.event.value.control.Welcome?
    requires var c := RunSystem(System(NewLoop(h), EMPTY_TABLE, EMPTY_TABLE), ms).c;
             IsPending(c.host.slots[k]) && LastWelcome(c.sent, c.host.slots[k].value.addr) == Some(i.event.value.seqno)
    ensures var c := RunSystem(System(NewLoop(h), EMPTY_TABLE, EMPTY_TABLE), ms).c;
            var slot := c.host.slots[k].value;
            var acks := ClientContact.Sift(C.Turn(s, hello, i).1, ClientContact.Acks);
            && |acks| == 1 && slot.state.welcomeSeq == Some(acks[0].control.ackedSeq)
            && Step(c.host, AckFrom(slot.addr, acks[0].control.ackedSeq, now)).0.slots[k] == Some(Slot(slot.addr, slot.name, Active, now))
  {
    RunStamps(System(NewLoop(h), EMPTY_TABLE, EMPTY_TABLE), ms, k);
    ClientContact.AcknowledgesExactly(s, hello, i);
  }

  /** And there is such a WELCOME, whenever a slot is pending. */
  lemma PendingWasWelcomed(h: Host, ms: seq<Move>, k: nat)
    requires h.slots == NO_SLOTS && k < W.MAX_CLIENTS && AllPossible(System(NewLoop(h), EMPTY_TABLE, EMPTY_TABLE), ms)
    ensures var c := RunSystem(System(NewLoop(h), EMPTY_TABLE, EMPTY_TABLE), ms).c;
            IsPending(c.host.slots[k]) ==>
              && LastWelcome(c.sent, c.host.slots[k].value.addr).Some?
              && c.host.slots[k].value.state.welcomeSeq == LastWelcome(c.sent, c.host.slots[k].value.addr)
  {
    RunStamps(System(NewLoop(h), EMPTY_TABLE, EMPTY_TABLE), ms, k);
  }

  // ---------------------------------------------------------------- pings and keepalives

  /** The pings and keepalives sent to an address. */
  function Timers(sent: seq<Packet>, a: Addr): seq<W.Control> {
    if sent == [] then []
    else
      var (before, p) := (Timers(sent[..|sent| - 1], a), sent[|sent| - 1]);
      if p.to == a && (p.control.Ping? || p.control.Keepalive?) then before + [p.control] else before
  }

  lemma TimersSnoc(sent: seq<Packet>, p: Packet, a: Addr)
    ensures Timers(sent + [p], a)
         == if p.to == a && (p.control.Ping? || p.control.Keepalive?) then Timers(sent, a) + [p.control] else Timers(sent, a)
  {
    assert (sent + [p])[..|sent|] == sent;
  }

  lemma {:induction false} ExecuteKeepsTimers(c: Loop, actions: seq<Action>, a: Addr)
    requires AllFit(actions) && Untimed(actions)
    ensures var c' := Execute(c, actions);
            Timers(c'.sent, a) == Timers(c.sent, a) && c'.lastPing == c.lastPing && c'.lastKeepalive == c.lastKeepalive
    decreases actions
  {
    if actions != [] {
      if actions[0].Send? { TimersSnoc(c.sent, Packet(actions[0].to, c.next, actions[0].control), a); }
      ExecuteKeepsTimers(Perform(c, actions[0]), actions[1..], a);
    }
  }

  predicate SameTimers(c: Loop, c': Loop, a: Addr) {
    Timers(c'.sent, a) == Timers(c.sent, a) && c'.lastPing == c.lastPing && c'.lastKeepalive == c.lastKeepalive
  }

  lemma HandleKeepsTimers(c: Loop, e: Input, a: Addr)
    ensures SameTimers(c, Handle(c, e), a)
  {
    var (h', out) := Step(c.host, e);
    StepFits(c.host, e);
    StepUntimed(c.host, e);
    ExecuteKeepsTimers(c.(host := h', log := c.log + out), out, a);
  }

  lemma EventKeepsTimers(c: Loop, event: Option<Event>, now: nat, a: Addr)
    ensures SameTimers(c, AfterEvent(c, event, now), a)
  {
    if event.Some? {
      var from, control, known := event.value.from, event.value.control, Position(c.host.slots, event.value.from);
      var c1 := if known.Some? then Handle(c, HeardFrom(known.value + 1, now)) else c;
      if known.Some? { HandleKeepsTimers(c, HeardFrom(known.value + 1, now), a); }
      match control
      case Hello(_, _, _, _, _) => HandleKeepsTimers(c1, HelloFrom(from, control, now), a);
      case Ack(s, _) => HandleKeepsTimers(c1, AckFrom(from, s, now), a);
      case Bye => HandleKeepsTimers(c1, ByeFrom(from), a);
      case _ =>
    }
  }

  /** One to each of the first `n` clients: the client in slot `k` gets the k-th. */
  lemma {:induction false} SentToAllTimers(c: Loop, packets: seq<W.Control>, n: nat, k: nat)
    requires Distinct(c.host.slots) && n <= W.MAX_CLIENTS == |packets| && k < W.MAX_CLIENTS && c.host.slots[k].Some?
    requires forall j | 0 <= j < W.MAX_CLIENTS :: packets[j].Ping? || packets[j].Keepalive?
    ensures var a := c.host.slots[k].value.addr;
            Timers(SentToAll(c, packets, n).sent, a) == if k < n then Timers(c.sent, a) + [packets[k]] else Timers(c.sent, a)
  {
    if n > 0 {
      SentToAllTimers(c, packets, n - 1, k);
      OneMoreTimer(c, packets, n, k);
    }
  }

  lemma OneMoreTimer(c: Loop, packets: seq<W.Control>, n: nat, k: nat)
    requires Distinct(c.host.slots) && 0 < n <= W.MAX_CLIENTS == |packets| && k < W.MAX_CLIENTS && c.host.slots[k].Some?
    requires packets[n - 1].Ping? || packets[n - 1].Keepalive?
    ensures var a := c.host.slots[k].value.addr;
            Timers(SentToAll(c, packets, n).sent, a)
            == Timers(SentToAll(c, packets, n - 1).sent, a) + if k == n - 1 then [packets[k]] else []
  {
    SentOneMore(c, packets, n, c.host.slots[k].value.addr);
    OneSlotEach(c.host.slots, n - 1, k);
  }

  lemma OneSlotEach(slots: Slots, j: nat, k: nat)
    requires Distinct(slots) && j < W.MAX_CLIENTS && k < W.MAX_CLIENTS && slots[k].Some?
    ensures slots[j].Some? && slots[j].value.addr == slots[k].value.addr <==> j == k
  {
    if slots[j].Some? { assert At(slots, j, slots[j].value.addr) && At(slots, k, slots[k].value.addr); }
  }

  lemma SentOneMore(c: Loop, packets: seq<W.Control>, n: nat, a: Addr)
    requires 0 < n <= W.MAX_CLIENTS == |packets| && (packets[n - 1].Ping? || packets[n - 1].Keepalive?)
    ensures Timers(SentToAll(c, packets, n).sent, a)
         == if c.host.slots[n - 1].Some? && c.host.slots[n - 1].value.addr == a
            then Timers(SentToAll(c, packets, n - 1).sent, a) + [packets[n - 1]] else Timers(SentToAll(c, packets, n - 1).sent, a)
  {
    var c1 := SentToAll(c, packets, n - 1);
    if c.host.slots[n - 1].Some? { TimersSnoc(c1.sent, Packet(c.host.slots[n - 1].value.addr, c1.next, packets[n - 1]), a); }
  }

  predicate Due(now: nat, last: nat, interval: nat) { now >= last + interval }

  lemma SentToAllKeepsRest(c: Loop, packets: seq<W.Control>, n: nat)
    requires n <= W.MAX_CLIENTS == |packets| && forall j | 0 <= j < W.MAX_CLIENTS :: !packets[j].Welcome?
    ensures var c' := SentToAll(c, packets, n); c'.host == c.host && c'.lastPing == c.lastPing && c'.lastKeepalive == c.lastKeepalive
  {
    if n > 0 { SentToAllKeepsRest(c, packets, n - 1); }
  }

  lemma PingsSend(c: Loop, now: nat, pingUs: seq<u64>, k: nat)
    requires Distinct(c.host.slots) && |pingUs| == W.MAX_CLIENTS && k < W.MAX_CLIENTS && c.host.slots[k].Some?
    ensures var (c', a) := (Pinged(c, now, pingUs), c.host.slots[k].value.addr);
            && Timers(c'.sent, a) == Timers(c.sent, a) + (if Due(now, c.lastPing, 1000) then [W.Ping(pingUs[k])] else [])
            && c'.lastPing == (if Due(now, c.lastPing, 1000) then now else c.lastPing)
            && c'.lastKeepalive == c.lastKeepalive && c'.host == c.host
  {
    SentToAllTimers(c.(lastPing := now), Pings(pingUs), W.MAX_CLIENTS, k);
    SentToAllKeepsRest(c.(lastPing := now), Pings(pingUs), W.MAX_CLIENTS);
  }

  lemma KeepalivesSend(c: Loop, now: nat, k: nat)
    requires Distinct(c.host.slots) && k < W.MAX_CLIENTS && c.host.slots[k].Some?
    ensures var (c', a) := (KeptAlive(c, now), c.host.slots[k].value.addr);
            && Timers(c'.sent, a) == Timers(c.sent, a) + (if Due(now, c.lastKeepalive, 500) then [W.Keepalive] else [])
            && c'.lastKeepalive == (if Due(now, c.lastKeepalive, 500) then now else c.lastKeepalive)
            && c'.lastPing == c.lastPing && c'.host == c.host
  {
    SentToAllTimers(c.(lastKeepalive := now), KEEPALIVES, W.MAX_CLIENTS, k);
    SentToAllKeepsRest(c.(lastKeepalive := now), KEEPALIVES, W.MAX_CLIENTS);
  }

  /** Every client that holds a slot at the end of a turn has been sent, in that turn, a ping if a second has passed
      since the last pings, stamped with the time taken for it, and a keepalive if half a second has. */
  lemma TurnPings(c: Loop, i: TurnInput, k: nat)
    requires Distinct(c.host.slots) && i.Valid() && k < W.MAX_CLIENTS && Turn(c, i).host.slots[k].Some?
    ensures var (c', a) := (Turn(c, i), Turn(c, i).host.slots[k].value.addr);
            && Timers(c'.sent, a) == Timers(c.sent, a)
                 + (if Due(i.now, c.lastPing, 1000) then [W.Ping(i.pingUs[k])] else [])
                 + (if Due(i.now, c.lastKeepalive, 500) then [W.Keepalive] else [])
            && c'.lastPing == (if Due(i.now, c.lastPing, 1000) then i.now else c.lastPing)
            && c'.lastKeepalive == (if Due(i.now, c.lastKeepalive, 500) then i.now else c.lastKeepalive)
  {
    var a := Turn(c, i).host.slots[k].value.addr;
    var c1 := Fed(Met(c, i), W.MAX_CLIENTS);
    var c2 := Handle(c1, ClockAt(i.now));
    EventKeepsTimers(c, i.event, i.now, a);
    FedSlots(Met(c, i));
    HandleKeepsTimers(c1, ClockAt(i.now), a);
    TurnKeepsDistinct(c, i);
    TimersPublishNothing(c2, i.now, i.pingUs);
    PingsSend(c2, i.now, i.pingUs, k);
    KeepalivesSend(Pinged(c2, i.now, i.pingUs), i.now, k);
  }
}
