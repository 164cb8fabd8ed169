/** The mute and solo switches over a session (crates/jam-core/src/control.rs:131-176): a slot that changes hands
    starts with both off, and nothing else touches a switch. */
module HostSwitches {
  import opened Common
  import opened Handshake
  import opened Membership
  import opened HostControl
  import W = Wire

  /** How often slot `k` has been reported filled or freed. */
  function Reports(c: Loop, k: nat): nat { |Select(c.log, PresenceOf(k + 1))| }

  /** Between two states: the slot's switches are off if it has been reported since, and as they were if not; the
      host's own are as they were. */
  predicate Switched(c: Loop, c': Loop, k: nat)
    requires k < W.MAX_CLIENTS
  {
    && Reports(c', k) >= Reports(c, k) && c'.board[0] == c.board[0]
    && c'.board[k + 1] == if Reports(c', k) > Reports(c, k) then OFF else c.board[k + 1]
  }

  lemma {:induction false} ExecuteSparesHost(c: Loop, actions: seq<Action>)
    requires AllFit(actions)
    ensures Execute(c, actions).board[0] == c.board[0]
    decreases actions
  {
    if actions != [] { ExecuteSparesHost(Perform(c, actions[0]), actions[1..]); }
  }

  lemma HandleSwitches(c: Loop, e: Input, k: nat)
    requires Distinct(c.host.slots) && k < W.MAX_CLIENTS
    ensures Switched(c, Handle(c, e), k) && Distinct(Handle(c, e).host.slots)
  {
    var (h', out) := Step(c.host, e);
    var c1, events := c.(host := h', log := c.log + out), Select(out, PresenceOf(k + 1));
    PresenceFollowsSlots(c.host, e, k);
    ReportAlternates(events, k, c.host.slots, h'.slots);
    StepFits(c.host, e);
    ExecuteEffect(c1, out, EMPTY_TABLE, EMPTY_TABLE, k);
    ExecuteSparesHost(c1, out);
    SelectConcat(c.log, out, PresenceOf(k + 1));
    StepKeepsDistinct(c.host, e);
    SameAddrsDistinct(h'.slots, Handle(c, e).host.slots);
  }

  lemma EventSwitches(c: Loop, event: Option<Event>, now: nat, k: nat)
    requires Distinct(c.host.slots) && k < W.MAX_CLIENTS
    ensures Switched(c, AfterEvent(c, event, now), k) && Distinct(AfterEvent(c, event, now).host.slots)
  {
    if event.Some? {
      var from, control, known := event.value.from, event.value.control, Position(c.host.slots, event.value.from);
      var c1 := if known.Some? then Handle(c, HeardFrom(known.value + 1, now)) else c;
      if known.Some? { HandleSwitches(c, HeardFrom(known.value + 1, now), k); }
      match control
      case Hello(_, _, _, _, _) => HandleSwitches(c1, HelloFrom(from, control, now), k);
      case Ack(s, _) => HandleSwitches(c1, AckFrom(from, s, now), k);
      case Bye => HandleSwitches(c1, ByeFrom(from), k);
      case _ =>
    }
  }

  lemma {:induction false} FedSwitches(c: Loop, n: nat, k: nat)
    requires Distinct(c.host.slots) && n <= W.MAX_CLIENTS && k < W.MAX_CLIENTS
    ensures Switched(c, Fed(c, n), k) && Distinct(Fed(c, n).host.slots)
  {
    if n > 0 {
      FedSwitches(c, n - 1, k);
      var c1 := Fed(c, n - 1);
      if c1.streams[n - 1].lastRx > 0 { HandleSwitches(c1, HeardFrom(n, c1.streams[n - 1].lastRx / 1000), k); }
    }
  }

  lemma {:induction false} SentToAllSwitches(c: Loop, packets: seq<W.Control>, n: nat)
    requires n <= W.MAX_CLIENTS == |packets|
    ensures SentToAll(c, packets, n).board == c.board && SentToAll(c, packets, n).log == c.log
  {
    if n > 0 { SentToAllSwitches(c, packets, n - 1); }
  }

  lemma TimersSwitch(c: Loop, now: nat, pingUs: seq<u64>)
    requires |pingUs| == W.MAX_CLIENTS
    ensures var c' := KeptAlive(Pinged(c, now, pingUs), now); c'.board == c.board && c'.log == c.log
  {
    SentToAllSwitches(c.(lastPing := now), Pings(pingUs), W.MAX_CLIENTS);
    SentToAllSwitches(Pinged(c, now, pingUs).(lastKeepalive := now), KEEPALIVES, W.MAX_CLIENTS);
  }

  lemma TurnSwitches(c: Loop, i: TurnInput, k: nat)
    requires Distinct(c.host.slots) && i.Valid() && k < W.MAX_CLIENTS
    ensures Switched(c, Turn(c, i), k) && Distinct(Turn(c, i).host.slots)
  {
    EventSwitches(c, i.event, i.now, k);
    var met := Noted(AfterEvent(c, i.event, i.now), i.noted);
    FedSwitches(met, W.MAX_CLIENTS, k);
    HandleSwitches(Fed(met, W.MAX_CLIENTS), ClockAt(i.now), k);
    var c2 := Handle(Fed(met, W.MAX_CLIENTS), ClockAt(i.now));
    TimersSwitch(c2, i.now, i.pingUs);
    TimersPublishNothing(c2, i.now, i.pingUs);
  }

  /** Over every session: a slot's switches are off if anyone has joined or left it since, and otherwise exactly as
      they were; the host's own are never touched. */
  lemma {:induction false} SwitchesFollowSlots(s: System, ms: seq<Move>, k: nat)
    requires Distinct(s.c.host.slots) && AllPossible(s, ms) && k < W.MAX_CLIENTS
    ensures var (c, c') := (s.c, RunSystem(s, ms).c);
            && c'.board[0] == c.board[0] && Reports(c', k) >= Reports(c, k)
            && c'.board[k + 1] == if Reports(c', k) > Reports(c, k) then Switches(false, false) else c.board[k + 1]
    decreases ms
  {
    if ms != [] {
      if ms[0].Control? { TurnSwitches(s.c, ms[0].input, k); }
      SwitchesFollowSlots(Do(s, ms[0]), ms[1..], k);
    }
  }
}
