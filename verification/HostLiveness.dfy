/** What the liveness feed of the host's loop (crates/jam-core/src/control.rs:269-286) does to greeting,
    retransmission and timeouts: exactly when a WELCOME is sent again, and when a slot is freed. */
module HostLiveness {
  import opened Common
  import opened Handshake
  import opened Membership
  import opened Retries
  import opened HostControl
  import opened Utf8
  import W = Wire

  // ---------------------------------------------------------------- a turn, slot by slot

  /** The same up to the number stamped on the slot's WELCOME. */
  predicate Alike(a: Option<Slot>, b: Option<Slot>) {
    && (a.Some? <==> b.Some?)
    && (a.Some? ==>
          && a.value.(state := Active) == b.value.(state := Active)
          && (a.value.state.Pending? <==> b.value.state.Pending?)
          && (a.value.state.Pending? ==> a.value.state.(welcomeSeq := None) == b.value.state.(welcomeSeq := None)))
  }

  lemma {:induction false} ExecuteOnlyStamps(c: Loop, actions: seq<Action>, k: nat)
    requires AllFit(actions) && k < W.MAX_CLIENTS
    ensures Alike(c.host.slots[k], Execute(c, actions).host.slots[k]) && Execute(c, actions).log == c.log
    decreases actions
  {
    if actions != [] { ExecuteOnlyStamps(Perform(c, actions[0]), actions[1..], k); }
  }

  lemma HandleSlot(c: Loop, e: Input, k: nat)
    requires k < W.MAX_CLIENTS
    ensures Alike(Step(c.host, e).0.slots[k], Handle(c, e).host.slots[k])
    ensures Handle(c, e).log == c.log + Step(c.host, e).1
  {
    var (h', out) := Step(c.host, e);
    StepFits(c.host, e);
    ExecuteOnlyStamps(c.(host := h', log := c.log + out), out, k);
  }

  /** Inputs that are answered with nothing. */
  lemma SilentHandle(c: Loop, e: Input)
    requires Step(c.host, e).1 == []
    ensures Handle(c, e) == c.(host := Step(c.host, e).0)
  {
    assert c.log + [] == c.log;
  }

  /** A slot after the feed: heard when the receive thread last noted an arrival, if it ever did. */
  function FedSlot(c: Loop, k: nat): Option<Slot>
    requires k < W.MAX_CLIENTS
  {
    if c.host.slots[k].Some? && c.streams[k].lastRx > 0
    then Some(c.host.slots[k].value.(lastHeard := c.streams[k].lastRx / 1000, state := Active)) else c.host.slots[k]
  }

  lemma {:induction false} FedOnlySlots(c: Loop, n: nat)
    requires n <= W.MAX_CLIENTS
    ensures Fed(c, n) == c.(host := c.host.(slots := Fed(c, n).host.slots))
  {
    if n > 0 {
      FedOnlySlots(c, n - 1);
      var c1 := Fed(c, n - 1);
      if c1.streams[n - 1].lastRx > 0 { SilentHandle(c1, HeardFrom(n, c1.streams[n - 1].lastRx / 1000)); }
    }
  }

  lemma HeardSlot(c: Loop, sender: u16, at: nat, k: nat)
    requires k < W.MAX_CLIENTS
    ensures Handle(c, HeardFrom(sender, at)).host.slots[k]
         == if sender == k + 1 && c.host.slots[k].Some? then Some(c.host.slots[k].value.(lastHeard := at, state := Active))
            else c.host.slots[k]
  {
    SilentHandle(c, HeardFrom(sender, at));
  }

  lemma {:induction false} FedSlotAt(c: Loop, n: nat, k: nat)
    requires n <= W.MAX_CLIENTS && k < W.MAX_CLIENTS
    ensures Fed(c, n).host.slots[k] == if k < n then FedSlot(c, k) else c.host.slots[k]
  {
    if n > 0 {
      FedSlotAt(c, n - 1, k);
      FedOnlySlots(c, n - 1);
      FedOneMore(Fed(c, n - 1), n, k);
    }
  }

  lemma FedOneMore(c: Loop, n: nat, k: nat)
    requires 0 < n <= W.MAX_CLIENTS && k < W.MAX_CLIENTS
    ensures var c' := if c.streams[n - 1].lastRx > 0 then Handle(c, HeardFrom(n, c.streams[n - 1].lastRx / 1000)) else c;
            c'.host.slots[k] == if k == n - 1 then FedSlot(c, k) else c.host.slots[k]
  {
    if c.streams[n - 1].lastRx > 0 { HeardSlot(c, n, c.streams[n - 1].lastRx / 1000, k); }
  }

  lemma FedSlots(c: Loop)
    ensures Fed(c, W.MAX_CLIENTS) == c.(host := c.host.(slots := Fed(c, W.MAX_CLIENTS).host.slots))
    ensures forall k | 0 <= k < W.MAX_CLIENTS :: Fed(c, W.MAX_CLIENTS).host.slots[k] == FedSlot(c, k)
  {
    FedOnlySlots(c, W.MAX_CLIENTS);
    forall k | 0 <= k < W.MAX_CLIENTS ensures Fed(c, W.MAX_CLIENTS).host.slots[k] == FedSlot(c, k) {
      FedSlotAt(c, W.MAX_CLIENTS, k);
    }
  }

  /** The loop after the turn's packet and with the arrivals noted: what the feed and the tick then meet. */
  function Met(c: Loop, i: TurnInput): Loop
    requires i.Valid()
  {
    Noted(AfterEvent(c, i.event, i.now), i.noted)
  }

  lemma TurnSlot(c: Loop, i: TurnInput, k: nat)
    requires i.Valid() && k < W.MAX_CLIENTS
    ensures Alike(AfterTick(FedSlot(Met(c, i), k), i.now), Turn(c, i).host.slots[k])
  {
    var fed := Fed(Met(c, i), W.MAX_CLIENTS);
    FedSlots(Met(c, i));
    HandleSlot(fed, ClockAt(i.now), k);
    assert Step(fed.host, ClockAt(i.now)).0.slots[k] == AfterTick(fed.host.slots[k], i.now);
    TimersPublishNothing(Handle(fed, ClockAt(i.now)), i.now, i.pingUs);
  }

  // ---------------------------------------------------------------- when a slot stays pending

  predicate IsPending(slot: Option<Slot>) { slot.Some? && slot.value.state.Pending? }

  /** Retransmission survives a turn exactly so: a slot is pending at the end if and only if it was pending
      when the feed met it, the receive thread has noted no arrival for it since its client joined, and it is
      not given up in this very tick. */
  lemma PendingPastFeedIff(c: Loop, i: TurnInput, k: nat)
    requires i.Valid() && k < W.MAX_CLIENTS
    ensures var c1 := Met(c, i);
            IsPending(Turn(c, i).host.slots[k]) <==>
              c1.streams[k].lastRx == 0 && IsPending(c1.host.slots[k]) && !Judge(c1.host.slots[k].value, i.now).Drop?
  {
    TurnSlot(c, i, k);
  }

  // ---------------------------------------------------------------- how many WELCOMEs a turn sends

  lemma AlikeDistinct(slots: Slots, slots': Slots)
    requires Distinct(slots) && forall k | 0 <= k < W.MAX_CLIENTS :: Alike(slots[k], slots'[k])
    ensures Distinct(slots')
  {
    ShrinkKeepsDistinct(slots, slots');
  }

  lemma HandleKeepsDistinct(c: Loop, e: Input)
    requires Distinct(c.host.slots)
    ensures Distinct(Handle(c, e).host.slots)
  {
    StepKeepsDistinct(c.host, e);
    forall k | 0 <= k < W.MAX_CLIENTS ensures Alike(Step(c.host, e).0.slots[k], Handle(c, e).host.slots[k]) {
      HandleSlot(c, e, k);
    }
    AlikeDistinct(Step(c.host, e).0.slots, Handle(c, e).host.slots);
  }

  lemma EventKeepsDistinct(c: Loop, event: Option<Event>, now: nat)
    requires Distinct(c.host.slots)
    ensures Distinct(AfterEvent(c, event, now).host.slots)
  {
    if event.Some? {
      var from, control, known := event.value.from, event.value.control, Position(c.host.slots, event.value.from);
      var c1 := if known.Some? then Handle(c, HeardFrom(known.value + 1, now)) else c;
      if known.Some? { HandleKeepsDistinct(c, HeardFrom(known.value + 1, now)); }
      match control
      case Hello(_, _, _, _, _) => HandleKeepsDistinct(c1, HelloFrom(from, control, now));
      case Ack(s, _) => HandleKeepsDistinct(c1, AckFrom(from, s, now));
      case Bye => HandleKeepsDistinct(c1, ByeFrom(from));
      case _ =>
    }
  }

  function WelcomeLog(c: Loop, k: nat): seq<Action> { Select(c.log, WelcomeOf(k + 1)) }

  /** The tick's own WELCOME for a slot. */
  lemma TickRepeats(c: Loop, now: nat, k: nat)
    requires Distinct(c.host.slots) && k < W.MAX_CLIENTS
    ensures WelcomeLog(Handle(c, ClockAt(now)), k)
         == WelcomeLog(c, k) + DueWelcome(Ticked(c.host, now), c.host.slots, now, W.MAX_CLIENTS, WelcomeOf(k + 1), RosterOf(Ticked(c.host, now)))
  {
    HandleSlot(c, ClockAt(now), k);
    TickWelcomes(c.host, now, k);
    SelectConcat(c.log, Step(c.host, ClockAt(now)).1, WelcomeOf(k + 1));
  }

  /** Feed and tick send a slot's WELCOME once more if it is due and nothing has been noted for the slot, and
      not at all otherwise. */
  lemma TurnRepeatsIff(c: Loop, i: TurnInput, k: nat)
    requires Distinct(c.host.slots) && i.Valid() && k < W.MAX_CLIENTS
    ensures var c1 := Met(c, i);
            |WelcomeLog(Turn(c, i), k)| == |WelcomeLog(AfterEvent(c, i.event, i.now), k)|
              + if c1.streams[k].lastRx == 0 && Resends(c1.host.slots, i.now, k) then 1 else 0
  {
    var c1 := Met(c, i);
    var fed := Fed(c1, W.MAX_CLIENTS);
    EventKeepsDistinct(c, i.event, i.now);
    FedSlots(c1);
    ShrinkKeepsDistinct(c1.host.slots, fed.host.slots);
    TickRepeats(fed, i.now, k);
    TimersPublishNothing(Handle(fed, ClockAt(i.now)), i.now, i.pingUs);
  }

  predicate Renews(c: Loop, event: Option<Event>, k: nat) {
    event.Some? && Admissible(c.host, event.value.control) && Position(c.host.slots, event.value.from) == Some(k)
  }

  lemma HeardKeepsPosition(h: Host, sender: u16, now: nat, a: Addr)
    ensures Position(MarkHeard(h, sender, now).slots, a) == Position(h.slots, a)
  {
    var slots' := MarkHeard(h, sender, now).slots;
    assert forall j: nat | j < W.MAX_CLIENTS :: At(slots', j, a) <==> At(h.slots, j, a);
  }

  /** A renewed HELLO is answered with one WELCOME, and the slot starts over. */
  lemma RenewalGreets(c: Loop, event: Option<Event>, now: nat, k: nat)
    requires Renews(c, event, k) && k < W.MAX_CLIENTS
    ensures |WelcomeLog(AfterEvent(c, event, now), k)| == |WelcomeLog(c, k)| + 1
  {
    var from, hello := event.value.from, event.value.control;
    SilentHandle(c, HeardFrom(k + 1, now));
    HeardKeepsPosition(c.host, k + 1, now, from);
    var c1 := Handle(c, HeardFrom(k + 1, now));
    HandleSlot(c1, HelloFrom(from, hello, now), k);
    var h' := Step(c1.host, HelloFrom(from, hello, now)).0;
    SelectSnoc(c1.log, Send(from, WelcomeFor(h', k)), WelcomeOf(k + 1));
  }

  /** Other packets are answered with no WELCOME. */
  lemma OtherPacketsGreetNobody(c: Loop, event: Option<Event>, now: nat, k: nat)
    requires Distinct(c.host.slots) && k < W.MAX_CLIENTS && (event.Some? ==> !event.value.control.Hello?)
    ensures WelcomeLog(AfterEvent(c, event, now), k) == WelcomeLog(c, k)
  {
    if event.Some? {
      var from, control, known := event.value.from, event.value.control, Position(c.host.slots, event.value.from);
      var c1 := if known.Some? then Handle(c, HeardFrom(known.value + 1, now)) else c;
      if known.Some? {
        SilentHandle(c, HeardFrom(known.value + 1, now));
        HandleKeepsDistinct(c, HeardFrom(known.value + 1, now));
      }
      match control
      case Ack(s, _) => SilentHandle(c1, AckFrom(from, s, now));
      case Bye => ByeGreetsNobody(c1, from, k);
      case _ =>
    }
  }

  lemma ByeGreetsNobody(c: Loop, from: Addr, k: nat)
    requires Distinct(c.host.slots) && k < W.MAX_CLIENTS
    ensures WelcomeLog(Handle(c, ByeFrom(from)), k) == WelcomeLog(c, k)
  {
    HandleSlot(c, ByeFrom(from), k);
    StepKeepsDistinct(c.host, ByeFrom(from));
    DeparturesWelcomes(OnBye(c.host, from).0, Departing(c.host.slots, from), [], k + 1);
    SelectConcat(c.log, OnBye(c.host, from).1, WelcomeOf(k + 1));
  }

  /** A client that starts over in a slot it has been heard from gets exactly one WELCOME for its HELLO, and its
      slot is not left pending. */
  lemma RenewedHelloGetsOneWelcome(c: Loop, i: TurnInput, k: nat)
    requires Distinct(c.host.slots) && i.Valid() && k < W.MAX_CLIENTS && Renews(c, i.event, k) && Met(c, i).streams[k].lastRx > 0
    ensures |WelcomeLog(Turn(c, i), k)| == |WelcomeLog(c, k)| + 1 && !IsPending(Turn(c, i).host.slots[k])
  {
    RenewalGreets(c, i.event, i.now, k);
    TurnRepeatsIff(c, i, k);
    PendingPastFeedIff(c, i, k);
  }

  /** Without a HELLO in it, a turn sends a slot's WELCOME if and only if it is due and nothing has been noted. */
  lemma QuietTurnRepeatsIff(c: Loop, i: TurnInput, k: nat)
    requires Distinct(c.host.slots) && i.Valid() && k < W.MAX_CLIENTS && (i.event.Some? ==> !i.event.value.control.Hello?)
    ensures var c1 := Met(c, i);
            |WelcomeLog(Turn(c, i), k)| == |WelcomeLog(c, k)|
              + if c1.streams[k].lastRx == 0 && Resends(c1.host.slots, i.now, k) then 1 else 0
  {
    OtherPacketsGreetNobody(c, i.event, i.now, k);
    TurnRepeatsIff(c, i, k);
  }

  // ---------------------------------------------------------------- whole runs

  predicate NoJoin(actions: seq<Action>, k: nat) { forall a | a in actions && a.ClientJoined? :: a.senderId != k + 1 }

  lemma {:induction false} InSelect(actions: seq<Action>, kind: Kind, a: Action)
    requires a in actions && Is(a, kind)
    ensures a in Select(actions, kind)
    decreases actions
  {
    if a != actions[0] { InSelect(actions[1..], kind, a); }
  }

  /** Only a HELLO into an empty slot reports a join. */
  lemma StepWithoutJoin(h: Host, e: Input, k: nat)
    requires Distinct(h.slots) && k < W.MAX_CLIENTS && (h.slots[k].Some? || !e.HelloFrom?)
    ensures NoJoin(Step(h, e).1, k)
    ensures h.slots[k].None? ==> Step(h, e).0.slots[k].None?
  {
    PresenceFollowsSlots(h, e, k);
    if e.ClockAt? { assert Step(h, e).0.slots[k] == AfterTick(h.slots[k], e.now); }
    forall a | a in Step(h, e).1 && a.ClientJoined? ensures a.senderId != k + 1 {
      if a.senderId == k + 1 { InSelect(Step(h, e).1, PresenceOf(k + 1), a); }
    }
  }

  lemma {:induction false} ExecuteKeepsArrival(c: Loop, actions: seq<Action>, k: nat)
    requires AllFit(actions) && NoJoin(actions, k) && k < W.MAX_CLIENTS
    ensures Execute(c, actions).streams[k].lastRx == c.streams[k].lastRx
    decreases actions
  {
    if actions != [] { ExecuteKeepsArrival(Perform(c, actions[0]), actions[1..], k); }
  }

  lemma HandleKeepsArrival(c: Loop, e: Input, k: nat)
    requires Distinct(c.host.slots) && k < W.MAX_CLIENTS && (c.host.slots[k].Some? || !e.HelloFrom?)
    ensures Handle(c, e).streams[k].lastRx == c.streams[k].lastRx
  {
    var (h', out) := Step(c.host, e);
    StepFits(c.host, e);
    StepWithoutJoin(c.host, e, k);
    ExecuteKeepsArrival(c.(host := h', log := c.log + out), out, k);
  }

  lemma EventKeepsArrival(c: Loop, event: Option<Event>, now: nat, k: nat)
    requires Distinct(c.host.slots) && k < W.MAX_CLIENTS
    requires c.host.slots[k].Some? || (event.Some? ==> !event.value.control.Hello?)
    ensures AfterEvent(c, event, now).streams[k].lastRx == c.streams[k].lastRx
  {
    if event.Some? {
      var from, control, known := event.value.from, event.value.control, Position(c.host.slots, event.value.from);
      var c1 := if known.Some? then Handle(c, HeardFrom(known.value + 1, now)) else c;
      if known.Some? {
        SilentHandle(c, HeardFrom(known.value + 1, now));
        HandleKeepsDistinct(c, HeardFrom(known.value + 1, now));
      }
      match control
      case Hello(_, _, _, _, _) => HandleKeepsArrival(c1, HelloFrom(from, control, now), k);
      case Ack(s, _) => HandleKeepsArrival(c1, AckFrom(from, s, now), k);
      case Bye => HandleKeepsArrival(c1, ByeFrom(from), k);
      case _ =>
    }
  }

  lemma TurnKeepsDistinct(c: Loop, i: TurnInput)
    requires Distinct(c.host.slots) && i.Valid()
    ensures Distinct(Met(c, i).host.slots) && Distinct(Fed(Met(c, i), W.MAX_CLIENTS).host.slots) && Distinct(Turn(c, i).host.slots)
  {
    var fed := Fed(Met(c, i), W.MAX_CLIENTS);
    EventKeepsDistinct(c, i.event, i.now);
    FedSlots(Met(c, i));
    ShrinkKeepsDistinct(Met(c, i).host.slots, fed.host.slots);
    HandleKeepsDistinct(fed, ClockAt(i.now));
    TimersPublishNothing(Handle(fed, ClockAt(i.now)), i.now, i.pingUs);
  }

  /** A turn forgets a noted arrival only when a new client takes the slot. */
  lemma TurnKeepsArrival(c: Loop, i: TurnInput, k: nat)
    requires Distinct(c.host.slots) && i.Valid() && k < W.MAX_CLIENTS
    requires c.host.slots[k].Some? || (i.event.Some? ==> !i.event.value.control.Hello?)
    ensures Met(c, i).streams[k].lastRx == if i.noted[k].Some? then i.noted[k].value else c.streams[k].lastRx
    ensures Turn(c, i).streams[k].lastRx == Met(c, i).streams[k].lastRx
  {
    var fed := Fed(Met(c, i), W.MAX_CLIENTS);
    EventKeepsArrival(c, i.event, i.now, k);
    TurnKeepsDistinct(c, i);
    FedSlots(Met(c, i));
    HandleKeepsArrival(fed, ClockAt(i.now), k);
    TimersPublishNothing(Handle(fed, ClockAt(i.now)), i.now, i.pingUs);
  }

  function Turns(c: Loop, inputs: seq<TurnInput>): Loop
    requires forall n | 0 <= n < |inputs| :: inputs[n].Valid()
    decreases inputs
  {
    if inputs == [] then c else Turns(Turn(c, inputs[0]), inputs[1..])
  }

  /** The turn brings no HELLO, and arrivals are noted at times after the clock's zero. */
  predicate Later(i: TurnInput, k: nat) {
    i.Valid() && k < W.MAX_CLIENTS && (i.event.Some? ==> !i.event.value.control.Hello?) && (i.noted[k].Some? ==> i.noted[k].value > 0)
  }

  /** Once an arrival has been noted for a slot, no later turn without a HELLO sends its WELCOME, however many
      there are: there is one WELCOME per HELLO and no retransmission. */
  lemma {:induction false} NotedSlotIsNeverRepeated(c: Loop, inputs: seq<TurnInput>, k: nat)
    requires Distinct(c.host.slots) && k < W.MAX_CLIENTS && c.streams[k].lastRx > 0 && forall n | 0 <= n < |inputs| :: inputs[n].Valid() && Later(inputs[n], k)
    ensures |WelcomeLog(Turns(c, inputs), k)| == |WelcomeLog(c, k)|
    decreases inputs
  {
    if inputs != [] {
      QuietTurnRepeatsIff(c, inputs[0], k);
      TurnKeepsArrival(c, inputs[0], k);
      TurnKeepsDistinct(c, inputs[0]);
      NotedSlotIsNeverRepeated(Turn(c, inputs[0]), inputs[1..], k);
    }
  }

  /** So a renewed HELLO gets one WELCOME in all: the one that answers it. */
  lemma RenewedHelloIsNotRepeated(c: Loop, i: TurnInput, inputs: seq<TurnInput>, k: nat)
    requires Distinct(c.host.slots) && i.Valid() && k < W.MAX_CLIENTS && Renews(c, i.event, k)
    requires c.streams[k].lastRx > 0 && (i.noted[k].Some? ==> i.noted[k].value > 0) && forall n | 0 <= n < |inputs| :: inputs[n].Valid() && Later(inputs[n], k)
    ensures |WelcomeLog(Turns(Turn(c, i), inputs), k)| == |WelcomeLog(c, k)| + 1
  {
    TurnKeepsArrival(c, i, k);
    RenewedHelloGetsOneWelcome(c, i, k);
    TurnKeepsDistinct(c, i);
    NotedSlotIsNeverRepeated(Turn(c, i), inputs, k);
  }

  lemma {:induction false} ExecuteKeepsRoom(c: Loop, actions: seq<Action>)
    requires AllFit(actions)
    ensures Execute(c, actions).host.room == c.host.room
    decreases actions
  {
    if actions != [] { ExecuteKeepsRoom(Perform(c, actions[0]), actions[1..]); }
  }

  lemma HandleKeepsRoom(c: Loop, e: Input)
    ensures Handle(c, e).host.room == c.host.room
  {
    var (h', out) := Step(c.host, e);
    StepFits(c.host, e);
    ExecuteKeepsRoom(c.(host := h', log := c.log + out), out);
  }

  /** A session's first turn, with a client's HELLO, and its second, with the first packet of it noted. */
  function FirstTurn(a: Addr, hello: W.Control): TurnInput {
    TurnInput(Some(Event(a, 0, hello)), 1, [None, None, None, None], [0, 0, 0, 0])
  }

  const SECOND_TURN := TurnInput(None, 40, [Some(30000), None, None, None], [0, 0, 0, 0])

  function Opening(h: Host, a: Addr, hello: W.Control): Loop {
    Turn(Turn(NewLoop(h), FirstTurn(a, hello)), SECOND_TURN)
  }

  /** One client, in the first slot. */
  ghost predicate Alone(slots: Slots, a: Addr) { forall j: nat, x :: At(slots, j, x) <==> j == 0 && x == a }

  lemma FedKeepsRoom(c: Loop, n: nat)
    requires n <= W.MAX_CLIENTS
    ensures Fed(c, n).host.room == c.host.room
  {
    FedOnlySlots(c, n);
  }

  lemma TurnKeepsRoom(c: Loop, i: TurnInput)
    requires i.Valid() && (i.event.Some? ==> i.event.value.control.Hello? && Position(c.host.slots, i.event.value.from).None?)
    ensures Turn(c, i).host.room == c.host.room
  {
    if i.event.Some? { HandleKeepsRoom(c, HelloFrom(i.event.value.from, i.event.value.control, i.now)); }
    FedKeepsRoom(Met(c, i), W.MAX_CLIENTS);
    HandleKeepsRoom(Fed(Met(c, i), W.MAX_CLIENTS), ClockAt(i.now));
    TimersPublishNothing(Handle(Fed(Met(c, i), W.MAX_CLIENTS), ClockAt(i.now)), i.now, i.pingUs);
  }

  lemma FirstTurnSeats(h: Host, a: Addr, hello: W.Control)
    requires h.slots == NO_SLOTS && Admissible(h, hello)
    ensures var c := Turn(NewLoop(h), FirstTurn(a, hello)); c.host.room == h.room && Alone(c.host.slots, a)
  {
    var c0, i := NewLoop(h), FirstTurn(a, hello);
    assert Position(h.slots, a).None? && FreeSlot(h.slots) == Some(0);
    forall j: nat | j < W.MAX_CLIENTS ensures Turn(c0, i).host.slots[j].Some? <==> j == 0
      ensures j == 0 ==> Turn(c0, i).host.slots[j].value.addr == a
    {
      HandleSlot(c0, HelloFrom(a, hello, 1), j);
      TurnSlot(c0, i, j);
    }
    TurnKeepsRoom(c0, i);
  }

  lemma OpeningSeats(h: Host, a: Addr, hello: W.Control)
    requires h.slots == NO_SLOTS && Admissible(h, hello)
    ensures var c := Opening(h, a, hello);
            c.host.room == h.room && c.streams[0].lastRx == 30000 && Alone(c.host.slots, a) && Distinct(c.host.slots)
  {
    var c := Turn(NewLoop(h), FirstTurn(a, hello));
    FirstTurnSeats(h, a, hello);
    assert At(c.host.slots, 0, a);
    TurnKeepsArrival(c, SECOND_TURN, 0);
    forall j: nat | j < W.MAX_CLIENTS ensures Opening(h, a, hello).host.slots[j].Some? <==> j == 0
      ensures j == 0 ==> Opening(h, a, hello).host.slots[j].value.addr == a
    {
      if j > 0 && c.host.slots[j].Some? { assert At(c.host.slots, j, c.host.slots[j].value.addr); }
      TurnSlot(c, SECOND_TURN, j);
    }
    TurnKeepsRoom(c, SECOND_TURN);
  }

  /** The client starts over at 50 ms. */
  function Again(a: Addr, hello: W.Control): TurnInput {
    TurnInput(Some(Event(a, 0, hello)), 50, [None, None, None, None], [0, 0, 0, 0])
  }

  /** A session in which it happens, from its very start: a client joins at 1 ms and a packet of it is noted at
      30 ms; at 50 ms it starts over and is greeted; at 150 ms, when a new client's WELCOME would be repeated,
      nothing is sent. */
  lemma RenewedHelloExample(h: Host, a: Addr, hello: W.Control)
    requires h.slots == NO_SLOTS && Admissible(h, hello)
    ensures var greeted := Turn(Opening(h, a, hello), Again(a, hello));
            var later := Turn(greeted, TurnInput(None, 150, [None, None, None, None], [0, 0, 0, 0]));
            && |WelcomeLog(greeted, 0)| == |WelcomeLog(Opening(h, a, hello), 0)| + 1 && !IsPending(greeted.host.slots[0])
            && |WelcomeLog(later, 0)| == |WelcomeLog(greeted, 0)|
  {
    var c, i := Opening(h, a, hello), Again(a, hello);
    var quiet := TurnInput(None, 150, [None, None, None, None], [0, 0, 0, 0]);
    OpeningSeats(h, a, hello);
    assert At(c.host.slots, 0, a);
    TurnKeepsArrival(c, i, 0);
    RenewedHelloGetsOneWelcome(c, i, 0);
    TurnKeepsDistinct(c, i);
    assert [quiet][1..] == [];
    NotedSlotIsNeverRepeated(Turn(c, i), [quiet], 0);
  }

  // ---------------------------------------------------------------- when a slot is freed

  /** The packet that says goodbye for slot `k`. */
  predicate Leaves(c: Loop, event: Option<Event>, k: nat)
    requires k < W.MAX_CLIENTS
  {
    event.Some? && event.value.control.Bye? && event.value.session == c.host.session && At(c.host.slots, k, event.value.from)
  }

  lemma HandleFreesIff(c: Loop, e: Input, k: nat)
    requires k < W.MAX_CLIENTS && c.host.slots[k].Some? && !e.ClockAt?
    ensures Handle(c, e).host.slots[k].None? <==> e == ByeFrom(c.host.slots[k].value.addr)
    ensures Handle(c, e).host.slots[k].Some? ==> Handle(c, e).host.slots[k].value.addr == c.host.slots[k].value.addr
  {
    HandleSlot(c, e, k);
    SlotIsFreedIff(c.host, e, k);
    OccupiedKeepsAddress(c.host, e, k);
  }

  lemma OccupiedKeepsAddress(h: Host, e: Input, k: nat)
    requires k < W.MAX_CLIENTS && h.slots[k].Some?
    ensures Step(h, e).0.slots[k].Some? ==> Step(h, e).0.slots[k].value.addr == h.slots[k].value.addr
  {
    SlotEvolves(h, e, k);
    EvolvingKeepsAddress(h.slots[k].value, e, k, Step(h, e).0.slots[k]);
  }

  lemma EvolvingKeepsAddress(s: Slot, e: Input, k: nat, slot': Option<Slot>)
    requires Evolves(Some(s), e, k, slot')
    ensures slot'.Some? ==> slot'.value.addr == s.addr
  {
  }

  lemma EventFreesIff(c: Loop, event: Option<Event>, now: nat, k: nat)
    requires k < W.MAX_CLIENTS && c.host.slots[k].Some?
    ensures AfterEvent(c, event, now).host.slots[k].None? <==> Leaves(c, event, k)
  {
    if event.Some? {
      var from, control, known := event.value.from, event.value.control, Position(c.host.slots, event.value.from);
      var c1 := if known.Some? then Handle(c, HeardFrom(known.value + 1, now)) else c;
      if known.Some? {
        SilentHandle(c, HeardFrom(known.value + 1, now));
        HandleFreesIff(c, HeardFrom(known.value + 1, now), k);
      }
      match control
      case Hello(_, _, _, _, _) => HandleFreesIff(c1, HelloFrom(from, control, now), k);
      case Ack(s, _) => HandleFreesIff(c1, AckFrom(from, s, now), k);
      case Bye => HandleFreesIff(c1, ByeFrom(from), k);
      case _ =>
    }
  }

  /** When a turn frees a slot for which an arrival has been noted: on a goodbye from its address, or when the
      last noted arrival is more than five seconds old - whatever HELLO or acknowledgement came in the turn. */
  lemma NotedSlotIsFreedIff(c: Loop, i: TurnInput, k: nat)
    requires i.Valid() && k < W.MAX_CLIENTS && c.host.slots[k].Some? && Met(c, i).streams[k].lastRx > 0
    ensures Turn(c, i).host.slots[k].None? <==>
              Leaves(c, i.event, k) || i.now > Met(c, i).streams[k].lastRx / 1000 + PEER_TIMEOUT_MS
  {
    EventFreesIff(c, i.event, i.now, k);
    TurnSlot(c, i, k);
  }
}
