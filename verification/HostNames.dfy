/** Which name the host shows for a client (crates/jam-core/src/control.rs:151, :172): the one it joined under,
    whatever name it has said since. */
module HostNames {
  import opened Common
  import opened Handshake
  import opened Membership
  import opened HostControl
  import opened HostLiveness
  import opened Utf8
  import W = Wire

  /** The packet is a HELLO that is accepted into slot `k`. */
  predicate Accepted(c: Loop, event: Option<Event>, k: nat) {
    && event.Some? && Admissible(c.host, event.value.control)
    && var known := Position(c.host.slots, event.value.from);
       if known.Some? then known == Some(k) else FreeSlot(c.host.slots) == Some(k)
  }

  function NameSaid(said: Option<Text>, c: Loop, event: Option<Event>, k: nat): Option<Text> {
    if Accepted(c, event, k) then Some(event.value.control.name) else said
  }

  /** The name in the last HELLO that was accepted into slot `k` during a run. */
  function SaidIn(said: Option<Text>, s: System, ms: seq<Move>, k: nat): Option<Text>
    requires AllPossible(s, ms)
    decreases ms
  {
    if ms == [] then said
    else SaidIn(if ms[0].Control? then NameSaid(said, s.c, ms[0].input.event, k) else said, Do(s, ms[0]), ms[1..], k)
  }

  /** A slot that is occupied goes by the name last said for it. */
  predicate Named(slot: Option<Slot>, said: Option<Text>) { slot.Some? ==> said == Some(slot.value.name) }

  lemma StepNames(h: Host, e: Input, k: nat, said: Option<Text>)
    requires k < W.MAX_CLIENTS && Named(h.slots[k], said) && !e.HelloFrom?
    ensures Named(Step(h, e).0.slots[k], said)
  {
    if e.ClockAt? { assert Step(h, e).0.slots[k] == AfterTick(h.slots[k], e.now); }
  }

  lemma HandleNames(c: Loop, e: Input, k: nat, said: Option<Text>)
    requires k < W.MAX_CLIENTS && Named(c.host.slots[k], said) && !e.HelloFrom?
    ensures Named(Handle(c, e).host.slots[k], said)
  {
    HandleSlot(c, e, k);
    StepNames(c.host, e, k, said);
  }

  lemma HelloNames(c: Loop, event: Event, now: nat, k: nat, said: Option<Text>)
    requires k < W.MAX_CLIENTS && Named(c.host.slots[k], said)
    ensures Named(Handle(c, HelloFrom(event.from, event.control, now)).host.slots[k], NameSaid(said, c, Some(event), k))
  {
    HandleSlot(c, HelloFrom(event.from, event.control, now), k);
  }

  /** Marking a slot heard moves nobody. */
  lemma HeardKeepsAccepted(c: Loop, sender: u16, at: nat, event: Option<Event>, k: nat)
    ensures Accepted(Handle(c, HeardFrom(sender, at)), event, k) <==> Accepted(c, event, k)
  {
    SilentHandle(c, HeardFrom(sender, at));
    if event.Some? { HeardKeepsPosition(c.host, sender, at, event.value.from); }
    var slots' := MarkHeard(c.host, sender, at).slots;
    assert forall j: nat | j < W.MAX_CLIENTS :: slots'[j].None? <==> c.host.slots[j].None?;
    assert FreeSlot(slots') == FreeSlot(c.host.slots);
  }

  lemma EventNames(c: Loop, event: Option<Event>, now: nat, k: nat, said: Option<Text>)
    requires k < W.MAX_CLIENTS && Named(c.host.slots[k], said)
    ensures Named(AfterEvent(c, event, now).host.slots[k], NameSaid(said, c, event, k))
  {
    if event.Some? {
      var from, control, known := event.value.from, event.value.control, Position(c.host.slots, event.value.from);
      var c1 := if known.Some? then Handle(c, HeardFrom(known.value + 1, now)) else c;
      if known.Some? {
        HandleNames(c, HeardFrom(known.value + 1, now), k, said);
        HeardKeepsAccepted(c, known.value + 1, now, event, k);
      }
      match control
      case Hello(_, _, _, _, _) => HelloNames(c1, event.value, now, k, said);
      case Ack(s, _) => HandleNames(c1, AckFrom(from, s, now), k, said);
      case Bye => HandleNames(c1, ByeFrom(from), k, said);
      case _ =>
    }
  }

  lemma TurnNames(c: Loop, i: TurnInput, k: nat, said: Option<Text>)
    requires i.Valid() && k < W.MAX_CLIENTS && Named(c.host.slots[k], said)
    ensures Named(Turn(c, i).host.slots[k], NameSaid(said, c, i.event, k))
  {
    EventNames(c, i.event, i.now, k, said);
    TurnSlot(c, i, k);
  }

  lemma {:induction false} RunNames(s: System, ms: seq<Move>, k: nat, said: Option<Text>)
    requires AllPossible(s, ms) && k < W.MAX_CLIENTS && Named(s.c.host.slots[k], said)
    ensures Named(RunSystem(s, ms).c.host.slots[k], SaidIn(said, s, ms, k))
    decreases ms
  {
    if ms != [] {
      if ms[0].Control? { TurnNames(s.c, ms[0].input, k, said); }
      RunNames(Do(s, ms[0]), ms[1..], k, if ms[0].Control? then NameSaid(said, s.c, ms[0].input.event, k) else said);
    }
  }

  /** At every turn of every session, for an occupied slot: the machine, and so every roster, has the name of
      the last HELLO accepted into it, and the host shows the name its client joined under. They are the same
      exactly when that HELLO carried that name. */
  lemma ShownNameIff(h: Host, ms: seq<Move>, k: nat)
    requires h.slots == NO_SLOTS && k < W.MAX_CLIENTS && AllPossible(System(NewLoop(h), EMPTY_TABLE, EMPTY_TABLE), ms)
    ensures var s0 := System(NewLoop(h), EMPTY_TABLE, EMPTY_TABLE);
            var c := RunSystem(s0, ms).c;
            var joined := JoinedName(Select(c.log, PresenceOf(k + 1)));
            c.host.slots[k].Some? ==>
              && SaidIn(None, s0, ms, k) == Some(c.host.slots[k].value.name) && c.names[k] == joined && joined.Some?
              && (c.names[k] == Some(c.host.slots[k].value.name) <==> SaidIn(None, s0, ms, k) == joined)
  {
    TablesMirrorTheSession(h, ms);
    assert SlotMirrored(RunSystem(System(NewLoop(h), EMPTY_TABLE, EMPTY_TABLE), ms), k);
    RunNames(System(NewLoop(h), EMPTY_TABLE, EMPTY_TABLE), ms, k, None);
  }

  // ---------------------------------------------------------------- a session in which they differ

  /** Handling an input changes the name shown only by filling or freeing the slot. */
  lemma HandleShows(c: Loop, e: Input, k: nat)
    requires Distinct(c.host.slots) && k < W.MAX_CLIENTS
    ensures var slot, slot' := c.host.slots[k], Step(c.host, e).0.slots[k];
            Handle(c, e).names[k] == if slot.Some? == slot'.Some? then c.names[k] else if slot'.Some? then Some(slot'.value.name) else None
  {
    var (h', out) := Step(c.host, e);
    PresenceFollowsSlots(c.host, e, k);
    ReportAlternates(Select(out, PresenceOf(k + 1)), k, c.host.slots, h'.slots);
    StepFits(c.host, e);
    ExecuteEffect(c.(host := h', log := c.log + out), out, EMPTY_TABLE, EMPTY_TABLE, k);
  }

  lemma HandleKeepsShown(c: Loop, e: Input, k: nat)
    requires Distinct(c.host.slots) && k < W.MAX_CLIENTS && c.host.slots[k].Some? && Handle(c, e).host.slots[k].Some?
    ensures Handle(c, e).names[k] == c.names[k]
  {
    HandleSlot(c, e, k);
    HandleShows(c, e, k);
  }

  lemma EventKeepsShown(c: Loop, event: Option<Event>, now: nat, k: nat)
    requires Distinct(c.host.slots) && k < W.MAX_CLIENTS && c.host.slots[k].Some? && AfterEvent(c, event, now).host.slots[k].Some?
    ensures AfterEvent(c, event, now).names[k] == c.names[k]
  {
    if event.Some? {
      var from, control, known := event.value.from, event.value.control, Position(c.host.slots, event.value.from);
      var c1 := if known.Some? then Handle(c, HeardFrom(known.value + 1, now)) else c;
      if known.Some? {
        HandleKeepsDistinct(c, HeardFrom(known.value + 1, now));
        SilentHandle(c, HeardFrom(known.value + 1, now));
      }
      match control
      case Hello(_, _, _, _, _) => HandleKeepsShown(c1, HelloFrom(from, control, now), k);
      case Ack(s, _) => HandleKeepsShown(c1, AckFrom(from, s, now), k);
      case Bye => if event.value.session == c1.host.session { HandleKeepsShown(c1, ByeFrom(from), k); }
      case _ =>
    }
  }

  /** The rest of a turn after its packet. */
  lemma TurnShows(c: Loop, i: TurnInput, k: nat)
    requires Distinct(c.host.slots) && i.Valid() && k < W.MAX_CLIENTS && Turn(c, i).host.slots[k].Some?
    ensures AfterEvent(c, i.event, i.now).host.slots[k].Some?
    ensures Turn(c, i).names[k] == AfterEvent(c, i.event, i.now).names[k]
  {
    var fed := Fed(Met(c, i), W.MAX_CLIENTS);
    TurnSlot(c, i, k);
    TurnKeepsDistinct(c, i);
    FedSlots(Met(c, i));
    TimersPublishNothing(Handle(fed, ClockAt(i.now)), i.now, i.pingUs);
    HandleKeepsShown(fed, ClockAt(i.now), k);
  }

  /** While a client keeps its slot, the name shown stays. */
  lemma ShownNameStays(c: Loop, i: TurnInput, k: nat)
    requires Distinct(c.host.slots) && i.Valid() && k < W.MAX_CLIENTS && c.host.slots[k].Some? && Turn(c, i).host.slots[k].Some?
    ensures Turn(c, i).names[k] == c.names[k]
  {
    TurnShows(c, i, k);
    EventKeepsShown(c, i.event, i.now, k);
  }

  lemma OpeningShows(h: Host, a: Addr, hello: W.Control)
    requires h.slots == NO_SLOTS && Admissible(h, hello)
    ensures Opening(h, a, hello).names[0] == Some(hello.name)
  {
    var c := Turn(NewLoop(h), FirstTurn(a, hello));
    FirstTurnSeats(h, a, hello);
    OpeningSeats(h, a, hello);
    assert At(c.host.slots, 0, a) && At(Opening(h, a, hello).host.slots, 0, a);
    TurnShows(NewLoop(h), FirstTurn(a, hello), 0);
    HandleShows(NewLoop(h), HelloFrom(a, hello, 1), 0);
    assert Position(h.slots, a).None? && FreeSlot(h.slots) == Some(0);
    ShownNameStays(c, SECOND_TURN, 0);
  }

  /** A client joins under one name and starts over under another: the host goes on showing the first. */
  lemma RenamedClientExample(h: Host, a: Addr, hello: W.Control, again: W.Control)
    requires h.slots == NO_SLOTS && Admissible(h, hello) && Admissible(h, again)
    ensures var c := Turn(Opening(h, a, hello), Again(a, again));
            c.host.slots[0].Some? && c.host.slots[0].value.name == again.name && c.names[0] == Some(hello.name)
  {
    var c, renewed := Opening(h, a, hello), Again(a, again);
    OpeningSeats(h, a, hello);
    OpeningShows(h, a, hello);
    assert At(c.host.slots, 0, a);
    TurnKeepsArrival(c, renewed, 0);
    NotedSlotIsFreedIff(c, renewed, 0);
    ShownNameStays(c, renewed, 0);
    TurnNames(c, renewed, 0, Some(c.host.slots[0].value.name));
    assert Position(c.host.slots, a) == Some(0);
  }
}
