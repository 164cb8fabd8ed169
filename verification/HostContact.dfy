/** Whom a turn of the host's loop takes to have been heard, and what follows for every slot, told from the state
    before the turn and what the turn meets (crates/jam-core/src/control.rs:190-286). */
module HostContact {
  import opened Common
  import opened Handshake
  import opened Membership
  import opened Retries
  import opened HostControl
  import opened HostLiveness
  import opened HostNames
  import W = Wire

  predicate FromSlot(c: Loop, event: Option<Event>, k: nat) { event.Some? && At(c.host.slots, k, event.value.from) }

  /** A slot just heard from. */
  function Refreshed(s: Slot, now: nat): Slot { Slot(s.addr, s.name, Active, now) }

  function Greeted(event: Event, now: nat): Slot
    requires event.control.Hello?
  {
    Slot(event.from, event.control.name, Pending(None, now, 1), now)
  }

  // ---------------------------------------------------------------- the slots after a packet

  lemma OnlyOneSlot(c: Loop, from: Addr, k: nat)
    requires Distinct(c.host.slots) && At(c.host.slots, k, from)
    ensures Position(c.host.slots, from) == Some(k)
  {
  }

  /** Marking the sender's slot, before the packet itself is looked at. */
  lemma MarkingSlot(c: Loop, from: Addr, now: nat, j: nat)
    requires Distinct(c.host.slots) && j < W.MAX_CLIENTS
    ensures var known := Position(c.host.slots, from);
            var c1 := if known.Some? then Handle(c, HeardFrom(known.value + 1, now)) else c;
            && Distinct(c1.host.slots)
            && c1.host.slots[j] == if At(c.host.slots, j, from) then Some(Refreshed(c.host.slots[j].value, now)) else c.host.slots[j]
  {
    var known := Position(c.host.slots, from);
    if known.Some? {
      HandleKeepsDistinct(c, HeardFrom(known.value + 1, now));
      HeardSlot(c, known.value + 1, now, j);
    }
    if At(c.host.slots, j, from) { OnlyOneSlot(c, from, j); }
  }

  /** A control packet from a client refreshes that client's slot and activates it, and touches no other - unless
      it is a HELLO, which may start the slot over, or the session's goodbye. */
  lemma PacketRefreshesSender(c: Loop, event: Event, now: nat, k: nat)
    requires Distinct(c.host.slots) && At(c.host.slots, k, event.from)
    requires !event.control.Hello? && !(event.control.Bye? && event.session == c.host.session)
    ensures var slots' := AfterEvent(c, Some(event), now).host.slots;
            && slots'[k] == Some(Slot(event.from, c.host.slots[k].value.name, Active, now))
            && forall j | 0 <= j < W.MAX_CLIENTS && j != k :: slots'[j] == c.host.slots[j]
  {
    OnlyOneSlot(c, event.from, k);
    var c1 := Handle(c, HeardFrom(k + 1, now));
    SilentHandle(c, HeardFrom(k + 1, now));
    forall j | 0 <= j < W.MAX_CLIENTS
      ensures AfterEvent(c, Some(event), now).host.slots[j] == if j == k then Some(Refreshed(c.host.slots[k].value, now)) else c.host.slots[j]
    {
      MarkingSlot(c, event.from, now, j);
      if j != k { assert !At(c.host.slots, j, event.from); }
      if event.control.Ack? { AckSlot(c1, event.from, event.control.ackedSeq, now, j); }
    }
  }

  lemma AckSlot(c: Loop, from: Addr, s: u16, now: nat, j: nat)
    requires j < W.MAX_CLIENTS
    ensures Handle(c, AckFrom(from, s, now)).host.slots[j] == Acked(c.host.slots[j], from, s, now)
  {
    SilentHandle(c, AckFrom(from, s, now));
  }

  /** A stranger's packet that is no HELLO changes no slot. */
  lemma StrangersTouchNothing(c: Loop, event: Event, now: nat, j: nat)
    requires Distinct(c.host.slots) && Position(c.host.slots, event.from).None? && !event.control.Hello? && j < W.MAX_CLIENTS
    ensures AfterEvent(c, Some(event), now).host.slots[j] == c.host.slots[j]
  {
    match event.control
    case Ack(s, _) =>
      AckSlot(c, event.from, s, now, j);
      assert !At(c.host.slots, j, event.from);
    case Bye =>
      if event.session == c.host.session { ByeOfStranger(c, event.from, j); }
    case _ =>
  }

  lemma ByeOfStranger(c: Loop, from: Addr, j: nat)
    requires Position(c.host.slots, from).None? && j < W.MAX_CLIENTS
    ensures Handle(c, ByeFrom(from)).host.slots[j] == c.host.slots[j]
  {
    var slots' := Cleared(c.host, from).slots;
    assert forall i: nat | i < W.MAX_CLIENTS :: !At(c.host.slots, i, from);
    assert slots' == c.host.slots;
    assert forall i | 0 <= i < W.MAX_CLIENTS :: Departing(c.host.slots, from)[i].None?;
    LeftsNonEmptyIff(Departing(c.host.slots, from), W.MAX_CLIENTS);
    assert Lefts(Departing(c.host.slots, from), W.MAX_CLIENTS) == [];
    assert Departures(Cleared(c.host, from), Departing(c.host.slots, from), []) == [] + [] + [] == [];
    SilentHandle(c, ByeFrom(from));
  }

  /** What becomes of every slot, up to the number stamped on its WELCOME. */
  function SlotAfter(c: Loop, event: Option<Event>, now: nat, k: nat): Option<Slot>
    requires k < W.MAX_CLIENTS
  {
    if Accepted(c, event, k) then Some(Greeted(event.value, now))
    else if Leaves(c, event, k) then None
    else if FromSlot(c, event, k) then Some(Refreshed(c.host.slots[k].value, now))
    else c.host.slots[k]
  }

  lemma HelloSlotAfter(c: Loop, event: Event, now: nat, k: nat)
    requires Distinct(c.host.slots) && k < W.MAX_CLIENTS && event.control.Hello?
    ensures Alike(SlotAfter(c, Some(event), now, k), AfterEvent(c, Some(event), now).host.slots[k])
  {
    var from, hello, known := event.from, event.control, Position(c.host.slots, event.from);
    var c1 := if known.Some? then Handle(c, HeardFrom(known.value + 1, now)) else c;
    MarkingSlot(c, from, now, k);
    if known.Some? { HeardKeepsAccepted(c, known.value + 1, now, Some(event), k); SilentHandle(c, HeardFrom(known.value + 1, now)); }
    HandleSlot(c1, HelloFrom(from, hello, now), k);
    HelloStep(c1, event, now, k);
  }

  lemma HelloStep(c: Loop, event: Event, now: nat, k: nat)
    requires Distinct(c.host.slots) && k < W.MAX_CLIENTS && event.control.Hello?
    ensures Step(c.host, HelloFrom(event.from, event.control, now)).0.slots[k]
         == if Accepted(c, Some(event), k) then Some(Greeted(event, now)) else c.host.slots[k]
  {
  }

  lemma ByeSlotAfter(c: Loop, event: Event, now: nat, k: nat)
    requires Distinct(c.host.slots) && k < W.MAX_CLIENTS && event.control.Bye? && event.session == c.host.session
    ensures Alike(SlotAfter(c, Some(event), now, k), AfterEvent(c, Some(event), now).host.slots[k])
  {
    var from, known := event.from, Position(c.host.slots, event.from);
    var c1 := if known.Some? then Handle(c, HeardFrom(known.value + 1, now)) else c;
    MarkingSlot(c, from, now, k);
    if known.Some? { SilentHandle(c, HeardFrom(known.value + 1, now)); }
    ByeSlot(c1, from, k);
  }

  lemma ByeSlot(c: Loop, from: Addr, k: nat)
    requires k < W.MAX_CLIENTS
    ensures Alike(if At(c.host.slots, k, from) then None else c.host.slots[k], Handle(c, ByeFrom(from)).host.slots[k])
  {
    HandleSlot(c, ByeFrom(from), k);
  }

  lemma SlotIsAfter(c: Loop, event: Option<Event>, now: nat, k: nat)
    requires Distinct(c.host.slots) && k < W.MAX_CLIENTS
    ensures Alike(SlotAfter(c, event, now, k), AfterEvent(c, event, now).host.slots[k])
  {
    if event.Some? {
      var e := event.value;
      if e.control.Hello? {
        HelloSlotAfter(c, e, now, k);
      } else if e.control.Bye? && e.session == c.host.session {
        ByeSlotAfter(c, e, now, k);
      } else if Position(c.host.slots, e.from).Some? {
        PacketRefreshesSender(c, e, now, Position(c.host.slots, e.from).value);
        if FromSlot(c, event, k) { OnlyOneSlot(c, e.from, k); }
      } else {
        StrangersTouchNothing(c, e, now, k);
        assert !FromSlot(c, event, k);
      }
    }
  }

  // ---------------------------------------------------------------- the arrival the feed meets

  /** The arrival last noted for a slot: in this turn or before, but not before its client joined. */
  function Arrival(c: Loop, i: TurnInput, k: nat): nat
    requires i.Valid() && k < W.MAX_CLIENTS
  {
    if i.noted[k].Some? then i.noted[k].value
    else if c.host.slots[k].None? && Accepted(c, i.event, k) then 0 else c.streams[k].lastRx
  }

  lemma HelloArrival(c: Loop, event: Event, now: nat, k: nat)
    requires Distinct(c.host.slots) && k < W.MAX_CLIENTS && event.control.Hello?
    ensures Handle(c, HelloFrom(event.from, event.control, now)).streams[k].lastRx
         == if c.host.slots[k].None? && Accepted(c, Some(event), k) then 0 else c.streams[k].lastRx
  {
    var e := HelloFrom(event.from, event.control, now);
    var (h', out) := Step(c.host, e);
    HelloStep(c, event, now, k);
    PresenceFollowsSlots(c.host, e, k);
    ReportAlternates(Select(out, PresenceOf(k + 1)), k, c.host.slots, h'.slots);
    StepFits(c.host, e);
    ExecuteEffect(c.(host := h', log := c.log + out), out, EMPTY_TABLE, EMPTY_TABLE, k);
  }

  lemma ArrivalIs(c: Loop, i: TurnInput, k: nat)
    requires Distinct(c.host.slots) && i.Valid() && k < W.MAX_CLIENTS
    ensures Met(c, i).streams[k].lastRx == Arrival(c, i, k)
  {
    if i.event.Some? && i.event.value.control.Hello? {
      var e, known := i.event.value, Position(c.host.slots, i.event.value.from);
      var c1 := if known.Some? then Handle(c, HeardFrom(known.value + 1, i.now)) else c;
      MarkingSlot(c, e.from, i.now, k);
      if known.Some? { HeardKeepsAccepted(c, known.value + 1, i.now, i.event, k); SilentHandle(c, HeardFrom(known.value + 1, i.now)); }
      HelloArrival(c1, e, i.now, k);
    } else {
      EventKeepsArrival(c, i.event, i.now, k);
    }
  }

  // ---------------------------------------------------------------- what follows for a turn

  /** Still waiting for an answer when the turn's tick comes, as it was before the turn. */
  predicate StillWaiting(c: Loop, i: TurnInput, k: nat)
    requires k < W.MAX_CLIENTS
  {
    IsPending(c.host.slots[k]) && !Accepted(c, i.event, k) && !FromSlot(c, i.event, k)
  }

  /** Retransmission goes on exactly so: at the end of a turn a slot is pending if and only if no arrival has been
      noted since its client joined, and either a HELLO was accepted into it in this turn, or it was pending
      before, no packet came from its address, it has been silent for no more than five seconds, and ten tries
      have not failed. */
  lemma StaysPendingIff(c: Loop, i: TurnInput, k: nat)
    requires Distinct(c.host.slots) && i.Valid() && k < W.MAX_CLIENTS
    ensures IsPending(Turn(c, i).host.slots[k]) <==>
              && Arrival(c, i, k) == 0
              && (|| Accepted(c, i.event, k)
                  || (&& StillWaiting(c, i, k)
                      && var s := c.host.slots[k].value;
                         i.now <= s.lastHeard + 5000 && !(s.state.tries >= 10 && i.now >= s.state.lastTx + 100)))
  {
    SlotIsAfter(c, i.event, i.now, k);
    ArrivalIs(c, i, k);
    PendingPastFeedIff(c, i, k);
  }

  /** An accepted HELLO is answered with one WELCOME, and no other packet with any. */
  lemma GreetingIff(c: Loop, event: Option<Event>, now: nat, k: nat)
    requires Distinct(c.host.slots) && k < W.MAX_CLIENTS
    ensures |WelcomeLog(AfterEvent(c, event, now), k)| == |WelcomeLog(c, k)| + if Accepted(c, event, k) then 1 else 0
  {
    if event.Some? && event.value.control.Hello? {
      var from, hello, known := event.value.from, event.value.control, Position(c.host.slots, event.value.from);
      var c1 := if known.Some? then Handle(c, HeardFrom(known.value + 1, now)) else c;
      MarkingSlot(c, from, now, k);
      if known.Some? { HeardKeepsAccepted(c, known.value + 1, now, event, k); SilentHandle(c, HeardFrom(known.value + 1, now)); }
      HelloGreets(c1, event.value, now, k);
    } else {
      OtherPacketsGreetNobody(c, event, now, k);
    }
  }

  lemma HelloGreets(c: Loop, event: Event, now: nat, k: nat)
    requires Distinct(c.host.slots) && k < W.MAX_CLIENTS && event.control.Hello?
    ensures |WelcomeLog(Handle(c, HelloFrom(event.from, event.control, now)), k)|
         == |WelcomeLog(c, k)| + if Accepted(c, Some(event), k) then 1 else 0
  {
    var e := HelloFrom(event.from, event.control, now);
    HandleSlot(c, e, k);
    SelectConcat(c.log, Step(c.host, e).1, WelcomeOf(k + 1));
    HelloSelects(c.host, e, k);
  }

  lemma HelloSelects(h: Host, e: Input, k: nat)
    requires Distinct(h.slots) && k < W.MAX_CLIENTS && e.HelloFrom? && e.hello.Hello?
    ensures |Select(Step(h, e).1, WelcomeOf(k + 1))|
         == if Admissible(h, e.hello) && (if Position(h.slots, e.addr).Some? then Position(h.slots, e.addr) == Some(k) else FreeSlot(h.slots) == Some(k))
            then 1 else 0
  {
    var h' := Step(h, e).0;
    var known, free := Position(h.slots, e.addr), FreeSlot(h.slots);
    if !Admissible(h, e.hello) || (known.None? && free.None?) {
      SelectOne(Step(h, e).1[0], WelcomeOf(k + 1));
    } else if known.Some? {
      SelectOne(Send(e.addr, WelcomeFor(h', known.value)), WelcomeOf(k + 1));
    } else {
      StepKeepsDistinct(h, e);
      WelcomingSelects(h', e.addr, free.value, e.hello.name, WelcomeOf(k + 1));
    }
  }

  /** How many WELCOMEs of a slot a turn sends: one for a HELLO accepted into it; one more try if it is still
      waiting, has heard nothing, and its last try is 100 ms old; and never any other. */
  lemma TurnWelcomes(c: Loop, i: TurnInput, k: nat)
    requires Distinct(c.host.slots) && i.Valid() && k < W.MAX_CLIENTS
    ensures |WelcomeLog(Turn(c, i), k)| == |WelcomeLog(c, k)|
              + (if Accepted(c, i.event, k) then 1 else 0)
              + if Arrival(c, i, k) == 0 && StillWaiting(c, i, k)
                   && (var s := c.host.slots[k].value;
                       i.now <= s.lastHeard + 5000 && s.state.tries < 10 && i.now >= s.state.lastTx + 100)
                then 1 else 0
  {
    SlotIsAfter(c, i.event, i.now, k);
    ArrivalIs(c, i, k);
    GreetingIff(c, i.event, i.now, k);
    TurnRepeatsIff(c, i, k);
  }

  /** When a turn frees a slot: on the session's goodbye from its address; when the last arrival noted is more
      than five seconds old; and, if none is noted and no packet came from it, when it has been silent for more
      than five seconds or the tenth try has failed. */
  lemma TurnFreesIff(c: Loop, i: TurnInput, k: nat)
    requires Distinct(c.host.slots) && i.Valid() && k < W.MAX_CLIENTS && c.host.slots[k].Some?
    ensures Turn(c, i).host.slots[k].None? <==>
              || Leaves(c, i.event, k)
              || (Arrival(c, i, k) > 0 && i.now > Arrival(c, i, k) / 1000 + 5000)
              || (&& Arrival(c, i, k) == 0 && !Accepted(c, i.event, k) && !FromSlot(c, i.event, k)
                  && var s := c.host.slots[k].value;
                     i.now > s.lastHeard + 5000 || (s.state.Pending? && s.state.tries >= 10 && i.now >= s.state.lastTx + 100))
  {
    SlotIsAfter(c, i.event, i.now, k);
    ArrivalIs(c, i, k);
    TurnSlot(c, i, k);
  }
}
