/** Retransmission and liveness on the host's handshake: how often a WELCOME is repeated, when a slot is
    given up, and when a live one is kept. Every statement is about whole runs. */
module Retries {
  import opened Common
  import opened Handshake
  import opened Membership
  import W = Wire

  /** Consecutive sends are a retry interval apart. */
  predicate Spaced(times: seq<nat>) { forall k | 0 < k < |times| :: times[k - 1] + CONTROL_RETRY_MS <= times[k] }

  function TimeOf(e: Input): nat {
    match e
    case HelloFrom(_, _, now) => now case AckFrom(_, _, now) => now case HeardFrom(_, now) => now
    case ClockAt(now) => now case _ => 0
  }

  /** What an input that is not a HELLO makes of a slot. */
  function SlotStep(slot: Option<Slot>, e: Input, i: nat): Option<Slot> {
    match e
    case HelloFrom(_, _, _) => slot
    case WelcomeStamped(to, s) => Stamped(slot, to, s)
    case AckFrom(addr, s, now) => Acked(slot, addr, s, now)
    case HeardFrom(sender, now) =>
      if sender == i + 1 && slot.Some? then Some(slot.value.(lastHeard := now, state := Active)) else slot
    case ByeFrom(addr) => if slot.Some? && slot.value.addr == addr then None else slot
    case ClockAt(now) => AfterTick(slot, now)
  }

  /** How a slot may look after an input: a HELLO leaves it alone or fills it afresh, if it was empty or is its
      sender's own; everything else acts on it alone. */
  predicate Evolves(slot: Option<Slot>, e: Input, i: nat, slot': Option<Slot>) {
    if e.HelloFrom? then
      || slot' == slot
      || (&& e.hello.Hello? && (slot.None? || slot.value.addr == e.addr)
          && slot' == Some(Slot(e.addr, e.hello.name, Pending(None, e.now, 1), e.now)))
    else slot' == SlotStep(slot, e, i)
  }

  lemma SlotEvolves(h: Host, e: Input, i: nat)
    requires i < W.MAX_CLIENTS
    ensures Evolves(h.slots[i], e, i, Step(h, e).0.slots[i])
  {
    match e
    case HelloFrom(addr, hello, now) => HelloEvolves(h, e, i);
    case ByeFrom(addr) => assert Step(h, e).0.slots[i] == if At(h.slots, i, addr) then None else h.slots[i];
    case _ =>
  }

  lemma HelloEvolves(h: Host, e: Input, i: nat)
    requires i < W.MAX_CLIENTS && e.HelloFrom?
    ensures Evolves(h.slots[i], e, i, Step(h, e).0.slots[i])
  {
    var known, free := Position(h.slots, e.addr), FreeSlot(h.slots);
  }

  /** The times at which WELCOMEs of slot `i` were sent since its last HELLO. */
  function Episode(h: Host, e: Input, i: nat, soFar: seq<nat>): seq<nat>
    requires i < W.MAX_CLIENTS
  {
    var sent := Select(Step(h, e).1, WelcomeOf(i + 1));
    (if e.HelloFrom? && sent != [] then [] else soFar) + seq(|sent|, _ => TimeOf(e))
  }

  function EpisodeAfter(h: Host, es: seq<Input>, i: nat, soFar: seq<nat>): seq<nat>
    requires i < W.MAX_CLIENTS
    decreases es
  {
    if es == [] then soFar else EpisodeAfter(Step(h, es[0]).0, es[1..], i, Episode(h, es[0], i, soFar))
  }

  /** What the slot remembers of its episode. */
  ghost predicate Counts(slot: Option<Slot>, episode: seq<nat>) {
    && |episode| <= CONTROL_MAX_TRIES && Spaced(episode)
    && (slot.Some? && slot.value.state.Pending? ==>
          |episode| == slot.value.state.tries > 0 && episode[|episode| - 1] == slot.value.state.lastTx)
  }

  lemma HelloCounts(h: Host, e: Input, i: nat, episode: seq<nat>)
    requires Distinct(h.slots) && i < W.MAX_CLIENTS && e.HelloFrom? && Counts(h.slots[i], episode)
    ensures Counts(Step(h, e).0.slots[i], Episode(h, e, i, episode))
  {
    if !Admissible(h, e.hello) || (Position(h.slots, e.addr).None? && FreeSlot(h.slots).None?) {
      RefusalCounts(h, e, i, episode);
    } else {
      HelloWelcomes(h, e, i);
      var sent := Select(Step(h, e).1, WelcomeOf(i + 1));
      if sent == [] {
        assert Episode(h, e, i, episode) == episode;
      } else {
        assert Episode(h, e, i, episode) == [e.now];
      }
    }
  }

  lemma RefusalCounts(h: Host, e: Input, i: nat, episode: seq<nat>)
    requires i < W.MAX_CLIENTS && e.HelloFrom? && Counts(h.slots[i], episode)
    requires !Admissible(h, e.hello) || (Position(h.slots, e.addr).None? && FreeSlot(h.slots).None?)
    ensures Counts(Step(h, e).0.slots[i], Episode(h, e, i, episode))
  {
    if e.hello.Hello? { SelectOne(Step(h, e).1[0], WelcomeOf(i + 1)); }
    assert Episode(h, e, i, episode) == episode;
  }

  /** An accepted HELLO sends the one WELCOME of the slot it fills, which then counts one try. */
  lemma HelloWelcomes(h: Host, e: Input, i: nat)
    requires Distinct(h.slots) && i < W.MAX_CLIENTS && e.HelloFrom? && Admissible(h, e.hello)
    requires Position(h.slots, e.addr).Some? || FreeSlot(h.slots).Some?
    ensures var sent, slot := Select(Step(h, e).1, WelcomeOf(i + 1)), Step(h, e).0.slots[i];
            && |sent| <= 1
            && if sent == [] then slot == h.slots[i] else slot == Some(Slot(e.addr, e.hello.name, Pending(None, e.now, 1), e.now))
  {
    var h' := Step(h, e).0;
    var known, free := Position(h.slots, e.addr), FreeSlot(h.slots);
    if known.Some? {
      SelectOne(Send(e.addr, WelcomeFor(h', known.value)), WelcomeOf(i + 1));
    } else {
      StepKeepsDistinct(h, e);
      WelcomingSelects(h', e.addr, free.value, e.hello.name, WelcomeOf(i + 1));
    }
  }

  lemma DeparturesWelcomes(h': Host, reasons: Reasons, welcomes: seq<Action>, id: nat)
    requires Distinct(h'.slots)
    ensures Select(Departures(h', reasons, welcomes), WelcomeOf(id)) == Select(welcomes, WelcomeOf(id))
  {
    DeparturesSelect(h', reasons, welcomes, WelcomeOf(id));
    LeftsSelect(reasons, W.MAX_CLIENTS, WelcomeOf(id));
    BroadcastSelects(h'.slots, RosterOf(h'), None, WelcomeOf(id));
  }

  lemma TickWelcomes(h: Host, now: nat, i: nat)
    requires Distinct(h.slots) && i < W.MAX_CLIENTS
    ensures Select(Tick(h, now).1, WelcomeOf(i + 1))
         == DueWelcome(Ticked(h, now), h.slots, now, W.MAX_CLIENTS, WelcomeOf(i + 1), RosterOf(Ticked(h, now)))
  {
    var h' := Ticked(h, now);
    StepKeepsDistinct(h, ClockAt(now));
    DeparturesWelcomes(h', Overdue(h.slots, now), Repeats(h', h.slots, now, W.MAX_CLIENTS, RosterOf(h')), i + 1);
    RepeatsSelect(h', h.slots, now, W.MAX_CLIENTS, WelcomeOf(i + 1), RosterOf(h'));
  }

  lemma TickCounts(h: Host, e: Input, i: nat, episode: seq<nat>)
    requires Distinct(h.slots) && i < W.MAX_CLIENTS && e.ClockAt? && Counts(h.slots[i], episode)
    ensures Counts(Step(h, e).0.slots[i], Episode(h, e, i, episode))
  {
    TickWelcomes(h, e.now, i);
    SlotEvolves(h, e, i);
    var sent := Select(Step(h, e).1, WelcomeOf(i + 1));
    assert |sent| == if Resends(h.slots, e.now, i) then 1 else 0;
    TickSlotCounts(h.slots[i], e.now, episode);
    assert Episode(h, e, i, episode) == episode + if Resends(h.slots, e.now, i) then [e.now] else [];
  }

  lemma TickSlotCounts(slot: Option<Slot>, now: nat, episode: seq<nat>)
    requires Counts(slot, episode)
    ensures Counts(AfterTick(slot, now), episode + if slot.Some? && Judge(slot.value, now).Resend? then [now] else [])
  {
  }

  lemma ByeCounts(h: Host, e: Input, i: nat, episode: seq<nat>)
    requires Distinct(h.slots) && i < W.MAX_CLIENTS && e.ByeFrom? && Counts(h.slots[i], episode)
    ensures Counts(Step(h, e).0.slots[i], Episode(h, e, i, episode))
  {
    StepKeepsDistinct(h, e);
    DeparturesWelcomes(Step(h, e).0, Departing(h.slots, e.addr), [], i + 1);
    assert Episode(h, e, i, episode) == episode;
  }

  lemma StepCounts(h: Host, e: Input, i: nat, episode: seq<nat>)
    requires Distinct(h.slots) && i < W.MAX_CLIENTS && Counts(h.slots[i], episode)
    ensures Counts(Step(h, e).0.slots[i], Episode(h, e, i, episode))
  {
    match e
    case HelloFrom(_, _, _) => HelloCounts(h, e, i, episode);
    case ClockAt(_) => TickCounts(h, e, i, episode);
    case ByeFrom(_) => ByeCounts(h, e, i, episode);
    case _ => assert Episode(h, e, i, episode) == episode;
  }

  lemma {:induction false} RunCounts(h: Host, es: seq<Input>, i: nat, episode: seq<nat>)
    requires Distinct(h.slots) && i < W.MAX_CLIENTS && Counts(h.slots[i], episode)
    ensures Counts(Run(h, es).0.slots[i], EpisodeAfter(h, es, i, episode))
    decreases es
  {
    if es != [] {
      StepCounts(h, es[0], i, episode);
      StepKeepsDistinct(h, es[0]);
      RunCounts(Step(h, es[0]).0, es[1..], i, Episode(h, es[0], i, episode));
    }
  }

  /** In every run of a new host, every episode of every slot has at most ten WELCOMEs, each at least a
      retry interval after the one before, whatever the clock does. */
  lemma WelcomesAreBounded(h: Host, es: seq<Input>, i: nat)
    requires h.slots == NO_SLOTS && i < W.MAX_CLIENTS
    ensures |EpisodeAfter(h, es, i, [])| <= CONTROL_MAX_TRIES && Spaced(EpisodeAfter(h, es, i, []))
  {
    RunCounts(h, es, i, []);
  }

  // ---------------------------------------------------------------- giving up on a silent client

  /** Nothing is heard from the client in slot `i`, whose address is `addr`. */
  predicate SilentStep(e: Input, i: nat, addr: Addr) {
    match e
    case HelloFrom(a, _, _) => a != addr
    case AckFrom(a, _, _) => a != addr
    case HeardFrom(sender, _) => sender != i + 1
    case _ => true
  }

  predicate Silent(es: seq<Input>, i: nat, addr: Addr) { forall e | e in es :: SilentStep(e, i, addr) }

  /** How many ticks come a retry interval or more after the last counted one. */
  function SpacedTicks(last: nat, es: seq<Input>): nat
    decreases es
  {
    if es == [] then 0
    else if es[0].ClockAt? && last + CONTROL_RETRY_MS <= es[0].now then 1 + SpacedTicks(es[0].now, es[1..])
    else SpacedTicks(last, es[1..])
  }

  predicate FreedWithin(h: Host, es: seq<Input>, i: nat)
    requires i < W.MAX_CLIENTS
    decreases es
  {
    h.slots[i].None? || (es != [] && FreedWithin(Step(h, es[0]).0, es[1..], i))
  }

  predicate PendingSince(h: Host, i: nat, addr: Addr, lastTx: nat, tries: nat) {
    && i < W.MAX_CLIENTS && At(h.slots, i, addr)
    && h.slots[i].value.state.Pending? && h.slots[i].value.state.lastTx == lastTx && h.slots[i].value.state.tries == tries
  }

  lemma SilentStepKeepsPending(h: Host, e: Input, i: nat, addr: Addr, lastTx: nat, tries: nat)
    requires PendingSince(h, i, addr, lastTx, tries) && SilentStep(e, i, addr)
    ensures var h' := Step(h, e).0;
            || h'.slots[i].None?
            || (if e.ClockAt? && lastTx + CONTROL_RETRY_MS <= e.now
                then tries < CONTROL_MAX_TRIES && PendingSince(h', i, addr, e.now, tries + 1)
                else PendingSince(h', i, addr, lastTx, tries))
  {
    SlotEvolves(h, e, i);
    SilentSlot(h.slots[i], Step(h, e).0.slots[i], e, i, addr, lastTx, tries);
  }

  predicate PendingSlot(slot: Option<Slot>, addr: Addr, lastTx: nat, tries: nat) {
    slot.Some? && slot.value.addr == addr && slot.value.state.Pending? && slot.value.state.lastTx == lastTx && slot.value.state.tries == tries
  }

  lemma SilentSlot(slot: Option<Slot>, slot': Option<Slot>, e: Input, i: nat, addr: Addr, lastTx: nat, tries: nat)
    requires PendingSlot(slot, addr, lastTx, tries) && Evolves(slot, e, i, slot') && SilentStep(e, i, addr)
    ensures || slot'.None?
            || (if e.ClockAt? && lastTx + CONTROL_RETRY_MS <= e.now
                then tries < CONTROL_MAX_TRIES && PendingSlot(slot', addr, e.now, tries + 1)
                else PendingSlot(slot', addr, lastTx, tries))
  {
  }

  /** A slot whose client stays silent is freed by the time `11 - tries` spaced ticks have come: by the
      tenth for one that has just been greeted. */
  lemma {:induction false} SilentSlotIsFreed(h: Host, es: seq<Input>, i: nat, addr: Addr, lastTx: nat, tries: nat)
    requires PendingSince(h, i, addr, lastTx, tries) && tries <= CONTROL_MAX_TRIES && Silent(es, i, addr)
    requires SpacedTicks(lastTx, es) + tries > CONTROL_MAX_TRIES
    ensures FreedWithin(h, es, i)
    decreases es
  {
    SilentStepKeepsPending(h, es[0], i, addr, lastTx, tries);
    var h' := Step(h, es[0]).0;
    if h'.slots[i].Some? {
      var (last', tries') := if es[0].ClockAt? && lastTx + CONTROL_RETRY_MS <= es[0].now then (es[0].now, tries + 1) else (lastTx, tries);
      SilentSlotIsFreed(h', es[1..], i, addr, last', tries');
    }
  }

  /** The bound seen from the HELLO: a client greeted for the first time, or greeted again, and never heard
      from after it, is dropped by the tenth tick spaced a retry interval apart. */
  lemma UnansweredGreetingIsDropped(h: Host, addr: Addr, hello: W.Control, now: nat, es: seq<Input>, i: nat)
    requires Distinct(h.slots) && Admissible(h, hello) && At(Step(h, HelloFrom(addr, hello, now)).0.slots, i, addr)
    requires Silent(es, i, addr) && SpacedTicks(now, es) >= CONTROL_MAX_TRIES
    ensures FreedWithin(Step(h, HelloFrom(addr, hello, now)).0, es, i)
  {
    var known, free := Position(h.slots, addr), FreeSlot(h.slots);
    StepKeepsDistinct(h, HelloFrom(addr, hello, now));
    assert known.Some? ==> At(Step(h, HelloFrom(addr, hello, now)).0.slots, known.value, addr);
    SilentSlotIsFreed(Step(h, HelloFrom(addr, hello, now)).0, es, i, addr, now, 1);
  }

  // ---------------------------------------------------------------- keeping a live client

  /** When a slot is freed: on a BYE from its address, or by a tick that comes more than five seconds after
      it was last heard, or - while its WELCOME is unacknowledged - by a tick an interval after the tenth try. */
  lemma SlotIsFreedIff(h: Host, e: Input, i: nat)
    requires i < W.MAX_CLIENTS && h.slots[i].Some?
    ensures var s := h.slots[i].value;
            Step(h, e).0.slots[i].None? <==>
              || e == ByeFrom(s.addr)
              || (e.ClockAt? && e.now > s.lastHeard + PEER_TIMEOUT_MS)
              || (e.ClockAt? && s.state.Pending? && s.state.tries >= CONTROL_MAX_TRIES && e.now >= s.state.lastTx + CONTROL_RETRY_MS)
  {
    SlotEvolves(h, e, i);
    FreedIff(h.slots[i].value, Step(h, e).0.slots[i], e, i);
  }

  lemma FreedIff(s: Slot, slot': Option<Slot>, e: Input, i: nat)
    requires Evolves(Some(s), e, i, slot')
    ensures slot'.None? <==>
              || e == ByeFrom(s.addr)
              || (e.ClockAt? && e.now > s.lastHeard + PEER_TIMEOUT_MS)
              || (e.ClockAt? && s.state.Pending? && s.state.tries >= CONTROL_MAX_TRIES && e.now >= s.state.lastTx + CONTROL_RETRY_MS)
  {
  }

  /** When a pending slot becomes active: on the acknowledgement of the WELCOME last stamped for it, or on
      any packet of its sender, and in no other way. */
  lemma SlotIsActivatedIff(h: Host, e: Input, i: nat)
    requires i < W.MAX_CLIENTS && h.slots[i].Some? && h.slots[i].value.state.Pending?
    ensures var s := h.slots[i].value;
            (Step(h, e).0.slots[i].Some? && Step(h, e).0.slots[i].value.state.Active?) <==>
              || e == HeardFrom(i + 1, TimeOf(e))
              || (e.AckFrom? && e.addr == s.addr && s.state.welcomeSeq == Some(e.seqno))
  {
    SlotEvolves(h, e, i);
    ActivatedIff(h.slots[i].value, Step(h, e).0.slots[i], e, i);
  }

  lemma ActivatedIff(s: Slot, slot': Option<Slot>, e: Input, i: nat)
    requires i < W.MAX_CLIENTS && s.state.Pending? && Evolves(Some(s), e, i, slot')
    ensures (slot'.Some? && slot'.value.state.Active?) <==>
              || e == HeardFrom(i + 1, TimeOf(e))
              || (e.AckFrom? && e.addr == s.addr && s.state.welcomeSeq == Some(e.seqno))
  {
  }

  /** The inputs neither greet nor stamp nor hear the client in slot `i`; they may acknowledge. */
  predicate OnlyAcks(es: seq<Input>, i: nat, addr: Addr) {
    forall e | e in es :: !Greets(e, addr) && !(e.WelcomeStamped? && e.to == addr) && !(e.HeardFrom? && e.sender == i + 1)
  }

  predicate StampedWith(h: Host, i: nat, addr: Addr, stamp: Option<u16>) {
    i < W.MAX_CLIENTS && (h.slots[i].Some? && h.slots[i].value.addr == addr ==>
      h.slots[i].value.state.Pending? && h.slots[i].value.state.welcomeSeq == stamp)
  }

  lemma StaleAckStep(h: Host, e: Input, i: nat, addr: Addr, stamp: Option<u16>)
    requires StampedWith(h, i, addr, stamp) && OnlyAcks([e], i, addr)
    requires e.AckFrom? && e.addr == addr ==> stamp != Some(e.seqno)
    ensures StampedWith(Step(h, e).0, i, addr, stamp)
  {
    assert e in [e];
    SlotEvolves(h, e, i);
    StaleAckSlot(h.slots[i], Step(h, e).0.slots[i], e, i, addr, stamp);
  }

  predicate SlotStampedWith(slot: Option<Slot>, addr: Addr, stamp: Option<u16>) {
    slot.Some? && slot.value.addr == addr ==> slot.value.state.Pending? && slot.value.state.welcomeSeq == stamp
  }

  lemma StaleAckSlot(slot: Option<Slot>, slot': Option<Slot>, e: Input, i: nat, addr: Addr, stamp: Option<u16>)
    requires SlotStampedWith(slot, addr, stamp) && Evolves(slot, e, i, slot')
    requires !Greets(e, addr) && !(e.WelcomeStamped? && e.to == addr) && !(e.HeardFrom? && e.sender == i + 1)
    requires e.AckFrom? && e.addr == addr ==> stamp != Some(e.seqno)
    ensures SlotStampedWith(slot', addr, stamp)
  {
  }

  /** Acknowledgements of any other WELCOME - an earlier one, say, from before the client started over - never
      activate the slot, however many arrive. */
  lemma {:induction false} StaleAcksNeverActivate(h: Host, es: seq<Input>, i: nat, addr: Addr, stamp: Option<u16>)
    requires StampedWith(h, i, addr, stamp) && OnlyAcks(es, i, addr)
    requires forall e | e in es && e.AckFrom? && e.addr == addr :: stamp != Some(e.seqno)
    ensures StampedWith(Run(h, es).0, i, addr, stamp)
    decreases es
  {
    if es != [] {
      StaleAckStep(h, es[0], i, addr, stamp);
      StaleAcksNeverActivate(Step(h, es[0]).0, es[1..], i, addr, stamp);
    }
  }

  /** Every acknowledgement, whatever its number, counts as having heard its sender; only that of the WELCOME last
      stamped settles it, and no slot of another address is touched. */
  lemma AcksAreHeard(h: Host, addr: Addr, number: u16, now: nat, i: nat)
    requires i < W.MAX_CLIENTS
    ensures var slot, slot' := h.slots[i], Step(h, AckFrom(addr, number, now)).0.slots[i];
            if !At(h.slots, i, addr) then slot' == slot
            else
              && slot'.Some? && slot'.value.addr == addr && slot'.value.name == slot.value.name && slot'.value.lastHeard == now
              && (slot.value.state.Pending? && slot.value.state.welcomeSeq != Some(number) ==> slot'.value.state == slot.value.state)
              && (slot.value.state.Pending? && slot.value.state.welcomeSeq == Some(number) ==> slot'.value.state.Active?)
              && (slot.value.state.Active? ==> slot'.value.state.Active?)
  {
  }

  /** When slot `i`, owned by `addr`, was last heard. */
  function HeardAt(last: nat, e: Input, i: nat, addr: Addr): nat {
    match e
    case AckFrom(a, _, now) => if a == addr then now else last
    case HeardFrom(sender, now) => if sender == i + 1 then now else last
    case _ => last
  }

  /** The client neither leaves nor starts over, and every tick finds it heard within five seconds. */
  predicate Attended(last: nat, es: seq<Input>, i: nat, addr: Addr)
    decreases es
  {
    es != [] ==>
      && es[0] != ByeFrom(addr) && !Greets(es[0], addr)
      && (es[0].ClockAt? ==> es[0].now <= last + PEER_TIMEOUT_MS)
      && Attended(HeardAt(last, es[0], i, addr), es[1..], i, addr)
  }

  predicate ActiveSince(h: Host, i: nat, addr: Addr, last: nat) {
    i < W.MAX_CLIENTS && At(h.slots, i, addr) && h.slots[i].value.state.Active? && h.slots[i].value.lastHeard == last
  }

  lemma AttendedStep(h: Host, e: Input, i: nat, addr: Addr, last: nat)
    requires ActiveSince(h, i, addr, last) && Attended(last, [e], i, addr)
    ensures ActiveSince(Step(h, e).0, i, addr, HeardAt(last, e, i, addr))
  {
    SlotEvolves(h, e, i);
    AttendedSlot(h.slots[i].value, Step(h, e).0.slots[i], e, i);
  }

  lemma AttendedSlot(s: Slot, slot': Option<Slot>, e: Input, i: nat)
    requires s.state.Active? && Evolves(Some(s), e, i, slot') && e != ByeFrom(s.addr) && !Greets(e, s.addr)
    requires e.ClockAt? ==> e.now <= s.lastHeard + PEER_TIMEOUT_MS
    ensures slot' == Some(s.(lastHeard := HeardAt(s.lastHeard, e, i, s.addr)))
  {
  }

  /** An active client that is heard at least every five seconds is never dropped: over any such run it
      keeps its slot. */
  lemma {:induction false} AttendedSlotIsKept(h: Host, es: seq<Input>, i: nat, addr: Addr, last: nat)
    requires ActiveSince(h, i, addr, last) && Attended(last, es, i, addr)
    ensures At(Run(h, es).0.slots, i, addr) && Run(h, es).0.slots[i].value.state.Active?
    decreases es
  {
    if es != [] {
      AttendedStep(h, es[0], i, addr, last);
      AttendedSlotIsKept(Step(h, es[0]).0, es[1..], i, addr, HeardAt(last, es[0], i, addr));
    }
  }
}
