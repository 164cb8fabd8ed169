/** What the host's handshake tells the session about who is in it, over every step and every run. */
module Membership {
  import opened Common
  import opened Utf8
  import opened Handshake
  import W = Wire

  datatype Input =
    | HelloFrom(addr: Addr, hello: W.Control, now: nat)
    | WelcomeStamped(to: Addr, seqno: u16)
    | AckFrom(addr: Addr, seqno: u16, now: nat)
    | HeardFrom(sender: u16, now: nat)
    | ByeFrom(addr: Addr)
    | ClockAt(now: nat)

  function Step(h: Host, e: Input): (Host, seq<Action>) {
    match e
    case HelloFrom(addr, hello, now) => OnHello(h, addr, hello, now)
    case WelcomeStamped(to, s) => (WelcomeSent(h, to, s), [])
    case AckFrom(addr, s, now) => (OnAck(h, addr, s, now), [])
    case HeardFrom(sender, now) => (MarkHeard(h, sender, now), [])
    case ByeFrom(addr) => OnBye(h, addr)
    case ClockAt(now) => Tick(h, now)
  }

  function Run(h: Host, es: seq<Input>): (Host, seq<Action>)
    decreases es
  {
    if es == [] then (h, [])
    else
      var (h1, out) := Step(h, es[0]);
      var (h2, outs) := Run(h1, es[1..]);
      (h2, out + outs)
  }

  /** Which address each slot belongs to. */
  function Addrs(slots: Slots): (r: seq<Option<Addr>>)
    ensures |r| == W.MAX_CLIENTS
  {
    seq(W.MAX_CLIENTS, i requires 0 <= i < W.MAX_CLIENTS => if slots[i].Some? then Some(slots[i].value.addr) else None)
  }

  ghost predicate Member(slots: Slots, a: Addr) { exists i: nat | i < W.MAX_CLIENTS :: At(slots, i, a) }

  /** No address holds two slots. */
  ghost predicate Distinct(slots: Slots) {
    forall i: nat, j: nat, a :: At(slots, i, a) && At(slots, j, a) ==> i == j
  }

  /** Freeing slots, or changing anything but the address of one, keeps addresses distinct. */
  lemma ShrinkKeepsDistinct(slots: Slots, slots': Slots)
    requires Distinct(slots)
    requires forall i | 0 <= i < W.MAX_CLIENTS && slots'[i].Some? :: slots[i].Some? && slots'[i].value.addr == slots[i].value.addr
    ensures Distinct(slots')
  {
    forall i: nat, j: nat, a | At(slots', i, a) && At(slots', j, a) ensures i == j {
      assert At(slots, i, a) && At(slots, j, a);
    }
  }

  lemma FillKeepsDistinct(slots: Slots, i: nat, s: Slot)
    requires Distinct(slots) && i < W.MAX_CLIENTS && forall j: nat | j != i :: !At(slots, j, s.addr)
    ensures Distinct(slots[i := Some(s)])
  {
    var slots': Slots := slots[i := Some(s)];
    forall j: nat, k: nat, a | At(slots', j, a) && At(slots', k, a) ensures j == k {
      if j != i { assert At(slots, j, a); }
      if k != i { assert At(slots, k, a); }
    }
  }

  lemma StepKeepsDistinct(h: Host, e: Input)
    requires Distinct(h.slots)
    ensures Distinct(Step(h, e).0.slots)
  {
    if e.HelloFrom? {
      HelloKeepsDistinct(h, e.addr, e.hello, e.now);
    } else {
      ShrinkKeepsDistinct(h.slots, Step(h, e).0.slots);
    }
  }

  lemma HelloKeepsDistinct(h: Host, addr: Addr, hello: W.Control, now: nat)
    requires Distinct(h.slots)
    ensures Distinct(OnHello(h, addr, hello, now).0.slots)
  {
    var known, free := Position(h.slots, addr), FreeSlot(h.slots);
    var s := Slot(addr, if hello.Hello? then hello.name else [], Pending(None, now, 1), now);
    if known.Some? {
      FillKeepsDistinct(h.slots, known.value, s);
    } else if free.Some? {
      FillKeepsDistinct(h.slots, free.value, s);
    }
  }

  lemma {:induction false} RunKeepsDistinct(h: Host, es: seq<Input>)
    requires Distinct(h.slots)
    ensures Distinct(Run(h, es).0.slots)
    decreases es
  {
    if es != [] {
      StepKeepsDistinct(h, es[0]);
      RunKeepsDistinct(Step(h, es[0]).0, es[1..]);
    }
  }

  // ---------------------------------------------------------------- picking actions out of a step

  datatype Kind = RosterTo(addr: Addr) | WelcomeOf(id: nat) | PresenceOf(id: nat)

  predicate Is(a: Action, k: Kind) {
    match k
    case RosterTo(addr) => a.Send? && a.to == addr && a.control.Roster?
    case WelcomeOf(id) => a.Send? && a.control.Welcome? && a.control.assignedId == id
    case PresenceOf(id) => (a.ClientJoined? || a.ClientLeft?) && a.senderId == id
  }

  function Pick(a: Action, k: Kind): seq<Action> { if Is(a, k) then [a] else [] }

  function Select(actions: seq<Action>, k: Kind): seq<Action> {
    if actions == [] then [] else Pick(actions[0], k) + Select(actions[1..], k)
  }

  lemma SelectCons(x: Action, rest: seq<Action>, k: Kind)
    ensures Select([x] + rest, k) == Pick(x, k) + Select(rest, k)
  {
    assert ([x] + rest)[1..] == rest;
  }

  lemma {:induction false} SelectConcat(a: seq<Action>, b: seq<Action>, k: Kind)
    ensures Select(a + b, k) == Select(a, k) + Select(b, k)
    decreases |a|
  {
    if a == [] {
      assert a + b == b;
    } else {
      var x, rest := a[0], a[1..];
      assert a == [x] + rest && a + b == [x] + (rest + b);
      SelectConcat(rest, b, k);
      SelectCons(x, rest, k);
      SelectCons(x, rest + b, k);
      Regroup(Pick(x, k), Select(rest, k), Select(b, k));
    }
  }

  lemma SelectOne(a: Action, k: Kind)
    ensures Select([a], k) == Pick(a, k)
  {
    assert [a][1..] == [];
    assert Pick(a, k) + [] == Pick(a, k);
  }

  /** Selecting from a list and one more action. */
  lemma SelectSnoc(actions: seq<Action>, a: Action, k: Kind)
    ensures Select(actions + [a], k) == Select(actions, k) + Pick(a, k)
  {
    SelectConcat(actions, [a], k);
    SelectOne(a, k);
  }

  lemma SelectNext(before: seq<Action>, all: seq<Action>, a: Action, k: Kind, picked: seq<Action>, picked': seq<Action>)
    requires all == before + [a] && Select(before, k) == picked && picked' == if Is(a, k) then picked + [a] else picked
    ensures Select(all, k) == picked'
  {
    SelectSnoc(before, a, k);
    assert picked + [] == picked;
  }

  /** The slot of an address, if it has one. */
  ghost predicate Seats(slots: Slots, a: Addr, seat: Option<nat>) {
    forall i: nat | i < W.MAX_CLIENTS :: At(slots, i, a) <==> seat == Some(i)
  }

  lemma SeatOf(slots: Slots, a: Addr) returns (seat: Option<nat>)
    requires Distinct(slots)
    ensures Seats(slots, a, seat) && (seat.Some? <==> Member(slots, a)) && (seat.Some? ==> seat.value < W.MAX_CLIENTS)
  {
    seat := Position(slots, a);
  }

  /** The ROSTER to an address among the first `n` slots. */
  function RosterFor(roster: seq<W.PlayerInfo>, except: Option<Addr>, n: nat, k: Kind, seat: Option<nat>): seq<Action> {
    if k.RosterTo? && seat.Some? && seat.value < n && except != Some(k.addr) then [Send(k.addr, W.Roster(roster))] else []
  }

  lemma {:induction false} BroadcastFor(slots: Slots, roster: seq<W.PlayerInfo>, except: Option<Addr>, n: nat, k: Kind, seat: Option<nat>)
    requires n <= W.MAX_CLIENTS && (k.RosterTo? ==> Seats(slots, k.addr, seat))
    ensures Select(Broadcast(slots, roster, except, n), k) == RosterFor(roster, except, n, k, seat)
  {
    if n > 0 {
      BroadcastFor(slots, roster, except, n - 1, k, seat);
      assert k.RosterTo? ==> (At(slots, n - 1, k.addr) <==> seat == Some(n - 1));
      BroadcastNext(slots, roster, except, n, k, seat);
    }
  }

  lemma BroadcastNext(slots: Slots, roster: seq<W.PlayerInfo>, except: Option<Addr>, n: nat, k: Kind, seat: Option<nat>)
    requires 0 < n <= W.MAX_CLIENTS && (k.RosterTo? ==> (At(slots, n - 1, k.addr) <==> seat == Some(n - 1)))
    requires Select(Broadcast(slots, roster, except, n - 1), k) == RosterFor(roster, except, n - 1, k, seat)
    ensures Select(Broadcast(slots, roster, except, n), k) == RosterFor(roster, except, n, k, seat)
  {
    var s := slots[n - 1];
    if s.Some? && Some(s.value.addr) != except {
      SelectNext(Broadcast(slots, roster, except, n - 1), Broadcast(slots, roster, except, n), Send(s.value.addr, W.Roster(roster)), k,
                 RosterFor(roster, except, n - 1, k, seat), RosterFor(roster, except, n, k, seat));
    }
  }

  lemma BroadcastSelects(slots: Slots, roster: seq<W.PlayerInfo>, except: Option<Addr>, k: Kind)
    requires Distinct(slots)
    ensures Select(Broadcast(slots, roster, except, W.MAX_CLIENTS), k)
         == if k.RosterTo? && Member(slots, k.addr) && except != Some(k.addr) then [Send(k.addr, W.Roster(roster))] else []
  {
    var seat: Option<nat> := None;
    if k.RosterTo? { seat := SeatOf(slots, k.addr); }
    BroadcastFor(slots, roster, except, W.MAX_CLIENTS, k, seat);
  }

  function LeftFor(reasons: Reasons, n: nat, k: Kind): seq<Action>
    requires n <= W.MAX_CLIENTS
  {
    if k.PresenceOf? && 1 <= k.id <= n && reasons[k.id - 1].Some? then [ClientLeft(k.id, reasons[k.id - 1].value)] else []
  }

  lemma {:induction false} LeftsSelect(reasons: Reasons, n: nat, k: Kind)
    requires n <= W.MAX_CLIENTS
    ensures Select(Lefts(reasons, n), k) == LeftFor(reasons, n, k)
  {
    if n > 0 {
      LeftsSelect(reasons, n - 1, k);
      LeftsNext(reasons, n, k);
    }
  }

  lemma LeftsNext(reasons: Reasons, n: nat, k: Kind)
    requires 0 < n <= W.MAX_CLIENTS && Select(Lefts(reasons, n - 1), k) == LeftFor(reasons, n - 1, k)
    ensures Select(Lefts(reasons, n), k) == LeftFor(reasons, n, k)
  {
    if reasons[n - 1].Some? {
      SelectNext(Lefts(reasons, n - 1), Lefts(reasons, n), ClientLeft(n, reasons[n - 1].value), k,
                 LeftFor(reasons, n - 1, k), LeftFor(reasons, n, k));
    }
  }

  lemma {:induction false} LeftsNonEmptyIff(reasons: Reasons, n: nat)
    requires n <= W.MAX_CLIENTS
    ensures Lefts(reasons, n) != [] <==> exists i | 0 <= i < n :: reasons[i].Some?
  {
    if n > 0 { LeftsNonEmptyIff(reasons, n - 1); }
  }

  /** The WELCOME due to a sender among the first `n` slots. */
  function DueWelcome(h: Host, slots: Slots, now: nat, n: nat, k: Kind, roster: seq<W.PlayerInfo>): seq<Action>
    requires n <= W.MAX_CLIENTS
  {
    if k.WelcomeOf? && 1 <= k.id <= n && Resends(slots, now, k.id - 1) && h.slots[k.id - 1].Some?
    then [RepeatOf(h, k.id - 1, roster)] else []
  }

  lemma {:induction false} RepeatsSelect(h: Host, slots: Slots, now: nat, n: nat, k: Kind, roster: seq<W.PlayerInfo>)
    requires n <= W.MAX_CLIENTS
    ensures Select(Repeats(h, slots, now, n, roster), k) == DueWelcome(h, slots, now, n, k, roster)
  {
    if n > 0 {
      RepeatsSelect(h, slots, now, n - 1, k, roster);
      RepeatsNext(h, slots, now, n, k, roster);
    }
  }

  lemma RepeatsNext(h: Host, slots: Slots, now: nat, n: nat, k: Kind, roster: seq<W.PlayerInfo>)
    requires 0 < n <= W.MAX_CLIENTS
    requires Select(Repeats(h, slots, now, n - 1, roster), k) == DueWelcome(h, slots, now, n - 1, k, roster)
    ensures Select(Repeats(h, slots, now, n, roster), k) == DueWelcome(h, slots, now, n, k, roster)
  {
    if Resends(slots, now, n - 1) && h.slots[n - 1].Some? {
      SelectNext(Repeats(h, slots, now, n - 1, roster), Repeats(h, slots, now, n, roster), RepeatOf(h, n - 1, roster), k,
                 DueWelcome(h, slots, now, n - 1, k, roster), DueWelcome(h, slots, now, n, k, roster));
    }
  }

  // ---------------------------------------------------------------- one step

  lemma DeparturesSelect(h': Host, reasons: Reasons, welcomes: seq<Action>, k: Kind)
    ensures Select(Departures(h', reasons, welcomes), k)
         == Select(Lefts(reasons, W.MAX_CLIENTS), k) + Select(welcomes, k)
            + if Lefts(reasons, W.MAX_CLIENTS) != [] then Select(BroadcastRoster(h', None), k) else []
  {
    var left := Lefts(reasons, W.MAX_CLIENTS);
    SelectConcat(left + welcomes, if left != [] then BroadcastRoster(h', None) else [], k);
    SelectConcat(left, welcomes, k);
  }

  /** The reasons given are those of the slots freed; no other slot changes hands. */
  ghost predicate Frees(slots: Slots, slots': Slots, reasons: Reasons) {
    forall i | 0 <= i < W.MAX_CLIENTS ::
      if reasons[i].Some? then slots[i].Some? && slots'[i].None? else Addrs(slots)[i] == Addrs(slots')[i]
  }

  lemma ByeFrees(h: Host, addr: Addr)
    ensures Frees(h.slots, OnBye(h, addr).0.slots, Departing(h.slots, addr))
  {
  }

  lemma TickFrees(h: Host, now: nat)
    ensures Frees(h.slots, Ticked(h, now).slots, Overdue(h.slots, now))
  {
    forall i | 0 <= i < W.MAX_CLIENTS
      ensures if Overdue(h.slots, now)[i].Some? then h.slots[i].Some? && Ticked(h, now).slots[i].None?
              else Addrs(h.slots)[i] == Addrs(Ticked(h, now).slots)[i]
    {
      assert Ticked(h, now).slots[i] == AfterTick(h.slots[i], now);
    }
  }

  lemma FreedSlots(slots: Slots, slots': Slots, reasons: Reasons)
    requires Frees(slots, slots', reasons)
    ensures Addrs(slots') == Addrs(slots) <==> Lefts(reasons, W.MAX_CLIENTS) == []
  {
    LeftsNonEmptyIff(reasons, W.MAX_CLIENTS);
    if forall i | 0 <= i < W.MAX_CLIENTS :: reasons[i].None? {
      assert Addrs(slots') == Addrs(slots);
    } else {
      var i :| 0 <= i < W.MAX_CLIENTS && reasons[i].Some?;
      assert Addrs(slots')[i] != Addrs(slots)[i];
    }
  }

  predicate Greets(e: Input, a: Addr) { e.HelloFrom? && e.addr == a }

  ghost predicate RostersRight(h: Host, e: Input, a: Addr) {
    var (h', out) := Step(h, e);
    Select(out, RosterTo(a))
      == if Addrs(h'.slots) != Addrs(h.slots) && Member(h'.slots, a) && !Greets(e, a)
         then [Send(a, W.Roster(RosterOf(h')))] else []
  }

  predicate Admissible(h: Host, c: W.Control) { c.Hello? && c.version == W.PROTOCOL_VERSION && c.room == h.room }

  /** What the first HELLO of an address emits. */
  lemma WelcomingSelects(h': Host, addr: Addr, i: nat, name: Text, k: Kind)
    requires Distinct(h'.slots) && i < W.MAX_CLIENTS
    ensures Select([Send(addr, WelcomeFor(h', i)), ClientJoined(i + 1, name)] + BroadcastRoster(h', Some(addr)), k)
         == match k
            case RosterTo(a) => if Member(h'.slots, a) && a != addr then [Send(a, W.Roster(RosterOf(h')))] else []
            case WelcomeOf(id) => if id == i + 1 then [Send(addr, WelcomeFor(h', i))] else []
            case PresenceOf(id) => if id == i + 1 then [ClientJoined(i + 1, name)] else []
  {
    var welcome, joined := Send(addr, WelcomeFor(h', i)), ClientJoined(i + 1, name);
    BroadcastSelects(h'.slots, RosterOf(h'), Some(addr), k);
    SelectConcat([welcome, joined], BroadcastRoster(h', Some(addr)), k);
    assert [welcome, joined] == [welcome] + [joined];
    SelectOne(welcome, k);
    SelectSnoc([welcome], joined, k);
  }

  lemma HelloRosters(h: Host, e: Input, a: Addr)
    requires Distinct(h.slots) && e.HelloFrom?
    ensures RostersRight(h, e, a)
  {
    var h' := Step(h, e).0;
    StepKeepsDistinct(h, e);
    if Admissible(h, e.hello) {
      var known, free := Position(h.slots, e.addr), FreeSlot(h.slots);
      if known.Some? {
        assert Addrs(h'.slots) == Addrs(h.slots);
      } else if free.Some? {
        assert Addrs(h'.slots)[free.value] != Addrs(h.slots)[free.value];
        WelcomingSelects(h', e.addr, free.value, e.hello.name, RosterTo(a));
      }
    }
  }

  lemma DepartureRosters(slots: Slots, h': Host, reasons: Reasons, welcomes: seq<Action>, a: Addr)
    requires Distinct(h'.slots) && Frees(slots, h'.slots, reasons) && Select(welcomes, RosterTo(a)) == []
    ensures Select(Departures(h', reasons, welcomes), RosterTo(a))
         == if Addrs(h'.slots) != Addrs(slots) && Member(h'.slots, a) then [Send(a, W.Roster(RosterOf(h')))] else []
  {
    DeparturesSelect(h', reasons, welcomes, RosterTo(a));
    FreedSlots(slots, h'.slots, reasons);
    LeftsSelect(reasons, W.MAX_CLIENTS, RosterTo(a));
    BroadcastSelects(h'.slots, RosterOf(h'), None, RosterTo(a));
  }

  lemma ByeRosters(h: Host, e: Input, a: Addr)
    requires Distinct(h.slots) && e.ByeFrom?
    ensures RostersRight(h, e, a)
  {
    StepKeepsDistinct(h, e);
    ByeFrees(h, e.addr);
    DepartureRosters(h.slots, Step(h, e).0, Departing(h.slots, e.addr), [], a);
  }

  lemma TickRosters(h: Host, e: Input, a: Addr)
    requires Distinct(h.slots) && e.ClockAt?
    ensures RostersRight(h, e, a)
  {
    var h' := Step(h, e).0;
    StepKeepsDistinct(h, e);
    TickFrees(h, e.now);
    RepeatsSelect(h', h.slots, e.now, W.MAX_CLIENTS, RosterTo(a), RosterOf(h'));
    DepartureRosters(h.slots, h', Overdue(h.slots, e.now), Repeats(h', h.slots, e.now, W.MAX_CLIENTS, RosterOf(h')), a);
  }

  /** A step sends a ROSTER exactly when it changes who is in the session: one to each remaining client
      other than the one being greeted, carrying the roster after the step; to nobody else, and at no other
      time (so a repeated HELLO with a new name is not announced). */
  lemma RostersAnnounceChanges(h: Host, e: Input, a: Addr)
    requires Distinct(h.slots)
    ensures RostersRight(h, e, a)
  {
    match e
    case HelloFrom(_, _, _) => HelloRosters(h, e, a);
    case ByeFrom(_) => ByeRosters(h, e, a);
    case ClockAt(_) => TickRosters(h, e, a);
    case _ => assert Addrs(Step(h, e).0.slots) == Addrs(h.slots);
  }

  /** The events of slot `i`: one exactly when the slot is filled or freed. */
  ghost predicate Reports(events: seq<Action>, i: nat, slots: Slots, slots': Slots)
    requires i < W.MAX_CLIENTS
  {
    if slots[i].None? && slots'[i].Some? then events == [ClientJoined(i + 1, slots'[i].value.name)]
    else if slots[i].Some? && slots'[i].None? then |events| == 1 && events[0].ClientLeft? && events[0].senderId == i + 1
    else events == [] && Addrs(slots')[i] == Addrs(slots)[i]
  }

  ghost predicate PresenceRight(h: Host, e: Input, i: nat)
    requires i < W.MAX_CLIENTS
  {
    Reports(Select(Step(h, e).1, PresenceOf(i + 1)), i, h.slots, Step(h, e).0.slots)
  }

  lemma KnownHelloPresence(h: Host, e: Input, i: nat)
    requires i < W.MAX_CLIENTS && e.HelloFrom? && Admissible(h, e.hello) && Position(h.slots, e.addr).Some?
    ensures PresenceRight(h, e, i)
  {
    var known := Position(h.slots, e.addr).value;
    SelectOne(Send(e.addr, WelcomeFor(Step(h, e).0, known)), PresenceOf(i + 1));
    assert Addrs(Step(h, e).0.slots)[i] == Addrs(h.slots)[i];
  }

  lemma FullRoomPresence(h: Host, e: Input, i: nat)
    requires i < W.MAX_CLIENTS && e.HelloFrom? && Admissible(h, e.hello) && Position(h.slots, e.addr).None? && FreeSlot(h.slots).None?
    ensures PresenceRight(h, e, i)
  {
    SelectOne(Send(e.addr, W.Deny(W.RoomFull)), PresenceOf(i + 1));
  }

  lemma FreeSlotPresence(h: Host, e: Input, i: nat, free: nat)
    requires Distinct(h.slots) && i < W.MAX_CLIENTS && e.HelloFrom? && Admissible(h, e.hello)
    requires Position(h.slots, e.addr).None? && FreeSlot(h.slots) == Some(free)
    ensures PresenceRight(h, e, i)
  {
    var h' := Step(h, e).0;
    StepKeepsDistinct(h, e);
    WelcomingSelects(h', e.addr, free, e.hello.name, PresenceOf(i + 1));
    assert i != free ==> Addrs(h'.slots)[i] == Addrs(h.slots)[i];
  }

  lemma FirstHelloPresence(h: Host, e: Input, i: nat)
    requires Distinct(h.slots) && i < W.MAX_CLIENTS && e.HelloFrom? && Admissible(h, e.hello) && Position(h.slots, e.addr).None?
    ensures PresenceRight(h, e, i)
  {
    var free := FreeSlot(h.slots);
    if free.Some? { FreeSlotPresence(h, e, i, free.value); } else { FullRoomPresence(h, e, i); }
  }

  lemma HelloPresence(h: Host, e: Input, i: nat)
    requires Distinct(h.slots) && i < W.MAX_CLIENTS && e.HelloFrom?
    ensures PresenceRight(h, e, i)
  {
    if Admissible(h, e.hello) {
      if Position(h.slots, e.addr).Some? { KnownHelloPresence(h, e, i); } else { FirstHelloPresence(h, e, i); }
    }
  }

  lemma DeparturePresence(slots: Slots, h': Host, reasons: Reasons, welcomes: seq<Action>, i: nat)
    requires Distinct(h'.slots) && Frees(slots, h'.slots, reasons) && Select(welcomes, PresenceOf(i + 1)) == [] && i < W.MAX_CLIENTS
    ensures Reports(Select(Departures(h', reasons, welcomes), PresenceOf(i + 1)), i, slots, h'.slots)
  {
    DeparturesSelect(h', reasons, welcomes, PresenceOf(i + 1));
    LeftsSelect(reasons, W.MAX_CLIENTS, PresenceOf(i + 1));
    BroadcastSelects(h'.slots, RosterOf(h'), None, PresenceOf(i + 1));
    assert reasons[i].None? ==> Addrs(slots)[i] == Addrs(h'.slots)[i];
  }

  lemma ByePresence(h: Host, e: Input, i: nat)
    requires Distinct(h.slots) && i < W.MAX_CLIENTS && e.ByeFrom?
    ensures PresenceRight(h, e, i)
  {
    StepKeepsDistinct(h, e);
    ByeFrees(h, e.addr);
    DeparturePresence(h.slots, Step(h, e).0, Departing(h.slots, e.addr), [], i);
  }

  lemma TickPresence(h: Host, e: Input, i: nat)
    requires Distinct(h.slots) && i < W.MAX_CLIENTS && e.ClockAt?
    ensures PresenceRight(h, e, i)
  {
    var h' := Step(h, e).0;
    StepKeepsDistinct(h, e);
    TickFrees(h, e.now);
    RepeatsSelect(h', h.slots, e.now, W.MAX_CLIENTS, PresenceOf(i + 1), RosterOf(h'));
    DeparturePresence(h.slots, h', Overdue(h.slots, e.now), Repeats(h', h.slots, e.now, W.MAX_CLIENTS, RosterOf(h')), i);
  }

  /** A step reports a slot's client as joined or left exactly when the slot is filled or freed, and only
      then can the slot's address change. */
  lemma PresenceFollowsSlots(h: Host, e: Input, i: nat)
    requires Distinct(h.slots) && i < W.MAX_CLIENTS
    ensures PresenceRight(h, e, i)
  {
    match e
    case HelloFrom(_, _, _) => HelloPresence(h, e, i);
    case ByeFrom(_) => ByePresence(h, e, i);
    case ClockAt(_) => TickPresence(h, e, i);
    case _ =>
  }

  // ---------------------------------------------------------------- whole runs

  /** Joined and left events alternate, leading from one occupancy of the slot to another. */
  predicate Alternates(events: seq<Action>, before: bool, after: bool) {
    if events == [] then before == after
    else (if before then events[0].ClientLeft? else events[0].ClientJoined?) && Alternates(events[1..], !before, after)
  }

  lemma AlternatesPrepend(now: seq<Action>, rest: seq<Action>, before: bool, middle: bool, after: bool)
    requires if before == middle then now == [] else |now| == 1 && (if before then now[0].ClientLeft? else now[0].ClientJoined?)
    requires Alternates(rest, middle, after)
    ensures Alternates(now + rest, before, after)
  {
    if before == middle {
      assert now + rest == rest;
    } else {
      assert (now + rest)[1..] == rest;
    }
  }

  /** Over any run, each sender's joins and leaves strictly alternate: a join first iff the slot was
      empty, a join last iff it is occupied in the end. */
  lemma {:induction false} JoinsAndLeavesAlternate(h: Host, es: seq<Input>, i: nat)
    requires Distinct(h.slots) && i < W.MAX_CLIENTS
    ensures Alternates(Select(Run(h, es).1, PresenceOf(i + 1)), h.slots[i].Some?, Run(h, es).0.slots[i].Some?)
    decreases es
  {
    if es != [] {
      var (h1, out) := Step(h, es[0]);
      var outs := Run(h1, es[1..]).1;
      PresenceFollowsSlots(h, es[0], i);
      StepKeepsDistinct(h, es[0]);
      JoinsAndLeavesAlternate(h1, es[1..], i);
      SelectConcat(out, outs, PresenceOf(i + 1));
      AlternatesPrepend(Select(out, PresenceOf(i + 1)), Select(outs, PresenceOf(i + 1)),
                        h.slots[i].Some?, h1.slots[i].Some?, Run(h, es).0.slots[i].Some?);
    }
  }

  // ---------------------------------------------------------------- what is announced

  /** Exactly the host and the occupied slots, in ascending order of id. */
  ghost predicate Lists(roster: seq<W.PlayerInfo>, h: Host) {
    && (forall a, b | 0 <= a < b < |roster| :: roster[a].id < roster[b].id)
    && (forall p :: p in roster <==>
          || p == W.PlayerInfo(HOST_SENDER_ID, h.hostName)
          || (1 <= p.id <= W.MAX_CLIENTS && h.slots[p.id - 1].Some? && p.name == h.slots[p.id - 1].value.name))
  }

  lemma {:induction false} PlayersList(slots: Slots, n: nat)
    requires n <= W.MAX_CLIENTS
    ensures forall a, b | 0 <= a < b < |Players(slots, n)| :: Players(slots, n)[a].id < Players(slots, n)[b].id
    ensures forall p :: p in Players(slots, n) <==> 1 <= p.id <= n && slots[p.id - 1].Some? && p.name == slots[p.id - 1].value.name
  {
    if n > 0 { PlayersList(slots, n - 1); }
  }

  lemma RosterLists(h: Host)
    ensures Lists(RosterOf(h), h)
  {
    PlayersList(h.slots, W.MAX_CLIENTS);
  }

  /** A message that tells the truth about the session: rosters list it, a WELCOME assigns the slot its
      addressee holds, a join names the player in the slot. */
  ghost predicate Truthful(a: Action, h: Host) {
    match a
    case Send(to, Roster(r)) => Lists(r, h) && Member(h.slots, to)
    case Send(to, Welcome(id, session, rate, samples, codec, r)) =>
      && 1 <= id <= W.MAX_CLIENTS && At(h.slots, id - 1, to) && session == h.session
      && Params(rate, samples, codec) == h.params
      && Lists(r, h) && W.PlayerInfo(id, h.slots[id - 1].value.name) in r
    case ClientJoined(id, name) => 1 <= id <= W.MAX_CLIENTS && h.slots[id - 1].Some? && h.slots[id - 1].value.name == name
    case ClientLeft(id, _) => 1 <= id <= W.MAX_CLIENTS && h.slots[id - 1].None?
    case _ => true
  }

  ghost predicate AllTruthful(actions: seq<Action>, h: Host) { forall a | a in actions :: Truthful(a, h) }

  lemma {:induction false} BroadcastTruthful(h: Host, except: Option<Addr>, n: nat)
    requires n <= W.MAX_CLIENTS
    ensures AllTruthful(Broadcast(h.slots, RosterOf(h), except, n), h)
  {
    RosterLists(h);
    if n > 0 {
      BroadcastTruthful(h, except, n - 1);
      if h.slots[n - 1].Some? {
        assert At(h.slots, n - 1, h.slots[n - 1].value.addr);
      }
    }
  }

  lemma {:induction false} LeftsTruthful(h: Host, reasons: Reasons, n: nat)
    requires n <= W.MAX_CLIENTS && forall i | 0 <= i < n && reasons[i].Some? :: h.slots[i].None?
    ensures AllTruthful(Lefts(reasons, n), h)
  {
    if n > 0 { LeftsTruthful(h, reasons, n - 1); }
  }

  lemma WelcomeTruthful(h: Host, i: nat)
    requires i < W.MAX_CLIENTS && h.slots[i].Some?
    ensures Truthful(Send(h.slots[i].value.addr, WelcomeFor(h, i)), h)
  {
    RosterLists(h);
  }

  lemma {:induction false} RepeatsTruthful(h: Host, slots: Slots, now: nat, n: nat)
    requires n <= W.MAX_CLIENTS
    ensures AllTruthful(Repeats(h, slots, now, n, RosterOf(h)), h)
  {
    if n > 0 {
      RepeatsTruthful(h, slots, now, n - 1);
      if h.slots[n - 1].Some? { WelcomeTruthful(h, n - 1); }
    }
  }

  lemma HelloTruthful(h: Host, addr: Addr, hello: W.Control, now: nat)
    ensures AllTruthful(OnHello(h, addr, hello, now).1, OnHello(h, addr, hello, now).0)
  {
    var h' := OnHello(h, addr, hello, now).0;
    if Admissible(h, hello) {
      var known, free := Position(h.slots, addr), FreeSlot(h.slots);
      if known.Some? {
        WelcomeTruthful(h', known.value);
      } else if free.Some? {
        WelcomeTruthful(h', free.value);
        BroadcastTruthful(h', Some(addr), W.MAX_CLIENTS);
      }
    }
  }

  lemma DeparturesTruthful(h': Host, reasons: Reasons, welcomes: seq<Action>)
    requires AllTruthful(welcomes, h') && forall i | 0 <= i < W.MAX_CLIENTS && reasons[i].Some? :: h'.slots[i].None?
    ensures AllTruthful(Departures(h', reasons, welcomes), h')
  {
    LeftsTruthful(h', reasons, W.MAX_CLIENTS);
    BroadcastTruthful(h', None, W.MAX_CLIENTS);
  }

  /** Everything a step says is true of the state after it: every WELCOME and ROSTER lists exactly the host
      and the occupied slots in ascending order, and a WELCOME lists the id it assigns, which is the slot
      of its addressee. */
  lemma AnnouncementsAreTrue(h: Host, e: Input)
    ensures AllTruthful(Step(h, e).1, Step(h, e).0)
  {
    match e
    case HelloFrom(addr, hello, now) =>
      HelloTruthful(h, addr, hello, now);
    case ByeFrom(addr) =>
      ByeFrees(h, addr);
      DeparturesTruthful(OnBye(h, addr).0, Departing(h.slots, addr), []);
    case ClockAt(now) =>
      TickFrees(h, now);
      RepeatsTruthful(Ticked(h, now), h.slots, now, W.MAX_CLIENTS);
      DeparturesTruthful(Ticked(h, now), Overdue(h.slots, now), Repeats(Ticked(h, now), h.slots, now, W.MAX_CLIENTS, RosterOf(Ticked(h, now))));
    case _ =>
  }
}
