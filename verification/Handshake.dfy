/** The join and leave state machines (crates/jam-protocol/src/handshake.rs): the client's and the host's
    steps as functions on values, and the two classes that perform them in place. Addresses stand for
    socket addresses, times are milliseconds of any monotonic clock. */
module Handshake {
  import opened Common
  import opened Utf8
  import W = Wire

  const CONTROL_RETRY_MS := 100
  const CONTROL_MAX_TRIES := 10
  const PEER_TIMEOUT_MS := 5000
  const PING_INTERVAL_MS := 1000
  const KEEPALIVE_MS := 500
  const HOST_SENDER_ID: u16 := 0

  datatype Addr = Addr(ip: nat, port: u16)

  datatype Params = Params(sampleRate: u32, frameSamples: u16, codec: W.Codec)

  // ---------------------------------------------------------------- client

  datatype Failure = Denied(reason: W.DenyReason) | Timeout

  datatype Phase =
    | Idle
    | Joining(lastTx: nat, tries: nat)
    | Joined(senderId: u16, sessionId: u16, params: Params)
    | GaveUp(why: Failure)

  datatype ClientAction =
    | SendToHost(control: W.Control)
    | StartAudio(senderId: u16, sessionId: u16, params: Params)
    | RosterUpdate(players: seq<W.PlayerInfo>)
    | Fail(why: Failure)

  function HelloFor(room: W.RoomCode, name: Text): W.Control { W.Hello(W.PROTOCOL_VERSION, room, name, 0x07, 0x03) }

  function ClientStart(hello: W.Control, now: nat): (Phase, seq<ClientAction>) {
    (Joining(now, 1), [SendToHost(hello)])
  }

  function ClientTick(p: Phase, hello: W.Control, now: nat): (Phase, seq<ClientAction>) {
    if !p.Joining? || Monus(now, p.lastTx) < CONTROL_RETRY_MS then (p, [])
    else if p.tries >= CONTROL_MAX_TRIES then (GaveUp(Timeout), [Fail(Timeout)])
    else (Joining(now, p.tries + 1), [SendToHost(hello)])
  }

  function ClientOnControl(p: Phase, c: W.Control): (Phase, seq<ClientAction>) {
    match (p, c)
    case (Joining(_, _), Welcome(id, session, rate, samples, codec, roster)) =>
      var params := Params(rate, samples, codec);
      (Joined(id, session, params), [StartAudio(id, session, params), RosterUpdate(roster)])
    case (Joining(_, _), Deny(reason)) => (GaveUp(Denied(reason)), [Fail(Denied(reason))])
    case (Joined(_, _, _), Roster(players)) => (p, [RosterUpdate(players)])
    case _ => (p, [])
  }

  class ClientHandshake {
    const hello: W.Control
    var phase: Phase

    constructor (room: W.RoomCode, name: Text)
      ensures phase == Idle && hello == HelloFor(room, name)
    {
      phase := Idle;
      hello := HelloFor(room, name);
    }

    method Start(now: nat) returns (actions: seq<ClientAction>)
      modifies this
      ensures (phase, actions) == ClientStart(hello, now)
    {
      phase := Joining(now, 1);
      return [SendToHost(hello)];
    }

    method Tick(now: nat) returns (actions: seq<ClientAction>)
      modifies this
      ensures (phase, actions) == ClientTick(old(phase), hello, now)
    {
      if !phase.Joining? {
        return [];
      }
      if Monus(now, phase.lastTx) < CONTROL_RETRY_MS {
        return [];
      }
      if phase.tries >= CONTROL_MAX_TRIES {
        phase := GaveUp(Timeout);
        return [Fail(Timeout)];
      }
      phase := Joining(now, phase.tries + 1);
      return [SendToHost(hello)];
    }

    method OnControl(control: W.Control) returns (actions: seq<ClientAction>)
      modifies this
      ensures (phase, actions) == ClientOnControl(old(phase), control)
    {
      if phase.Joining? && control.Welcome? {
        var params := Params(control.sampleRate, control.frameSamples, control.codec);
        phase := Joined(control.assignedId, control.session, params);
        return [StartAudio(control.assignedId, control.session, params), RosterUpdate(control.roster)];
      }
      if phase.Joining? && control.Deny? {
        phase := GaveUp(Denied(control.reason));
        return [Fail(Denied(control.reason))];
      }
      if phase.Joined? && control.Roster? {
        return [RosterUpdate(control.roster)];
      }
      return [];
    }
  }

  // ---------------------------------------------------------------- host

  datatype LeaveReason = SaidBye | WentSilent | WelcomeUnacked

  datatype SlotState = Pending(welcomeSeq: Option<u16>, lastTx: nat, tries: nat) | Active

  datatype Slot = Slot(addr: Addr, name: Text, state: SlotState, lastHeard: nat)

  type Slots = s: seq<Option<Slot>> | |s| == W.MAX_CLIENTS witness seq(W.MAX_CLIENTS, _ => None)

  datatype Action =
    | Send(to: Addr, control: W.Control)
    | ClientJoined(senderId: u16, name: Text)
    | ClientLeft(senderId: u16, reason: LeaveReason)

  datatype Host = Host(room: W.RoomCode, session: u16, params: Params, hostName: Text, slots: Slots)

  const NO_SLOTS: Slots := seq(W.MAX_CLIENTS, _ => None)

  predicate At(slots: Slots, i: nat, addr: Addr) {
    i < W.MAX_CLIENTS && slots[i].Some? && slots[i].value.addr == addr
  }

  /** The first slot registered for an address. */
  function Position(slots: Slots, addr: Addr, i: nat := 0): (r: Option<nat>)
    requires i <= W.MAX_CLIENTS
    ensures if r.Some? then i <= r.value && At(slots, r.value, addr) && forall j | i <= j < r.value :: !At(slots, j, addr)
            else forall j | i <= j :: !At(slots, j, addr)
    decreases W.MAX_CLIENTS - i
  {
    if i == W.MAX_CLIENTS then None else if At(slots, i, addr) then Some(i) else Position(slots, addr, i + 1)
  }

  function FreeSlot(slots: Slots, i: nat := 0): (r: Option<nat>)
    requires i <= W.MAX_CLIENTS
    ensures if r.Some? then i <= r.value < W.MAX_CLIENTS && slots[r.value].None? && forall j | i <= j < r.value :: slots[j].Some?
            else forall j | i <= j < W.MAX_CLIENTS :: slots[j].Some?
    decreases W.MAX_CLIENTS - i
  {
    if i == W.MAX_CLIENTS then None else if slots[i].None? then Some(i) else FreeSlot(slots, i + 1)
  }

  /** The players in the first `n` slots. */
  function Players(slots: Slots, n: nat): seq<W.PlayerInfo>
    requires n <= W.MAX_CLIENTS
  {
    if n == 0 then []
    else
      var before := Players(slots, n - 1);
      if slots[n - 1].Some? then before + [W.PlayerInfo(n, slots[n - 1].value.name)] else before
  }

  function RosterOf(h: Host): seq<W.PlayerInfo> {
    [W.PlayerInfo(HOST_SENDER_ID, h.hostName)] + Players(h.slots, W.MAX_CLIENTS)
  }

  function WelcomeWith(h: Host, i: nat, roster: seq<W.PlayerInfo>): W.Control
    requires i < W.MAX_CLIENTS
  {
    W.Welcome(i + 1, h.session, h.params.sampleRate, h.params.frameSamples, h.params.codec, roster)
  }

  function WelcomeFor(h: Host, i: nat): W.Control
    requires i < W.MAX_CLIENTS
  {
    WelcomeWith(h, i, RosterOf(h))
  }

  /** One ROSTER to each of the first `n` clients, except to one address. */
  function Broadcast(slots: Slots, roster: seq<W.PlayerInfo>, except: Option<Addr>, n: nat): seq<Action>
    requires n <= W.MAX_CLIENTS
  {
    if n == 0 then []
    else
      var s, before := slots[n - 1], Broadcast(slots, roster, except, n - 1);
      if s.Some? && Some(s.value.addr) != except then before + [Send(s.value.addr, W.Roster(roster))] else before
  }

  function BroadcastRoster(h: Host, except: Option<Addr>): seq<Action> {
    Broadcast(h.slots, RosterOf(h), except, W.MAX_CLIENTS)
  }

  function OnHello(h: Host, addr: Addr, c: W.Control, now: nat): (Host, seq<Action>) {
    if !c.Hello? then (h, [])
    else if c.version != W.PROTOCOL_VERSION then (h, [Send(addr, W.Deny(W.VersionMismatch))])
    else if c.room != h.room then (h, [Send(addr, W.Deny(W.BadRoomCode))])
    else
      var entry := Some(Slot(addr, c.name, Pending(None, now, 1), now));
      var known := Position(h.slots, addr);
      if known.Some? then
        var h' := h.(slots := h.slots[known.value := entry]);
        (h', [Send(addr, WelcomeFor(h', known.value))])
      else
        var free := FreeSlot(h.slots);
        if free.None? then (h, [Send(addr, W.Deny(W.RoomFull))])
        else
          var h' := h.(slots := h.slots[free.value := entry]);
          (h', [Send(addr, WelcomeFor(h', free.value)), ClientJoined(free.value + 1, c.name)] + BroadcastRoster(h', Some(addr)))
  }

  function Stamped(slot: Option<Slot>, to: Addr, s: u16): Option<Slot> {
    if slot.Some? && slot.value.addr == to && slot.value.state.Pending?
    then Some(slot.value.(state := slot.value.state.(welcomeSeq := Some(s)))) else slot
  }

  function WelcomeSent(h: Host, to: Addr, s: u16): Host {
    h.(slots := seq(W.MAX_CLIENTS, i requires 0 <= i < W.MAX_CLIENTS => Stamped(h.slots[i], to, s)))
  }

  function Acked(slot: Option<Slot>, addr: Addr, s: u16, now: nat): Option<Slot> {
    if slot.None? || slot.value.addr != addr then slot
    else if slot.value.state.Pending? && slot.value.state.welcomeSeq == Some(s)
    then Some(slot.value.(lastHeard := now, state := Active))
    else Some(slot.value.(lastHeard := now))
  }

  function OnAck(h: Host, addr: Addr, s: u16, now: nat): Host {
    h.(slots := seq(W.MAX_CLIENTS, i requires 0 <= i < W.MAX_CLIENTS => Acked(h.slots[i], addr, s, now)))
  }

  function MarkHeard(h: Host, sender: u16, now: nat): Host {
    if 1 <= sender <= W.MAX_CLIENTS && h.slots[sender - 1].Some? then
      h.(slots := h.slots[sender - 1 := Some(h.slots[sender - 1].value.(lastHeard := now, state := Active))])
    else h
  }

  /** Which slots a step frees, and why. */
  type Reasons = s: seq<Option<LeaveReason>> | |s| == W.MAX_CLIENTS witness seq(W.MAX_CLIENTS, _ => None)

  function Lefts(reasons: Reasons, n: nat): seq<Action>
    requires n <= W.MAX_CLIENTS
  {
    if n == 0 then []
    else
      var before := Lefts(reasons, n - 1);
      if reasons[n - 1].Some? then before + [ClientLeft(n, reasons[n - 1].value)] else before
  }

  /** What a step says when slots have been freed; `welcomes` are the other messages it sends. */
  function Departures(h': Host, reasons: Reasons, welcomes: seq<Action>): seq<Action> {
    var left := Lefts(reasons, W.MAX_CLIENTS);
    left + welcomes + if left != [] then BroadcastRoster(h', None) else []
  }

  function Departing(slots: Slots, addr: Addr): Reasons {
    seq(W.MAX_CLIENTS, i requires 0 <= i < W.MAX_CLIENTS => if At(slots, i, addr) then Some(SaidBye) else None)
  }

  function Cleared(h: Host, addr: Addr): Host {
    h.(slots := seq(W.MAX_CLIENTS, i requires 0 <= i < W.MAX_CLIENTS => if At(h.slots, i, addr) then None else h.slots[i]))
  }

  function OnBye(h: Host, addr: Addr): (Host, seq<Action>) {
    var h' := Cleared(h, addr);
    (h', Departures(h', Departing(h.slots, addr), []))
  }

  datatype Verdict = Keep | Resend | Drop(reason: LeaveReason)

  function Judge(s: Slot, now: nat): Verdict {
    if Monus(now, s.lastHeard) > PEER_TIMEOUT_MS then Drop(WentSilent)
    else if s.state.Pending? && Monus(now, s.state.lastTx) >= CONTROL_RETRY_MS then
      if s.state.tries >= CONTROL_MAX_TRIES then Drop(WelcomeUnacked) else Resend
    else Keep
  }

  function AfterTick(slot: Option<Slot>, now: nat): Option<Slot> {
    if slot.None? then None
    else match Judge(slot.value, now)
      case Keep => slot
      case Resend => Some(slot.value.(state := slot.value.state.(lastTx := now, tries := slot.value.state.tries + 1)))
      case Drop(_) => None
  }

  function Overdue(slots: Slots, now: nat): Reasons {
    seq(W.MAX_CLIENTS, i requires 0 <= i < W.MAX_CLIENTS =>
      if slots[i].Some? && Judge(slots[i].value, now).Drop? then Some(Judge(slots[i].value, now).reason) else None)
  }

  predicate Resends(slots: Slots, now: nat, i: nat) {
    i < W.MAX_CLIENTS && slots[i].Some? && Judge(slots[i].value, now).Resend?
  }

  /** The slots among the first `n` whose WELCOME is due again. */
  function Due(slots: Slots, now: nat, n: nat): (r: seq<nat>)
    requires n <= W.MAX_CLIENTS
    ensures forall k | 0 <= k < |r| :: r[k] < n && Resends(slots, now, r[k])
  {
    if n == 0 then []
    else
      var before := Due(slots, now, n - 1);
      if Resends(slots, now, n - 1) then before + [n - 1] else before
  }

  /** The WELCOME of slot `i` once more. */
  function RepeatOf(h: Host, i: nat, roster: seq<W.PlayerInfo>): Action
    requires i < W.MAX_CLIENTS && h.slots[i].Some?
  {
    Send(h.slots[i].value.addr, WelcomeWith(h, i, roster))
  }

  /** A WELCOME to each of these slots. */
  function Welcomes(h: Host, due: seq<nat>, roster: seq<W.PlayerInfo>): seq<Action>
    requires forall k | 0 <= k < |due| :: due[k] < W.MAX_CLIENTS && h.slots[due[k]].Some?
  {
    if due == [] then []
    else
      Welcomes(h, due[..|due| - 1], roster) + [RepeatOf(h, due[|due| - 1], roster)]
  }

  /** The WELCOMEs of the first `n` slots that are due again. */
  function Repeats(h: Host, slots: Slots, now: nat, n: nat, roster: seq<W.PlayerInfo>): seq<Action>
    requires n <= W.MAX_CLIENTS
  {
    if n == 0 then []
    else
      var before := Repeats(h, slots, now, n - 1, roster);
      if Resends(slots, now, n - 1) && h.slots[n - 1].Some? then before + [RepeatOf(h, n - 1, roster)] else before
  }

  lemma WelcomesSnoc(h: Host, due: seq<nat>, i: nat, roster: seq<W.PlayerInfo>)
    requires i < W.MAX_CLIENTS && h.slots[i].Some? && forall k | 0 <= k < |due| :: due[k] < W.MAX_CLIENTS && h.slots[due[k]].Some?
    ensures Welcomes(h, due + [i], roster) == Welcomes(h, due, roster) + [RepeatOf(h, i, roster)]
  {
    assert (due + [i])[..|due|] == due;
  }

  lemma {:induction false} WelcomesRepeat(h: Host, slots: Slots, now: nat, n: nat, roster: seq<W.PlayerInfo>)
    requires n <= W.MAX_CLIENTS && forall i | 0 <= i < n && Resends(slots, now, i) :: h.slots[i].Some?
    ensures Welcomes(h, Due(slots, now, n), roster) == Repeats(h, slots, now, n, roster)
  {
    if n > 0 {
      WelcomesRepeat(h, slots, now, n - 1, roster);
      if Resends(slots, now, n - 1) { WelcomesSnoc(h, Due(slots, now, n - 1), n - 1, roster); }
    }
  }

  function Ticked(h: Host, now: nat): Host {
    h.(slots := seq(W.MAX_CLIENTS, i requires 0 <= i < W.MAX_CLIENTS => AfterTick(h.slots[i], now)))
  }

  function Tick(h: Host, now: nat): (Host, seq<Action>) {
    var h' := Ticked(h, now);
    (h', Departures(h', Overdue(h.slots, now), Repeats(h', h.slots, now, W.MAX_CLIENTS, RosterOf(h'))))
  }

  /** The host machine with its slots updated in place. */
  class HostHandshake {
    const room: W.RoomCode
    const session: u16
    const params: Params
    const hostName: Text
    const slots: array<Option<Slot>>

    ghost predicate Valid() { slots.Length == W.MAX_CLIENTS }

    ghost function View(): Host
      requires Valid()
      reads slots
    {
      Host(room, session, params, hostName, slots[..])
    }

    constructor (room: W.RoomCode, session: u16, params: Params, hostName: Text)
      ensures Valid() && fresh(slots) && View() == Host(room, session, params, hostName, NO_SLOTS)
    {
      this.room, this.session, this.params, this.hostName := room, session, params, hostName;
      slots := new Option<Slot>[W.MAX_CLIENTS](_ => None);
    }

    method CurrentRoster() returns (players: seq<W.PlayerInfo>)
      requires Valid()
      ensures players == RosterOf(View())
    {
      players := [W.PlayerInfo(HOST_SENDER_ID, hostName)];
      for i := 0 to W.MAX_CLIENTS
        invariant players == [W.PlayerInfo(HOST_SENDER_ID, hostName)] + Players(slots[..], i)
      {
        if slots[i].Some? {
          players := players + [W.PlayerInfo(i + 1, slots[i].value.name)];
        }
      }
    }

    /** `sender_for_addr`, as a slot index */
    method Find(addr: Addr) returns (r: Option<nat>)
      requires Valid()
      ensures r == Position(slots[..], addr)
    {
      for i := 0 to W.MAX_CLIENTS
        invariant forall j | 0 <= j < i :: !At(slots[..], j, addr)
      {
        if slots[i].Some? && slots[i].value.addr == addr {
          return Some(i);
        }
      }
      return None;
    }

    method FindFree() returns (r: Option<nat>)
      requires Valid()
      ensures r == FreeSlot(slots[..])
    {
      for i := 0 to W.MAX_CLIENTS
        invariant forall j | 0 <= j < i :: slots[j].Some?
      {
        if slots[i].None? {
          return Some(i);
        }
      }
      return None;
    }

    method MakeWelcome(i: nat) returns (c: W.Control)
      requires Valid() && i < W.MAX_CLIENTS
      ensures c == WelcomeFor(View(), i)
    {
      var roster := CurrentRoster();
      return W.Welcome(i + 1, session, params.sampleRate, params.frameSamples, params.codec, roster);
    }

    method Announce(except: Option<Addr>) returns (actions: seq<Action>)
      requires Valid()
      ensures actions == BroadcastRoster(View(), except)
    {
      var roster := CurrentRoster();
      actions := [];
      for i := 0 to W.MAX_CLIENTS
        invariant actions == Broadcast(slots[..], roster, except, i)
      {
        if slots[i].Some? && Some(slots[i].value.addr) != except {
          actions := actions + [Send(slots[i].value.addr, W.Roster(roster))];
        }
      }
    }

    method HelloReceived(addr: Addr, hello: W.Control, now: nat) returns (actions: seq<Action>)
      requires Valid()
      modifies slots
      ensures (View(), actions) == OnHello(old(View()), addr, hello, now)
    {
      if !hello.Hello? {
        return [];
      }
      if hello.version != W.PROTOCOL_VERSION {
        return [Send(addr, W.Deny(W.VersionMismatch))];
      }
      if hello.room != room {
        return [Send(addr, W.Deny(W.BadRoomCode))];
      }
      var known := Find(addr);
      if known.Some? {
        slots[known.value] := Some(slots[known.value].value.(name := hello.name, lastHeard := now, state := Pending(None, now, 1)));
        var welcome := MakeWelcome(known.value);
        return [Send(addr, welcome)];
      }
      var free := FindFree();
      if free.None? {
        return [Send(addr, W.Deny(W.RoomFull))];
      }
      slots[free.value] := Some(Slot(addr, hello.name, Pending(None, now, 1), now));
      var welcome := MakeWelcome(free.value);
      var rosters := Announce(Some(addr));
      return [Send(addr, welcome), ClientJoined(free.value + 1, hello.name)] + rosters;
    }

    method NoteWelcomeSent(to: Addr, s: u16)
      requires Valid()
      modifies slots
      ensures View() == WelcomeSent(old(View()), to, s)
    {
      for i := 0 to W.MAX_CLIENTS
        invariant forall j | 0 <= j < W.MAX_CLIENTS :: slots[j] == if j < i then Stamped(old(slots[j]), to, s) else old(slots[j])
      {
        if slots[i].Some? && slots[i].value.addr == to && slots[i].value.state.Pending? {
          slots[i] := Some(slots[i].value.(state := slots[i].value.state.(welcomeSeq := Some(s))));
        }
      }
    }

    method AckReceived(addr: Addr, s: u16, now: nat)
      requires Valid()
      modifies slots
      ensures View() == OnAck(old(View()), addr, s, now)
    {
      for i := 0 to W.MAX_CLIENTS
        invariant forall j | 0 <= j < W.MAX_CLIENTS :: slots[j] == if j < i then Acked(old(slots[j]), addr, s, now) else old(slots[j])
      {
        if slots[i].Some? && slots[i].value.addr == addr {
          slots[i] := Some(slots[i].value.(lastHeard := now));
          if slots[i].value.state.Pending? && slots[i].value.state.welcomeSeq == Some(s) {
            slots[i] := Some(slots[i].value.(state := Active));
          }
        }
      }
    }

    method Heard(sender: u16, now: nat)
      requires Valid()
      modifies slots
      ensures View() == MarkHeard(old(View()), sender, now)
    {
      if 1 <= sender <= W.MAX_CLIENTS && slots[sender - 1].Some? {
        slots[sender - 1] := Some(slots[sender - 1].value.(lastHeard := now));
        if slots[sender - 1].value.state.Pending? {
          slots[sender - 1] := Some(slots[sender - 1].value.(state := Active));
        }
      }
    }

    method ByeReceived(addr: Addr) returns (actions: seq<Action>)
      requires Valid()
      modifies slots
      ensures (View(), actions) == OnBye(old(View()), addr)
    {
      var left, removed := Remove(addr);
      actions := left;
      assert actions + [] == actions;
      if removed {
        var rosters := Announce(None);
        actions := actions + rosters;
      }
    }

    /** The first pass of `remove_where`. */
    method Remove(addr: Addr) returns (actions: seq<Action>, removed: bool)
      requires Valid()
      modifies slots
      ensures View() == Cleared(old(View()), addr)
      ensures actions == Lefts(Departing(old(slots[..]), addr), W.MAX_CLIENTS) && removed == (actions != [])
    {
      actions, removed := [], false;
      ghost var was: Slots := slots[..];
      ghost var reasons := Departing(was, addr);
      for i := 0 to W.MAX_CLIENTS
        invariant forall j | 0 <= j < W.MAX_CLIENTS :: slots[j] == if j < i && At(was, j, addr) then None else was[j]
        invariant actions == Lefts(reasons, i) && removed == (actions != [])
      {
        var gone := RemoveSlot(i, addr);
        if gone {
          actions := actions + [ClientLeft(i + 1, SaidBye)];
          removed := true;
        }
      }
    }

    method RemoveSlot(i: nat, addr: Addr) returns (gone: bool)
      requires Valid() && i < W.MAX_CLIENTS
      modifies slots
      ensures gone == At(old(slots[..]), i, addr)
      ensures slots[..] == old(slots[..])[i := if gone then None else old(slots[i])]
    {
      gone := slots[i].Some? && slots[i].value.addr == addr;
      if gone {
        slots[i] := None;
      }
    }

    method SweepSlot(i: nat, now: nat) returns (v: Verdict)
      requires Valid() && i < W.MAX_CLIENTS
      modifies slots
      ensures slots[..] == old(slots[..])[i := AfterTick(old(slots[i]), now)]
      ensures v == if old(slots[i]).Some? then Judge(old(slots[i]).value, now) else Keep
    {
      if slots[i].None? {
        return Keep;
      }
      var s := slots[i].value;
      if Monus(now, s.lastHeard) > PEER_TIMEOUT_MS {
        slots[i] := None;
        return Drop(WentSilent);
      }
      if s.state.Pending? && Monus(now, s.state.lastTx) >= CONTROL_RETRY_MS {
        if s.state.tries >= CONTROL_MAX_TRIES {
          slots[i] := None;
          return Drop(WelcomeUnacked);
        }
        slots[i] := Some(s.(state := s.state.(lastTx := now, tries := s.state.tries + 1)));
        return Resend;
      }
      return Keep;
    }

    /** The first pass over the slots: frees the overdue ones, counts a resend on those that are due. */
    method Sweep(now: nat) returns (left: seq<Action>, due: seq<nat>, dropped: bool)
      requires Valid()
      modifies slots
      ensures View() == Ticked(old(View()), now)
      ensures left == Lefts(Overdue(old(slots[..]), now), W.MAX_CLIENTS) && dropped == (left != [])
      ensures due == Due(old(slots[..]), now, W.MAX_CLIENTS)
    {
      left, due, dropped := [], [], false;
      ghost var was: Slots := slots[..];
      for i := 0 to W.MAX_CLIENTS
        invariant forall j | 0 <= j < W.MAX_CLIENTS :: slots[j] == if j < i then AfterTick(was[j], now) else was[j]
        invariant left == Lefts(Overdue(was, now), i) && dropped == (left != [])
        invariant due == Due(was, now, i)
      {
        var v := SweepSlot(i, now);
        match v
        case Keep =>
        case Resend => due := due + [i];
        case Drop(reason) =>
          left := left + [ClientLeft(i + 1, reason)];
          dropped := true;
      }
    }

    method ResendWelcomes(due: seq<nat>) returns (actions: seq<Action>)
      requires Valid() && forall k | 0 <= k < |due| :: due[k] < W.MAX_CLIENTS && slots[due[k]].Some?
      ensures actions == Welcomes(View(), due, RosterOf(View()))
    {
      actions := [];
      for k := 0 to |due|
        invariant actions == Welcomes(View(), due[..k], RosterOf(View()))
      {
        var welcome := MakeWelcome(due[k]);
        actions := actions + [Send(slots[due[k]].value.addr, welcome)];
        assert due[..k + 1][..k] == due[..k];
      }
      assert due[..|due|] == due;
    }

    method ClockTick(now: nat) returns (actions: seq<Action>)
      requires Valid()
      modifies slots
      ensures (View(), actions) == Tick(old(View()), now)
    {
      ghost var was: Slots := slots[..];
      var left, due, dropped := Sweep(now);
      var welcomes := ResendWelcomes(due);
      WelcomesRepeat(View(), was, now, W.MAX_CLIENTS, RosterOf(View()));
      actions := left + welcomes;
      assert actions + [] == actions;
      if dropped {
        var rosters := Announce(None);
        actions := actions + rosters;
      }
    }
  }
}
