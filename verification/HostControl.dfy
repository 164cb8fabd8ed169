/** The host's control loop (crates/jam-core/src/control.rs:114-342): it executes the handshake's actions
    and mirrors the address table, through queues, into the receive and transmit threads
    (crates/jam-core/src/net.rs:72-81, :155-162). */
module HostControl {
  import opened Common
  import opened Utf8
  import opened Seq16
  import opened Handshake
  import opened Membership
  import W = Wire

  /** `AddrUpdate::Client` */
  datatype Update = Update(slot: nat, addr: Option<Addr>)

  datatype Packet = Packet(to: Addr, seqno: u16, control: W.Control)

  /** A control packet the receive thread passes on. */
  datatype Event = Event(from: Addr, session: u16, control: W.Control)

  /** What the threads share about one client's stream: whether it is active, when the receive thread last
      noted an arrival (in microseconds; 0 for never), and how often its buffer has been reset. */
  datatype StreamShared = StreamShared(active: bool, lastRx: nat, resets: nat)

  type Streams = s: seq<StreamShared> | |s| == W.MAX_CLIENTS witness seq(W.MAX_CLIENTS, _ => StreamShared(false, 0, 0))

  /** A player's mute and solo switches; player 0 is the host. */
  datatype Switches = Switches(muted: bool, soloed: bool)

  const OFF := Switches(false, false)

  type Board = s: seq<Switches> | |s| == W.MAX_CLIENTS + 1 witness seq(W.MAX_CLIENTS + 1, _ => OFF)

  type Names = s: seq<Option<Text>> | |s| == W.MAX_CLIENTS witness seq(W.MAX_CLIENTS, _ => None)

  /** The loop's state: the machine, what it publishes to the other threads, the two queues, its timers,
      everything it has sent, and the log of the actions it has executed. */
  datatype Loop = Loop(host: Host, streams: Streams, board: Board, names: Names, toRx: seq<Update>, toTx: seq<Update>,
                       lastPing: nat, lastKeepalive: nat, next: u16, sent: seq<Packet>, log: seq<Action>)

  predicate Fits(a: Action) { a.ClientJoined? || a.ClientLeft? ==> 1 <= a.senderId <= W.MAX_CLIENTS }

  function Post(c: Loop, u: Update): Loop { c.(toRx := c.toRx + [u], toTx := c.toTx + [u]) }

  function Opened(s: StreamShared): StreamShared { StreamShared(true, 0, s.resets + 1) }

  function Closed(s: StreamShared): StreamShared { s.(active := false, resets := s.resets + 1) }

  /** Slot `i` is published as changed: its stream and name, and its player's switches off. */
  function Publish(c: Loop, i: nat, stream: StreamShared, name: Option<Text>): Loop
    requires i < W.MAX_CLIENTS
  {
    c.(streams := c.streams[i := stream], names := c.names[i := name], board := c.board[i + 1 := OFF])
  }

  function Perform(c: Loop, a: Action): Loop
    requires Fits(a)
  {
    match a
    case Send(to, control) =>
      c.(host := if control.Welcome? then WelcomeSent(c.host, to, c.next) else c.host,
         next := Wrap(c.next + 1), sent := c.sent + [Packet(to, c.next, control)])
    case ClientJoined(id, name) =>
      Post(Publish(c, id - 1, Opened(c.streams[id - 1]), Some(name)), Update(id - 1, Addrs(c.host.slots)[id - 1]))
    case ClientLeft(id, _) =>
      Post(Publish(c, id - 1, Closed(c.streams[id - 1]), None), Update(id - 1, None))
  }

  predicate AllFit(actions: seq<Action>) { forall a | a in actions :: Fits(a) }

  function Execute(c: Loop, actions: seq<Action>): Loop
    requires AllFit(actions)
    decreases actions
  {
    if actions == [] then c else Execute(Perform(c, actions[0]), actions[1..])
  }

  lemma StepFits(h: Host, e: Input)
    ensures AllFit(Step(h, e).1)
  {
    AnnouncementsAreTrue(h, e);
    forall a | a in Step(h, e).1 ensures Fits(a) {
      assert Truthful(a, Step(h, e).0);
    }
  }

  /** Feeds one input to the machine and executes what it answers. */
  function Handle(c: Loop, e: Input): Loop {
    var (h', out) := Step(c.host, e);
    StepFits(c.host, e);
    Execute(c.(host := h', log := c.log + out), out)
  }

  function AfterEvent(c: Loop, event: Option<Event>, now: nat): Loop {
    if event.None? then c
    else
      var from, control := event.value.from, event.value.control;
      var known := Position(c.host.slots, from);
      var c1 := if known.Some? then Handle(c, HeardFrom(known.value + 1, now)) else c;
      match control
      case Hello(_, _, _, _, _) => Handle(c1, HelloFrom(from, control, now))
      case Ack(s, _) => Handle(c1, AckFrom(from, s, now))
      case Bye => if event.value.session == c.host.session then Handle(c1, ByeFrom(from)) else c1
      case _ => c1
  }

  /** The receive thread notes arrivals at any time; these are the ones since the last turn's feed. */
  function Noted(c: Loop, noted: seq<Option<nat>>): Loop
    requires |noted| == W.MAX_CLIENTS
  {
    c.(streams := seq(W.MAX_CLIENTS, i requires 0 <= i < W.MAX_CLIENTS =>
         if noted[i].Some? then c.streams[i].(lastRx := noted[i].value) else c.streams[i]))
  }

  /** The liveness feed of the first `n` slots. */
  function Fed(c: Loop, n: nat): Loop
    requires n <= W.MAX_CLIENTS
  {
    if n == 0 then c
    else
      var c1 := Fed(c, n - 1);
      if c1.streams[n - 1].lastRx > 0 then Handle(c1, HeardFrom(n, c1.streams[n - 1].lastRx / 1000)) else c1
  }

  /** One control packet to each of the first `n` clients. */
  function SentToAll(c: Loop, packets: seq<W.Control>, n: nat): Loop
    requires n <= W.MAX_CLIENTS == |packets|
  {
    if n == 0 then c
    else
      var c1 := SentToAll(c, packets, n - 1);
      if c.host.slots[n - 1].Some? then Perform(c1, Send(c.host.slots[n - 1].value.addr, packets[n - 1])) else c1
  }

  function Pings(pingUs: seq<u64>): (r: seq<W.Control>)
    ensures |r| == |pingUs|
  {
    seq(|pingUs|, i requires 0 <= i < |pingUs| => W.Ping(pingUs[i]))
  }

  const KEEPALIVES := [W.Keepalive, W.Keepalive, W.Keepalive, W.Keepalive]

  function Pinged(c: Loop, now: nat, pingUs: seq<u64>): Loop
    requires |pingUs| == W.MAX_CLIENTS
  {
    if Monus(now, c.lastPing) >= PING_INTERVAL_MS then SentToAll(c.(lastPing := now), Pings(pingUs), W.MAX_CLIENTS) else c
  }

  function KeptAlive(c: Loop, now: nat): Loop {
    if Monus(now, c.lastKeepalive) >= KEEPALIVE_MS then SentToAll(c.(lastKeepalive := now), KEEPALIVES, W.MAX_CLIENTS) else c
  }

  /** What one turn of the loop meets: a packet or none, the time, the arrivals noted, and the times stamped
      on the pings. */
  datatype TurnInput = TurnInput(event: Option<Event>, now: nat, noted: seq<Option<nat>>, pingUs: seq<u64>) {
    predicate Valid() { |noted| == |pingUs| == W.MAX_CLIENTS }
  }

  function Turn(c: Loop, i: TurnInput): Loop
    requires i.Valid()
  {
    var c1 := Noted(AfterEvent(c, i.event, i.now), i.noted);
    KeptAlive(Pinged(Handle(Fed(c1, W.MAX_CLIENTS), ClockAt(i.now)), i.now, i.pingUs), i.now)
  }

  class HostLoop {
    const hs: HostHandshake
    const streams: array<StreamShared>
    const board: array<Switches>
    const names: array<Option<Text>>
    const seqGen: SeqGen
    var toRx: seq<Update>
    var toTx: seq<Update>
    var lastPing: nat
    var lastKeepalive: nat
    var sent: seq<Packet>
    ghost var log: seq<Action>

    ghost predicate Valid()
      reads this
    {
      streams.Length == W.MAX_CLIENTS && board.Length == W.MAX_CLIENTS + 1 && names.Length == W.MAX_CLIENTS && hs.Valid()
    }

    ghost function View(): Loop
      requires Valid()
      reads this, hs.slots, streams, board, names, seqGen
    {
      Loop(hs.View(), streams[..], board[..], names[..], toRx, toTx, lastPing, lastKeepalive, seqGen.current, sent, log)
    }

    constructor (room: W.RoomCode, session: u16, params: Params, hostName: Text)
      ensures Valid() && fresh(hs) && fresh(hs.slots) && fresh(streams) && fresh(board) && fresh(names) && fresh(seqGen)
      ensures View() == NewLoop(Host(room, session, params, hostName, NO_SLOTS))
    {
      hs := new HostHandshake(room, session, params, hostName);
      streams := new StreamShared[W.MAX_CLIENTS](_ => StreamShared(false, 0, 0));
      board := new Switches[W.MAX_CLIENTS + 1](_ => OFF);
      names := new Option<Text>[W.MAX_CLIENTS](_ => None);
      seqGen := new SeqGen();
      toRx, toTx, lastPing, lastKeepalive, sent, log := [], [], 0, 0, [], [];
    }

    method SendTo(to: Addr, control: W.Control)
      requires Valid()
      modifies this`sent, hs.slots, seqGen
      ensures Valid() && View() == Perform(old(View()), Send(to, control))
    {
      var s := seqGen.Next();
      sent := sent + [Packet(to, s, control)];
      if control.Welcome? {
        hs.NoteWelcomeSent(to, s);
      }
    }

    method PublishSlot(i: nat, stream: StreamShared, name: Option<Text>, addr: Option<Addr>)
      requires Valid() && i < W.MAX_CLIENTS
      modifies this`toRx, this`toTx, streams, board, names
      ensures Valid() && View() == Post(Publish(old(View()), i, stream, name), Update(i, addr))
    {
      streams[i] := stream;
      board[i + 1] := OFF;
      names[i] := name;
      toRx := toRx + [Update(i, addr)];
      toTx := toTx + [Update(i, addr)];
    }

    method PerformAction(a: Action)
      requires Valid() && Fits(a)
      modifies this`toRx, this`toTx, this`sent, hs.slots, streams, board, names, seqGen
      ensures Valid() && View() == Perform(old(View()), a)
    {
      match a
      case Send(to, control) =>
        SendTo(to, control);
      case ClientJoined(id, name) =>
        var addr := if hs.slots[id - 1].Some? then Some(hs.slots[id - 1].value.addr) else None;
        PublishSlot(id - 1, Opened(streams[id - 1]), Some(name), addr);
      case ClientLeft(id, _) =>
        PublishSlot(id - 1, Closed(streams[id - 1]), None, None);
    }

    method RunActions(actions: seq<Action>)
      requires Valid() && AllFit(actions)
      modifies this`toRx, this`toTx, this`sent, this`log, hs.slots, streams, board, names, seqGen
      ensures Valid() && View() == Execute(old(View().(log := log + actions)), actions)
    {
      log := log + actions;
      ghost var start := View();
      for k := 0 to |actions|
        invariant Execute(start, actions) == Execute(View(), actions[k..])
      {
        PerformAction(actions[k]);
        assert actions[k..][1..] == actions[k + 1..];
      }
    }

    method OnEvent(event: Event, now: nat)
      requires Valid()
      modifies this, hs.slots, streams, board, names, seqGen
      ensures Valid() && View() == AfterEvent(old(View()), Some(event), now)
    {
      var known := hs.Find(event.from);
      if known.Some? {
        MarkHeard(known.value + 1, now);
      }
      Dispatch(event, now);
    }

    method MarkHeard(sender: u16, now: nat)
      requires Valid()
      modifies hs.slots
      ensures Valid() && View() == Handle(old(View()), HeardFrom(sender, now))
    {
      hs.Heard(sender, now);
      assert log + [] == log;
    }

    method Dispatch(event: Event, now: nat)
      requires Valid()
      modifies this, hs.slots, streams, board, names, seqGen
      ensures Valid()
      ensures View() == (match event.control
        case Hello(_, _, _, _, _) => Handle(old(View()), HelloFrom(event.from, event.control, now))
        case Ack(s, _) => Handle(old(View()), AckFrom(event.from, s, now))
        case Bye => if event.session == hs.session then Handle(old(View()), ByeFrom(event.from)) else old(View())
        case _ => old(View()))
    {
      match event.control
      case Hello(_, _, _, _, _) =>
        GreetClient(event, now);
      case Ack(s, _) =>
        hs.AckReceived(event.from, s, now);
        assert log + [] == log;
      case Bye =>
        if event.session == hs.session {
          StepFits(hs.View(), ByeFrom(event.from));
          var actions := hs.ByeReceived(event.from);
          RunActions(actions);
        }
      case _ =>
    }

    method GreetClient(event: Event, now: nat)
      requires Valid() && event.control.Hello?
      modifies this, hs.slots, streams, board, names, seqGen
      ensures Valid() && View() == Handle(old(View()), HelloFrom(event.from, event.control, now))
    {
      StepFits(hs.View(), HelloFrom(event.from, event.control, now));
      var actions := hs.HelloReceived(event.from, event.control, now);
      RunActions(actions);
    }

    /** One turn; the receive thread notes its arrivals while this one handles a packet. */
    method Iterate(i: TurnInput)
      requires Valid() && i.Valid()
      modifies this, hs.slots, streams, board, names, seqGen
      ensures Valid() && View() == Turn(old(View()), i)
    {
      if i.event.Some? {
        OnEvent(i.event.value, i.now);
      }
      NoteArrivals(i.noted);
      FeedLiveness();
      TickHandshake(i.now);
      PingClients(i.now, i.pingUs);
      KeepClientsAlive(i.now);
    }

    /** The receive thread's stores. */
    method NoteArrivals(noted: seq<Option<nat>>)
      requires Valid() && |noted| == W.MAX_CLIENTS
      modifies streams
      ensures Valid() && View() == Noted(old(View()), noted)
    {
      for i := 0 to W.MAX_CLIENTS
        invariant forall j | 0 <= j < W.MAX_CLIENTS ::
                    streams[j] == if j < i && noted[j].Some? then old(streams[j]).(lastRx := noted[j].value) else old(streams[j])
      {
        if noted[i].Some? {
          streams[i] := streams[i].(lastRx := noted[i].value);
        }
      }
    }

    method FeedLiveness()
      requires Valid()
      modifies hs.slots
      ensures Valid() && View() == Fed(old(View()), W.MAX_CLIENTS)
    {
      for slot := 0 to W.MAX_CLIENTS
        invariant View() == Fed(old(View()), slot)
      {
        if streams[slot].lastRx > 0 {
          MarkHeard(slot + 1, streams[slot].lastRx / 1000);
        }
      }
    }

    method TickHandshake(now: nat)
      requires Valid()
      modifies this`toRx, this`toTx, this`sent, this`log, hs.slots, streams, board, names, seqGen
      ensures Valid() && View() == Handle(old(View()), ClockAt(now))
    {
      StepFits(hs.View(), ClockAt(now));
      var actions := hs.ClockTick(now);
      RunActions(actions);
    }

    method SendToAll(packets: seq<W.Control>)
      requires Valid() && |packets| == W.MAX_CLIENTS && forall k | 0 <= k < W.MAX_CLIENTS :: !packets[k].Welcome?
      modifies this`sent, hs.slots, seqGen
      ensures Valid() && View() == SentToAll(old(View()), packets, W.MAX_CLIENTS)
    {
      for i := 0 to W.MAX_CLIENTS
        invariant View() == SentToAll(old(View()), packets, i) && hs.slots[..] == old(hs.slots[..])
      {
        if hs.slots[i].Some? {
          SendTo(hs.slots[i].value.addr, packets[i]);
        }
      }
    }

    method PingClients(now: nat, pingUs: seq<u64>)
      requires Valid() && |pingUs| == W.MAX_CLIENTS
      modifies this`sent, this`lastPing, hs.slots, seqGen
      ensures Valid() && View() == Pinged(old(View()), now, pingUs)
    {
      if Monus(now, lastPing) >= PING_INTERVAL_MS {
        lastPing := now;
        SendToAll(Pings(pingUs));
      }
    }

    method KeepClientsAlive(now: nat)
      requires Valid()
      modifies this`sent, this`lastKeepalive, hs.slots, seqGen
      ensures Valid() && View() == KeptAlive(old(View()), now)
    {
      if Monus(now, lastKeepalive) >= KEEPALIVE_MS {
        lastKeepalive := now;
        SendToAll(KEEPALIVES);
      }
    }
  }

  function NewLoop(h: Host): Loop {
    Loop(h, seq(W.MAX_CLIENTS, _ => StreamShared(false, 0, 0)), seq(W.MAX_CLIENTS + 1, _ => OFF), seq(W.MAX_CLIENTS, _ => None),
         [], [], 0, 0, 0, [], [])
  }

  // ---------------------------------------------------------------- the mirrored tables

  type Table = s: seq<Option<Addr>> | |s| == W.MAX_CLIENTS witness seq(W.MAX_CLIENTS, _ => None)

  const EMPTY_TABLE: Table := seq(W.MAX_CLIENTS, _ => None)

  /** A thread takes one update; an index out of range is ignored. */
  function Take(t: Table, u: Update): Table { if u.slot < W.MAX_CLIENTS then t[u.slot := u.addr] else t }

  function Apply(t: Table, queue: seq<Update>): Table
    decreases queue
  {
    if queue == [] then t else Apply(Take(t, queue[0]), queue[1..])
  }

  lemma {:induction false} ApplySnoc(t: Table, queue: seq<Update>, u: Update)
    ensures Apply(t, queue + [u]) == Take(Apply(t, queue), u)
    decreases queue
  {
    if queue == [] {
      assert (queue + [u])[1..] == [];
    } else {
      assert (queue + [u])[1..] == queue[1..] + [u];
      ApplySnoc(Take(t, queue[0]), queue[1..], u);
    }
  }

  /** The draining loop of the receive and the transmit thread. */
  method DrainUpdates(table: array<Option<Addr>>, queue: seq<Update>)
    requires table.Length == W.MAX_CLIENTS
    modifies table
    ensures table[..] == Apply(old(table[..]), queue)
  {
    ghost var start: Table := table[..];
    for k := 0 to |queue|
      invariant Apply(start, queue) == Apply(table[..], queue[k..])
    {
      if queue[k].slot < W.MAX_CLIENTS {
        table[queue[k].slot] := queue[k].addr;
      }
      assert queue[k..][1..] == queue[k + 1..];
    }
  }

  /** The control loop with the two threads that keep a copy of its table. */
  datatype System = System(c: Loop, rx: Table, tx: Table)

  datatype Move = Control(input: TurnInput) | RxTakes | TxTakes

  predicate Possible(s: System, m: Move) {
    match m
    case Control(input) => input.Valid()
    case RxTakes => s.c.toRx != []
    case TxTakes => s.c.toTx != []
  }

  function Do(s: System, m: Move): System
    requires Possible(s, m)
  {
    match m
    case Control(input) => s.(c := Turn(s.c, input))
    case RxTakes => s.(rx := Take(s.rx, s.c.toRx[0]), c := s.c.(toRx := s.c.toRx[1..]))
    case TxTakes => s.(tx := Take(s.tx, s.c.toTx[0]), c := s.c.(toTx := s.c.toTx[1..]))
  }

  predicate AllPossible(s: System, ms: seq<Move>)
    decreases ms
  {
    ms != [] ==> Possible(s, ms[0]) && AllPossible(Do(s, ms[0]), ms[1..])
  }

  function RunSystem(s: System, ms: seq<Move>): System
    requires AllPossible(s, ms)
    decreases ms
  {
    if ms == [] then s else RunSystem(Do(s, ms[0]), ms[1..])
  }

  /** The name in the last of these reports, if it is a join. */
  function JoinedName(events: seq<Action>): Option<Text> {
    if events != [] && events[|events| - 1].ClientJoined? then Some(events[|events| - 1].name) else None
  }

  /** Everything the loop publishes about slot `i` agrees with the machine: the flag, both tables once their
      queues are drained, and the order of joins and leaves so far; the name is the one its client joined
      under. */
  ghost predicate SlotMirrored(s: System, i: nat)
    requires i < W.MAX_CLIENTS
  {
    var slot := s.c.host.slots[i];
    && (s.c.streams[i].active <==> slot.Some?)
    && s.c.streams[i].resets == |Select(s.c.log, PresenceOf(i + 1))|
    && (s.c.names[i].Some? <==> slot.Some?)
    && s.c.names[i] == JoinedName(Select(s.c.log, PresenceOf(i + 1)))
    && Apply(s.rx, s.c.toRx)[i] == Addrs(s.c.host.slots)[i]
    && Apply(s.tx, s.c.toTx)[i] == Addrs(s.c.host.slots)[i]
    && Alternates(Select(s.c.log, PresenceOf(i + 1)), false, slot.Some?)
  }

  ghost predicate Mirrored(s: System) {
    Distinct(s.c.host.slots) && forall i | 0 <= i < W.MAX_CLIENTS :: SlotMirrored(s, i)
  }

  /** What executing the actions of one step does to slot `i`: nothing, or what its one event says. */
  ghost predicate Effect(c: Loop, c': Loop, rx: Table, tx: Table, events: seq<Action>, i: nat)
    requires i < W.MAX_CLIENTS
  {
    && Addrs(c'.host.slots) == Addrs(c.host.slots) && c'.log == c.log
    && if events == [] then
         && c'.streams[i] == c.streams[i] && c'.names[i] == c.names[i] && c'.board[i + 1] == c.board[i + 1]
         && Apply(rx, c'.toRx)[i] == Apply(rx, c.toRx)[i] && Apply(tx, c'.toTx)[i] == Apply(tx, c.toTx)[i]
       else
         var addr := if events[0].ClientJoined? then Addrs(c.host.slots)[i] else None;
         && (c'.streams[i].active <==> events[0].ClientJoined?) && c'.streams[i].resets == c.streams[i].resets + 1
         && (events[0].ClientJoined? ==> c'.streams[i].lastRx == 0) && c'.board[i + 1] == OFF
         && c'.names[i] == (if events[0].ClientJoined? then Some(events[0].name) else None)
         && Apply(rx, c'.toRx)[i] == addr && Apply(tx, c'.toTx)[i] == addr
  }

  lemma PublishEffect(c: Loop, id: nat, stream: StreamShared, name: Option<Text>, addr: Option<Addr>, rx: Table, tx: Table, i: nat)
    requires 1 <= id <= W.MAX_CLIENTS && i < W.MAX_CLIENTS
    ensures var c' := Post(Publish(c, id - 1, stream, name), Update(id - 1, addr));
            && c'.streams[i] == (if i + 1 == id then stream else c.streams[i])
            && c'.names[i] == (if i + 1 == id then name else c.names[i])
            && c'.board[i + 1] == (if i + 1 == id then OFF else c.board[i + 1])
            && Apply(rx, c'.toRx)[i] == (if i + 1 == id then addr else Apply(rx, c.toRx)[i])
            && Apply(tx, c'.toTx)[i] == (if i + 1 == id then addr else Apply(tx, c.toTx)[i])
  {
    ApplySnoc(rx, c.toRx, Update(id - 1, addr));
    ApplySnoc(tx, c.toTx, Update(id - 1, addr));
  }

  lemma PerformEffect(c: Loop, a: Action, rx: Table, tx: Table, i: nat)
    requires Fits(a) && i < W.MAX_CLIENTS
    ensures Effect(c, Perform(c, a), rx, tx, if Is(a, PresenceOf(i + 1)) then [a] else [], i)
  {
    match a
    case Send(to, _) =>
      assert Addrs(Perform(c, a).host.slots) == Addrs(c.host.slots);
    case ClientJoined(id, name) =>
      PublishEffect(c, id, Opened(c.streams[id - 1]), Some(name), Addrs(c.host.slots)[id - 1], rx, tx, i);
    case ClientLeft(id, _) =>
      PublishEffect(c, id, Closed(c.streams[id - 1]), None, None, rx, tx, i);
  }

  lemma {:induction false} ExecuteEffect(c: Loop, actions: seq<Action>, rx: Table, tx: Table, i: nat)
    requires AllFit(actions) && i < W.MAX_CLIENTS && |Select(actions, PresenceOf(i + 1))| <= 1
    ensures Effect(c, Execute(c, actions), rx, tx, Select(actions, PresenceOf(i + 1)), i)
    decreases actions
  {
    if actions != [] {
      PerformEffect(c, actions[0], rx, tx, i);
      ExecuteEffect(Perform(c, actions[0]), actions[1..], rx, tx, i);
    }
  }

  lemma {:induction false} AlternatesAppend(a: seq<Action>, b: seq<Action>, x: bool, y: bool, z: bool)
    requires Alternates(a, x, y) && Alternates(b, y, z)
    ensures Alternates(a + b, x, z)
    decreases a
  {
    if a == [] {
      assert a + b == b;
    } else {
      assert (a + b)[1..] == a[1..] + b;
      AlternatesAppend(a[1..], b, !x, y, z);
    }
  }

  lemma ReportAlternates(events: seq<Action>, i: nat, slots: Slots, slots': Slots)
    requires i < W.MAX_CLIENTS && Reports(events, i, slots, slots')
    ensures |events| <= 1 && Alternates(events, slots[i].Some?, slots'[i].Some?)
  {
  }

  /** After a step's actions: what it reported of the slot, appended to what was reported before, says what
      the slot has become. */
  lemma ReportMirrors(s: System, c: Loop, c': Loop, events: seq<Action>, i: nat)
    requires i < W.MAX_CLIENTS && SlotMirrored(s, i) && Reports(events, i, s.c.host.slots, c.host.slots)
    requires Effect(c, c', s.rx, s.tx, events, i)
    requires c.streams == s.c.streams && c.names == s.c.names && c.toRx == s.c.toRx && c.toTx == s.c.toTx
    requires Select(c.log, PresenceOf(i + 1)) == Select(s.c.log, PresenceOf(i + 1)) + events
    ensures SlotMirrored(s.(c := c'), i)
  {
    ReportAlternates(events, i, s.c.host.slots, c.host.slots);
    AlternatesAppend(Select(s.c.log, PresenceOf(i + 1)), events, false, s.c.host.slots[i].Some?, c.host.slots[i].Some?);
    assert Addrs(c'.host.slots)[i] == Addrs(c.host.slots)[i];
    if events == [] {
      assert Select(c.log, PresenceOf(i + 1)) == Select(s.c.log, PresenceOf(i + 1));
    }
  }

  lemma HandleMirrorsSlot(s: System, e: Input, i: nat)
    requires Distinct(s.c.host.slots) && i < W.MAX_CLIENTS && SlotMirrored(s, i)
    ensures SlotMirrored(s.(c := Handle(s.c, e)), i)
    ensures Addrs(Handle(s.c, e).host.slots) == Addrs(Step(s.c.host, e).0.slots)
  {
    var (h', out) := Step(s.c.host, e);
    var c1, events := s.c.(host := h', log := s.c.log + out), Select(out, PresenceOf(i + 1));
    PresenceFollowsSlots(s.c.host, e, i);
    ReportAlternates(events, i, s.c.host.slots, h'.slots);
    StepFits(s.c.host, e);
    ExecuteEffect(c1, out, s.rx, s.tx, i);
    SelectConcat(s.c.log, out, PresenceOf(i + 1));
    ReportMirrors(s, c1, Execute(c1, out), events, i);
  }

  lemma HandleMirrors(s: System, e: Input)
    requires Mirrored(s)
    ensures Mirrored(s.(c := Handle(s.c, e)))
  {
    forall i | 0 <= i < W.MAX_CLIENTS ensures SlotMirrored(s.(c := Handle(s.c, e)), i) {
      HandleMirrorsSlot(s, e, i);
    }
    HandleMirrorsSlot(s, e, 0);
    StepKeepsDistinct(s.c.host, e);
    SameAddrsDistinct(Step(s.c.host, e).0.slots, Handle(s.c, e).host.slots);
  }

  lemma SameAddrsDistinct(slots: Slots, slots': Slots)
    requires Distinct(slots) && Addrs(slots) == Addrs(slots')
    ensures Distinct(slots')
  {
    forall i | 0 <= i < W.MAX_CLIENTS && slots'[i].Some? ensures slots[i].Some? && slots'[i].value.addr == slots[i].value.addr {
      assert Addrs(slots)[i] == Addrs(slots')[i];
    }
    ShrinkKeepsDistinct(slots, slots');
  }

  lemma EventMirrors(s: System, event: Option<Event>, now: nat)
    requires Mirrored(s)
    ensures Mirrored(s.(c := AfterEvent(s.c, event, now)))
  {
    if event.Some? {
      var from, control := event.value.from, event.value.control;
      var known := Position(s.c.host.slots, from);
      var s1 := s;
      if known.Some? {
        HandleMirrors(s, HeardFrom(known.value + 1, now));
        s1 := s.(c := Handle(s.c, HeardFrom(known.value + 1, now)));
      }
      match control
      case Hello(_, _, _, _, _) => HandleMirrors(s1, HelloFrom(from, control, now));
      case Ack(q, _) => HandleMirrors(s1, AckFrom(from, q, now));
      case Bye => HandleMirrors(s1, ByeFrom(from));
      case _ =>
    }
  }

  lemma {:induction false} FeedMirrors(s: System, n: nat)
    requires Mirrored(s) && n <= W.MAX_CLIENTS
    ensures Mirrored(s.(c := Fed(s.c, n)))
  {
    if n > 0 {
      FeedMirrors(s, n - 1);
      var c1 := Fed(s.c, n - 1);
      if c1.streams[n - 1].lastRx > 0 {
        HandleMirrors(s.(c := c1), HeardFrom(n, c1.streams[n - 1].lastRx / 1000));
      }
    }
  }

  /** Nothing the tables, flags, names and log say depends on timers, numbers or what else was sent. */
  predicate SamePublished(c: Loop, c': Loop) {
    && c'.host == c.host && c'.names == c.names && c'.toRx == c.toRx && c'.toTx == c.toTx && c'.log == c.log
    && forall i | 0 <= i < W.MAX_CLIENTS :: c'.streams[i].active == c.streams[i].active && c'.streams[i].resets == c.streams[i].resets
  }

  lemma SamePublishedMirrors(s: System, c': Loop)
    requires Mirrored(s) && SamePublished(s.c, c')
    ensures Mirrored(s.(c := c'))
  {
    forall i | 0 <= i < W.MAX_CLIENTS ensures SlotMirrored(s.(c := c'), i) {
      assert SlotMirrored(s, i);
    }
  }

  lemma {:induction false} SentToAllPublishesNothing(c: Loop, packets: seq<W.Control>, n: nat)
    requires n <= W.MAX_CLIENTS == |packets| && forall k | 0 <= k < W.MAX_CLIENTS :: !packets[k].Welcome?
    ensures SamePublished(c, SentToAll(c, packets, n)) && SentToAll(c, packets, n).streams == c.streams
  {
    if n > 0 { SentToAllPublishesNothing(c, packets, n - 1); }
  }

  lemma TimersPublishNothing(c: Loop, now: nat, pingUs: seq<u64>)
    requires |pingUs| == W.MAX_CLIENTS
    ensures SamePublished(c, KeptAlive(Pinged(c, now, pingUs), now)) && KeptAlive(Pinged(c, now, pingUs), now).streams == c.streams
  {
    SentToAllPublishesNothing(c.(lastPing := now), Pings(pingUs), W.MAX_CLIENTS);
    SentToAllPublishesNothing(Pinged(c, now, pingUs).(lastKeepalive := now), KEEPALIVES, W.MAX_CLIENTS);
  }

  lemma TurnMirrors(s: System, i: TurnInput)
    requires Mirrored(s) && i.Valid()
    ensures Mirrored(s.(c := Turn(s.c, i)))
  {
    var c1 := AfterEvent(s.c, i.event, i.now);
    var c2 := Noted(c1, i.noted);
    EventMirrors(s, i.event, i.now);
    SamePublishedMirrors(s.(c := c1), c2);
    FeedMirrors(s.(c := c2), W.MAX_CLIENTS);
    HandleMirrors(s.(c := Fed(c2, W.MAX_CLIENTS)), ClockAt(i.now));
    var c3 := Handle(Fed(c2, W.MAX_CLIENTS), ClockAt(i.now));
    TimersPublishNothing(c3, i.now, i.pingUs);
    SamePublishedMirrors(s.(c := c3), Turn(s.c, i));
  }

  lemma MoveMirrors(s: System, m: Move)
    requires Mirrored(s) && Possible(s, m)
    ensures Mirrored(Do(s, m))
  {
    match m
    case Control(input) =>
      TurnMirrors(s, input);
    case _ =>
      forall i | 0 <= i < W.MAX_CLIENTS ensures SlotMirrored(Do(s, m), i) {
        assert SlotMirrored(s, i);
      }
  }

  lemma {:induction false} RunMirrors(s: System, ms: seq<Move>)
    requires Mirrored(s) && AllPossible(s, ms)
    ensures Mirrored(RunSystem(s, ms))
    decreases ms
  {
    if ms != [] {
      MoveMirrors(s, ms[0]);
      RunMirrors(Do(s, ms[0]), ms[1..]);
    }
  }

  lemma StartMirrors(h: Host)
    requires h.slots == NO_SLOTS
    ensures Mirrored(System(NewLoop(h), EMPTY_TABLE, EMPTY_TABLE))
  {
    forall i | 0 <= i < W.MAX_CLIENTS ensures SlotMirrored(System(NewLoop(h), EMPTY_TABLE, EMPTY_TABLE), i) {
    }
  }

  /** A queue, once drained, gives exactly the machine's table. */
  lemma MirroredTables(s: System)
    requires Mirrored(s)
    ensures Apply(s.rx, s.c.toRx) == Addrs(s.c.host.slots) && Apply(s.tx, s.c.toTx) == Addrs(s.c.host.slots)
  {
    forall i | 0 <= i < W.MAX_CLIENTS
      ensures Apply(s.rx, s.c.toRx)[i] == Addrs(s.c.host.slots)[i] && Apply(s.tx, s.c.toTx)[i] == Addrs(s.c.host.slots)[i]
    {
      assert SlotMirrored(s, i);
    }
  }

  /** From the start of a session, whatever packets come and whenever the other threads take their updates:
      at every turn of the loop addresses are distinct, draining either queue gives exactly the machine's
      table, and for every slot the published flag and name say whether it is occupied and its joins and
      leaves alternate. */
  lemma TablesMirrorTheSession(h: Host, ms: seq<Move>)
    requires h.slots == NO_SLOTS && AllPossible(System(NewLoop(h), EMPTY_TABLE, EMPTY_TABLE), ms)
    ensures var s := RunSystem(System(NewLoop(h), EMPTY_TABLE, EMPTY_TABLE), ms);
            && Distinct(s.c.host.slots)
            && Apply(s.rx, s.c.toRx) == Addrs(s.c.host.slots) && Apply(s.tx, s.c.toTx) == Addrs(s.c.host.slots)
            && forall i | 0 <= i < W.MAX_CLIENTS :: SlotMirrored(s, i)
  {
    StartMirrors(h);
    RunMirrors(System(NewLoop(h), EMPTY_TABLE, EMPTY_TABLE), ms);
    MirroredTables(RunSystem(System(NewLoop(h), EMPTY_TABLE, EMPTY_TABLE), ms));
  }
}
