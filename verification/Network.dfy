/** Host and clients over a network that may lose, duplicate, delay and reorder. What the host has sent is a
    set of envelopes; a delivery picks any of them, at any time, any number of times. What reaches the host
    is left entirely open: its steps take arbitrary inputs. */
module Network {
  import opened Common
  import opened Utf8
  import opened Handshake
  import opened Membership
  import W = Wire

  /** A message of the host; `at` is the number of steps the host had made when it was sent. */
  datatype Envelope = Envelope(to: Addr, control: W.Control, at: nat)

  /** A client, and the WELCOME it joined on. */
  datatype Client = Client(hello: W.Control, phase: Phase, grant: Option<Envelope>)

  /** The host's states so far, the inputs between them, and the rest of the world. */
  datatype Net = Net(hosts: seq<Host>, inputs: seq<Input>, wire: set<Envelope>, clients: map<Addr, Client>)

  datatype Event =
    | HostStep(e: Input)
    | StartClient(a: Addr, room: W.RoomCode, name: Text, now: nat)
    | ClientClock(a: Addr, now: nat)
    | Deliver(env: Envelope)

  predicate Possible(n: Net, e: Event) {
    match e
    case HostStep(_) => n.hosts != []
    case StartClient(_, _, _, _) => true
    case ClientClock(a, _) => a in n.clients
    case Deliver(env) => env in n.wire && env.to in n.clients
  }

  function Mail(actions: seq<Action>, at: nat): set<Envelope> {
    set a | a in actions && a.Send? :: Envelope(a.to, a.control, at)
  }

  function Receive(c: Client, env: Envelope): Client {
    var phase' := ClientOnControl(c.phase, env.control).0;
    c.(phase := phase', grant := if c.phase.Joining? && phase'.Joined? then Some(env) else c.grant)
  }

  function Next(n: Net, e: Event): Net
    requires Possible(n, e)
  {
    match e
    case HostStep(input) =>
      var (h', out) := Step(n.hosts[|n.hosts| - 1], input);
      n.(hosts := n.hosts + [h'], inputs := n.inputs + [input], wire := n.wire + Mail(out, |n.hosts|))
    case StartClient(a, room, name, now) =>
      var hello := HelloFor(room, name);
      n.(clients := n.clients[a := Client(hello, ClientStart(hello, now).0, None)])
    case ClientClock(a, now) =>
      var c := n.clients[a];
      n.(clients := n.clients[a := c.(phase := ClientTick(c.phase, c.hello, now).0)])
    case Deliver(env) =>
      n.(clients := n.clients[env.to := Receive(n.clients[env.to], env)])
  }

  predicate AllPossible(n: Net, es: seq<Event>)
    decreases es
  {
    es != [] ==> Possible(n, es[0]) && AllPossible(Next(n, es[0]), es[1..])
  }

  function RunNet(n: Net, es: seq<Event>): Net
    requires AllPossible(n, es)
    decreases es
  {
    if es == [] then n else RunNet(Next(n, es[0]), es[1..])
  }

  function NewNet(h: Host): Net { Net([h], [], {}, map[]) }

  // ---------------------------------------------------------------- invariant

  ghost predicate History(hosts: seq<Host>, inputs: seq<Input>) {
    && |hosts| == |inputs| + 1
    && (forall k | 0 <= k < |hosts| :: Distinct(hosts[k].slots))
    && (forall k | 0 <= k < |inputs| :: hosts[k + 1] == Step(hosts[k], inputs[k]).0)
  }

  function Current(n: Net): Host
    requires n.hosts != []
  {
    n.hosts[|n.hosts| - 1]
  }

  /** A WELCOME on the wire was true when it was sent. */
  ghost predicate Genuine(env: Envelope, hosts: seq<Host>) {
    && 0 < env.at < |hosts|
    && Truthful(Send(env.to, env.control), hosts[env.at])
  }

  ghost predicate Backed(a: Addr, c: Client, wire: set<Envelope>) {
    c.phase.Joined? ==>
      && c.grant.Some? && c.grant.value in wire && c.grant.value.to == a
      && match c.grant.value.control
         case Welcome(id, session, rate, samples, codec, _) =>
           c.phase == Joined(id, session, Params(rate, samples, codec))
         case _ => false
  }

  ghost predicate Inv(n: Net) {
    && History(n.hosts, n.inputs)
    && (forall env | env in n.wire :: Genuine(env, n.hosts))
    && (forall a | a in n.clients :: Backed(a, n.clients[a], n.wire))
  }

  lemma HistoryGrows(hosts: seq<Host>, inputs: seq<Input>, input: Input)
    requires History(hosts, inputs)
    ensures History(hosts + [Step(hosts[|hosts| - 1], input).0], inputs + [input])
  {
    StepKeepsDistinct(hosts[|hosts| - 1], input);
  }

  lemma MailIsGenuine(n: Net, input: Input, env: Envelope)
    requires History(n.hosts, n.inputs) && env in Next(n, HostStep(input)).wire && (env in n.wire ==> Genuine(env, n.hosts))
    ensures Genuine(env, Next(n, HostStep(input)).hosts)
  {
    var (h', out) := Step(n.hosts[|n.hosts| - 1], input);
    if env !in n.wire {
      AnnouncementsAreTrue(n.hosts[|n.hosts| - 1], input);
      assert Truthful(Send(env.to, env.control), h');
    }
  }

  lemma HostStepKeepsInv(n: Net, input: Input)
    requires Inv(n)
    ensures Inv(Next(n, HostStep(input)))
  {
    var n' := Next(n, HostStep(input));
    HistoryGrows(n.hosts, n.inputs, input);
    forall env | env in n'.wire ensures Genuine(env, n'.hosts) {
      MailIsGenuine(n, input, env);
    }
    ClientsStayBacked(n, n');
  }

  lemma ClientsStayBacked(n: Net, n': Net)
    requires n'.clients == n.clients && n.wire <= n'.wire && forall a | a in n.clients :: Backed(a, n.clients[a], n.wire)
    ensures forall a | a in n'.clients :: Backed(a, n'.clients[a], n'.wire)
  {
    forall a | a in n'.clients ensures Backed(a, n'.clients[a], n'.wire) {
      assert Backed(a, n.clients[a], n.wire);
    }
  }

  lemma ClientStepKeepsInv(n: Net, e: Event)
    requires Inv(n) && Possible(n, e) && !e.HostStep?
    ensures Inv(Next(n, e))
  {
    var n' := Next(n, e);
    forall a | a in n'.clients ensures Backed(a, n'.clients[a], n'.wire) {
      if a in n.clients { assert Backed(a, n.clients[a], n.wire); }
    }
  }

  lemma {:induction false} RunKeepsInv(n: Net, es: seq<Event>)
    requires Inv(n) && AllPossible(n, es)
    ensures Inv(RunNet(n, es))
    decreases es
  {
    if es != [] {
      if es[0].HostStep? { HostStepKeepsInv(n, es[0].e); } else { ClientStepKeepsInv(n, es[0]); }
      RunKeepsInv(Next(n, es[0]), es[1..]);
    }
  }

  // ---------------------------------------------------------------- grants

  /** The host reported the client with this id as gone in one of the steps from state `k` on. */
  ghost predicate EndedSince(n: Net, k: nat, id: nat)
    requires History(n.hosts, n.inputs)
  {
    exists j | k <= j < |n.inputs| :: LeftIn(n, j, id)
  }

  ghost predicate LeftIn(n: Net, j: nat, id: nat)
    requires History(n.hosts, n.inputs) && j < |n.inputs|
  {
    exists a :: a in Step(n.hosts[j], n.inputs[j]).1 && a.ClientLeft? && a.senderId == id
  }

  lemma {:induction false} SelectIn(actions: seq<Action>, k: Kind, a: Action)
    requires a in Select(actions, k)
    ensures a in actions
    decreases actions
  {
    if a in Select(actions[1..], k) { SelectIn(actions[1..], k, a); }
  }

  lemma SlotKeptUnlessLeft(n: Net, j: nat, i: nat, a: Addr)
    requires History(n.hosts, n.inputs) && j < |n.inputs| && At(n.hosts[j].slots, i, a)
    ensures At(n.hosts[j + 1].slots, i, a) || LeftIn(n, j, i + 1)
  {
    var (h', out) := Step(n.hosts[j], n.inputs[j]);
    PresenceFollowsSlots(n.hosts[j], n.inputs[j], i);
    if h'.slots[i].None? {
      SelectIn(out, PresenceOf(i + 1), Select(out, PresenceOf(i + 1))[0]);
    } else {
      assert Addrs(h'.slots)[i] == Addrs(n.hosts[j].slots)[i];
    }
  }

  lemma {:induction false} GrantHolds(n: Net, k: nat, m: nat, i: nat, a: Addr)
    requires History(n.hosts, n.inputs) && k <= m < |n.hosts| && At(n.hosts[k].slots, i, a) && !EndedSince(n, k, i + 1)
    ensures At(n.hosts[m].slots, i, a)
    decreases m
  {
    if k < m {
      GrantHolds(n, k, m - 1, i, a);
      SlotKeptUnlessLeft(n, m - 1, i, a);
    }
  }

  predicate SameSession(h: Host, h': Host) { h'.session == h.session && h'.params == h.params }

  lemma StepKeepsSession(h: Host, e: Input)
    ensures SameSession(h, Step(h, e).0)
  {
  }

  lemma HistoryIsOneSession(hosts: seq<Host>, inputs: seq<Input>)
    requires History(hosts, inputs)
    ensures forall j | 0 < j < |hosts| :: SameSession(hosts[j - 1], hosts[j])
  {
    forall j | 0 < j < |hosts| ensures SameSession(hosts[j - 1], hosts[j]) {
      StepKeepsSession(hosts[j - 1], inputs[j - 1]);
    }
  }

  lemma {:induction false} SessionIsFixed(hosts: seq<Host>, k: nat, m: nat)
    requires k <= m < |hosts| && forall j | 0 < j < |hosts| :: SameSession(hosts[j - 1], hosts[j])
    ensures SameSession(hosts[k], hosts[m])
    decreases m
  {
    if k < m { SessionIsFixed(hosts, k, m - 1); }
  }

  /** The WELCOME a joined client acted on was really sent to its address, at a moment when the slot of the
      id it assigns belonged to that address. */
  ghost predicate Granted(n: Net, a: Addr)
    requires a in n.clients && n.clients[a].phase.Joined?
  {
    var (id, grant) := (n.clients[a].phase.senderId, n.clients[a].grant);
    && 1 <= id <= W.MAX_CLIENTS
    && grant.Some? && grant.value in n.wire && grant.value.to == a
    && grant.value.control.Welcome? && grant.value.control.assignedId == id
    && grant.value.at < |n.hosts| && At(n.hosts[grant.value.at].slots, id - 1, a)
  }

  /** The host still maps the address to the client's id and to no other, in the session the client joined. */
  ghost predicate InForce(n: Net, a: Addr)
    requires a in n.clients && n.clients[a].phase.Joined? && n.hosts != []
  {
    var phase := n.clients[a].phase;
    && (forall i: nat :: At(Current(n).slots, i, a) <==> i == phase.senderId - 1)
    && phase.sessionId == Current(n).session && phase.params == Current(n).params
  }

  lemma JoinedIsGranted(n: Net, a: Addr)
    requires Inv(n) && a in n.clients && n.clients[a].phase.Joined?
    ensures Granted(n, a)
  {
    assert Backed(a, n.clients[a], n.wire);
    assert Genuine(n.clients[a].grant.value, n.hosts);
  }

  lemma UnendedIsInForce(n: Net, a: Addr)
    requires Inv(n) && a in n.clients && n.clients[a].phase.Joined? && Granted(n, a)
    requires !EndedSince(n, n.clients[a].grant.value.at, n.clients[a].phase.senderId)
    ensures InForce(n, a)
  {
    var grant := n.clients[a].grant.value;
    assert Backed(a, n.clients[a], n.wire);
    assert Genuine(grant, n.hosts);
    GrantHolds(n, grant.at, |n.hosts| - 1, n.clients[a].phase.senderId - 1, a);
    HistoryIsOneSession(n.hosts, n.inputs);
    SessionIsFixed(n.hosts, grant.at, |n.hosts| - 1);
    assert Distinct(Current(n).slots);
  }

  /** In every run, a client that is joined holds an id from 1 to 4 given by a WELCOME that the host really
      sent to its address, at a moment when that id's slot belonged to it. Until the host reports that id as
      gone, it still maps the address to that id and to no other, and the client still has the session's
      parameters. */
  lemma JoinedClientsHoldTheirSlot(h: Host, es: seq<Event>, a: Addr)
    requires h.slots == NO_SLOTS && AllPossible(NewNet(h), es)
    requires var n := RunNet(NewNet(h), es); a in n.clients && n.clients[a].phase.Joined?
    ensures var n := RunNet(NewNet(h), es);
            && History(n.hosts, n.inputs) && Granted(n, a)
            && (EndedSince(n, n.clients[a].grant.value.at, n.clients[a].phase.senderId) || InForce(n, a))
  {
    RunKeepsInv(NewNet(h), es);
    var n := RunNet(NewNet(h), es);
    JoinedIsGranted(n, a);
    if !EndedSince(n, n.clients[a].grant.value.at, n.clients[a].phase.senderId) {
      UnendedIsInForce(n, a);
    }
  }

  /** Two clients whose grants are both still in force never share an id. */
  lemma LiveIdsAreUnique(h: Host, es: seq<Event>, a: Addr, b: Addr)
    requires h.slots == NO_SLOTS && AllPossible(NewNet(h), es)
    requires var n := RunNet(NewNet(h), es);
             && a in n.clients && n.clients[a].phase.Joined? && b in n.clients && n.clients[b].phase.Joined?
             && n.clients[a].phase.senderId == n.clients[b].phase.senderId && a != b
    ensures var n := RunNet(NewNet(h), es);
            && History(n.hosts, n.inputs) && n.clients[a].grant.Some? && n.clients[b].grant.Some?
            && (EndedSince(n, n.clients[a].grant.value.at, n.clients[a].phase.senderId)
                || EndedSince(n, n.clients[b].grant.value.at, n.clients[b].phase.senderId))
  {
    HoldsUntilEnded(h, es, a);
    HoldsUntilEnded(h, es, b);
  }

  lemma HoldsUntilEnded(h: Host, es: seq<Event>, a: Addr)
    requires h.slots == NO_SLOTS && AllPossible(NewNet(h), es)
    requires var n := RunNet(NewNet(h), es); a in n.clients && n.clients[a].phase.Joined?
    ensures var n := RunNet(NewNet(h), es);
            && History(n.hosts, n.inputs) && n.clients[a].grant.Some? && n.clients[a].phase.senderId > 0
            && (EndedSince(n, n.clients[a].grant.value.at, n.clients[a].phase.senderId)
                || At(Current(n).slots, n.clients[a].phase.senderId - 1, a))
  {
    JoinedClientsHoldTheirSlot(h, es, a);
  }
}
