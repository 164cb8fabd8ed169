/** The adaptive playout policy (crates/jam-audio/src/jitter.rs:289-428) and one stream's use of it
    (crates/jam-core/src/playout.rs), as a machine over the jitter buffer. */
module Playout {
  import opened Common
  import opened Seq16
  import opened Jitter
  import opened Timeline
  import Resample

  /** As far as reading may run past the newest frame for an arrival less than a ring ahead of it still to be
      newer by its stamp. */
  const MAX_REACH := 0x7fff - SLOTS

  datatype Adjust = Nothing | DropOne | InsertOne

  datatype Controller = Controller(
    frameUs: real, minFrames: int, maxFrames: int, k: real, target: int,
    evalInterval: nat, sinceEval: nat, primed: bool, misses: nat, resetAfter: nat,
    pending: Adjust, deadband: int)
  {
    predicate Valid() {
      && frameUs > 0.0 && minFrames <= target <= maxFrames && 1 <= deadband
      && misses < resetAfter && Reach() <= MAX_REACH
    }

    /** How far drops may take reading past the newest frame on top of `m` misses: by one, or as far as the
        depth is wanted below zero, but by no more than one for every miss and one before the first. */
    function Overrun(m: nat): int { m + Min(Max(1, -minFrames), m + 1) }

    /** How far reading may run past the newest frame before the outage is noticed. */
    function Reach(): int
      requires resetAfter > 0
    {
      Overrun(resetAfter - 1)
    }
  }

  function PrePop(c: Controller, depth: int, started: bool): (Controller, bool) {
    if c.primed then (c, true)
    else if started && depth >= c.target then (c.(primed := true, misses := 0), true)
    else (c, false)
  }

  /** min + ceil(k * jitter / frame) frames, clamped */
  function Retarget(minFrames: int, maxFrames: int, k: real, frameUs: real, jitterUs: real): int
    requires frameUs > 0.0
  {
    Max(minFrames, Min(minFrames + Resample.Ceil(k * jitterUs / frameUs), maxFrames))
  }

  /** The time `n` frames take. */
  function Span(n: int, frameUs: real): real { n as real * frameUs }

  lemma SpanVersus(n: int, frameUs: real, x: real)
    requires frameUs > 0.0
    ensures n as real >= x / frameUs <==> Span(n, frameUs) >= x
  {
    var q := x / frameUs;
    assert q * frameUs == x;
    Resample.ScaleLess(n as real, q, frameUs);
  }

  /** What the target is for: it covers `k` times the jitter estimate on top of the minimum, unless capped,
      and no smaller one does. */
  lemma TargetCoversJitter(minFrames: int, maxFrames: int, k: real, frameUs: real, jitterUs: real)
    requires frameUs > 0.0 && minFrames <= maxFrames
    ensures var t := Retarget(minFrames, maxFrames, k, frameUs, jitterUs);
            && minFrames <= t <= maxFrames
            && (t < maxFrames ==> Span(t - minFrames, frameUs) >= k * jitterUs)
            && (t > minFrames ==> Span(t - 1 - minFrames, frameUs) < k * jitterUs)
  {
    var q, t := k * jitterUs / frameUs, Retarget(minFrames, maxFrames, k, frameUs, jitterUs);
    assert q <= Resample.Ceil(q) as real < q + 1.0;
    SpanVersus(t - minFrames, frameUs, k * jitterUs);
    SpanVersus(t - 1 - minFrames, frameUs, k * jitterUs);
  }

  /** Counts hits and misses; the result is true on a prolonged outage. */
  function PostPop(c: Controller, hit: bool, jitterUs: real): (Controller, bool)
    requires c.frameUs > 0.0
  {
    var misses := if hit then 0 else c.misses + 1;
    if !hit && misses >= c.resetAfter then (c.(primed := false, misses := 0, pending := Nothing), true)
    else
      var c1 := c.(misses := misses, sinceEval := c.sinceEval + 1);
      if c1.sinceEval >= c.evalInterval then (c1.(sinceEval := 0, target := Retarget(c.minFrames, c.maxFrames, c.k, c.frameUs, jitterUs)), false)
      else (c1, false)
  }

  function ObserveDepth(c: Controller, depth: int): Controller {
    if c.pending != Nothing || !c.primed then c
    else if depth > c.target + c.deadband then c.(pending := DropOne)
    else if depth < c.target - c.deadband then c.(pending := InsertOne)
    else c
  }

  function Forget(c: Controller): Controller {
    c.(primed := false, misses := 0, pending := Nothing, sinceEval := 0)
  }

  // ---------------------------------------------------------------- one stream

  datatype Player = Player(ring: Ring, ctl: Controller, insert: bool) {
    predicate Valid() { ring.Valid() && ctl.frameUs > 0.0 }
  }

  /** What the model does not compute: whether the decoder accepts the frame, and the jitter estimate. */
  datatype PullInput = PullInput(decodes: bool, jitterUs: real)

  datatype TickInput = TickInput(drift: bool, pulls: seq<PullInput>, quiet: bool)

  /** What the controller does after a pop, or in place of one. */
  function Settle(ring: Ring, ctl: Controller, hit: bool, jitterUs: real): (r: (Player, Option<bool>))
    requires ring.Valid() && ctl.frameUs > 0.0
    ensures r.0.Valid()
  {
    var (ctl', outage) := PostPop(ctl, hit, jitterUs);
    if outage then (Player(Reset(ring), ctl', false), None)
    else (Player(ring, ObserveDepth(ctl', Depth(ring)), false), Some(hit))
  }

  /** One packet or concealment; `None` when the stream has been reset. */
  function Pull(s: Player, input: PullInput): (r: (Player, Option<bool>))
    requires s.Valid()
    ensures r.0.Valid()
  {
    var (ring, hit) :=
      if s.insert then (s.ring, false)
      else var (b, o, _) := Pop(s.ring); (b, o.Frame? && input.decodes);
    Settle(ring, s.ctl, hit, input.jitterUs)
  }

  /** Pulls until one reports an outage. */
  function Pulls(s: Player, inputs: seq<PullInput>): (r: (Player, bool))
    requires s.Valid()
    ensures r.0.Valid()
    decreases inputs
  {
    if inputs == [] then (s, true)
    else
      var (s1, hit) := Pull(s, inputs[0]);
      if hit.None? then (s1, false) else Pulls(s1, inputs[1..])
  }

  lemma {:induction false} PullsSnoc(s: Player, inputs: seq<PullInput>, input: PullInput)
    requires s.Valid() && Pulls(s, inputs).1
    ensures Pulls(s, inputs + [input]) == (Pull(Pulls(s, inputs).0, input).0, Pull(Pulls(s, inputs).0, input).1.Some?)
    decreases inputs
  {
    if inputs == [] {
      assert inputs + [input] == [input] && [input][1..] == [];
    } else {
      assert (inputs + [input])[1..] == inputs[1..] + [input];
      PullsSnoc(Pull(s, inputs[0]).0, inputs[1..], input);
    }
  }

  /** At most one step correction, and only at a quiet moment. */
  function Correct(s: Player, quiet: bool): (r: Player)
    requires s.Valid()
    ensures r.Valid()
  {
    if !quiet then s
    else
      var s1 := s.(ctl := s.ctl.(pending := Nothing));
      match s.ctl.pending
      case Nothing => s1
      case DropOne => s1.(ring := Skip(s.ring).0)
      case InsertOne => s1.(insert := true)
  }

  function ResetStream(s: Player): Player { s.(ctl := Forget(s.ctl), insert := false) }

  /** One frame tick; the result says whether the stream is live. */
  function Tick(s: Player, input: TickInput): (r: (Player, bool))
    requires s.Valid()
    ensures r.0.Valid()
  {
    var (ctl, primed) := PrePop(s.ctl, Depth(s.ring), s.ring.started);
    var s1 := s.(ctl := ctl);
    if !primed then (s1, false)
    else
      var (s2, alive) := Pulls(s1, input.pulls);
      if alive then (Correct(s2, input.quiet), true)
      else (if input.drift then ResetStream(s2) else s2, false)
  }

  // ---------------------------------------------------------------- the read position

  /** The true number of frames from the read position to the newest stored one. */
  function Ahead(t: Timeline): int { t.hi + 1 - t.rd }

  /** While primed, reading has passed the newest frame by no more than the misses counted so far allow, and
      one less while a frame is still to be dropped; before priming, it has not reached it. */
  ghost predicate PlayerInv(s: Player, t: Timeline) {
    && Tracks(s.ring, t) && NewestTracks(s.ring, t) && s.ctl.Valid() && (s.ctl.primed || s.ctl.pending.Nothing?)
    && (t.started ==>
          && Ahead(t) <= SLOTS
          && if s.ctl.primed then -Ahead(t) <= Allowed(s.ctl) else Ahead(t) >= 1)
  }

  function Allowed(c: Controller): int { c.Overrun(c.misses) - if c.pending.DropOne? then 1 else 0 }

  /** The same steps on the unbounded map. */
  function MapPull(s: Player, t: Timeline, input: PullInput): Timeline
    requires s.Valid()
  {
    var t1 := if s.insert then t else MapPop(t).0;
    if Pull(s, input).1.None? then MapReset(t1) else t1
  }

  function MapPulls(s: Player, t: Timeline, inputs: seq<PullInput>): Timeline
    requires s.Valid()
    decreases inputs
  {
    if inputs == [] then t
    else
      var t1 := MapPull(s, t, inputs[0]);
      if Pull(s, inputs[0]).1.None? then t1 else MapPulls(Pull(s, inputs[0]).0, t1, inputs[1..])
  }

  function MapTick(s: Player, t: Timeline, input: TickInput): Timeline
    requires s.Valid()
  {
    var (ctl, primed) := PrePop(s.ctl, Depth(s.ring), s.ring.started);
    var s1 := s.(ctl := ctl);
    if !primed then t
    else
      var t2 := MapPulls(s1, t, input.pulls);
      var (s2, alive) := Pulls(s1, input.pulls);
      if alive && input.quiet && s2.ctl.pending.DropOne? then MapSkip(t2).0 else t2
  }

  lemma DepthIsAhead(s: Player, t: Timeline)
    requires PlayerInv(s, t)
    ensures Depth(s.ring) == if t.started then Ahead(t) else 0
  {
    if t.started { DepthIsTrueDistance(s.ring, t); }
  }

  /** A hit, or one more miss that is not yet an outage. */
  lemma CountingKeepsBound(ctl: Controller, hit: bool, jitterUs: real, ahead: int)
    requires ctl.Valid() && ctl.primed && if hit then ahead >= 0 else -ahead <= Allowed(ctl) + 1
    ensures var (ctl', outage) := PostPop(ctl, hit, jitterUs);
            ctl'.Valid() && if outage then !ctl'.primed && ctl'.pending.Nothing? else ctl'.primed && -ahead <= Allowed(ctl') && -ahead <= 2 * ctl'.misses
  {
  }

  /** A drop is asked for only while reading has not come near what the misses allow. */
  lemma ObservingKeepsBound(ctl: Controller, depth: int)
    requires ctl.Valid() && ctl.primed && -depth <= Allowed(ctl)
    requires -depth <= 2 * ctl.misses
    ensures var ctl' := ObserveDepth(ctl, depth); ctl'.Valid() && ctl'.primed && -depth <= Allowed(ctl')
  {
  }

  lemma SettleKeepsInv(ring: Ring, t: Timeline, ctl: Controller, hit: bool, jitterUs: real)
    requires Tracks(ring, t) && NewestTracks(ring, t) && ctl.Valid() && ctl.primed
    requires t.started ==> Ahead(t) <= SLOTS && if hit then Ahead(t) >= 0 else -Ahead(t) <= Allowed(ctl) + 1
    ensures var (s', r) := Settle(ring, ctl, hit, jitterUs);
            PlayerInv(s', if r.None? then MapReset(t) else t) && (r.Some? <==> s'.ctl.primed)
  {
    var (ctl', outage) := PostPop(ctl, hit, jitterUs);
    CountingKeepsBound(ctl, hit, jitterUs, if t.started then Ahead(t) else 0);
    if t.started && !outage {
      DepthIsTrueDistance(ring, t);
      ObservingKeepsBound(ctl', Ahead(t));
    }
  }

  lemma PullKeepsInv(s: Player, t: Timeline, input: PullInput)
    requires PlayerInv(s, t) && s.ctl.primed
    ensures PlayerInv(Pull(s, input).0, MapPull(s, t, input))
    ensures Pull(s, input).1.Some? <==> Pull(s, input).0.ctl.primed
  {
    if s.insert {
      SettleKeepsInv(s.ring, t, s.ctl, false, input.jitterUs);
    } else {
      PopTracks(s.ring, t);
      PopNewest(s.ring, t);
      SettleKeepsInv(Pop(s.ring).0, MapPop(t).0, s.ctl, Pop(s.ring).1.Frame? && input.decodes, input.jitterUs);
    }
  }

  lemma PopNewest(b: Ring, t: Timeline)
    requires Tracks(b, t) && NewestTracks(b, t)
    ensures NewestTracks(Pop(b).0, MapPop(t).0)
    ensures t.started ==> MapPop(t).0.hi == t.hi && MapPop(t).0.rd == t.rd + 1 && MapPop(t).0.started
    ensures !t.started ==> MapPop(t).0 == t
  {
  }

  lemma {:induction false} PullsKeepInv(s: Player, t: Timeline, inputs: seq<PullInput>)
    requires PlayerInv(s, t) && s.ctl.primed
    ensures PlayerInv(Pulls(s, inputs).0, MapPulls(s, t, inputs))
    ensures Pulls(s, inputs).1 <==> Pulls(s, inputs).0.ctl.primed
    decreases inputs
  {
    if inputs != [] {
      PullKeepsInv(s, t, inputs[0]);
      if Pull(s, inputs[0]).1.Some? {
        PullsKeepInv(Pull(s, inputs[0]).0, MapPull(s, t, inputs[0]), inputs[1..]);
      }
    }
  }

  lemma PrimingKeepsInv(s: Player, t: Timeline)
    requires PlayerInv(s, t)
    ensures PlayerInv(s.(ctl := PrePop(s.ctl, Depth(s.ring), s.ring.started).0), t)
  {
    DepthIsAhead(s, t);
  }

  lemma CorrectKeepsInv(s: Player, t: Timeline, quiet: bool)
    requires PlayerInv(s, t) && s.ctl.primed
    ensures PlayerInv(Correct(s, quiet), if quiet && s.ctl.pending.DropOne? then MapSkip(t).0 else t)
  {
    if quiet && s.ctl.pending.DropOne? { SkipTracks(s.ring, t); }
  }

  lemma TickKeepsInv(s: Player, t: Timeline, input: TickInput)
    requires PlayerInv(s, t)
    ensures PlayerInv(Tick(s, input).0, MapTick(s, t, input))
  {
    var (ctl, primed) := PrePop(s.ctl, Depth(s.ring), s.ring.started);
    var s1 := s.(ctl := ctl);
    PrimingKeepsInv(s, t);
    if primed {
      PullsKeepInv(s1, t, input.pulls);
      var (s2, alive) := Pulls(s1, input.pulls);
      if alive { CorrectKeepsInv(s2, MapPulls(s1, t, input.pulls), input.quiet); }
    }
  }

  // ---------------------------------------------------------------- whole runs

  /** A packet arrives, the callback ticks, the control thread resets the buffer, or the pipeline resets
      the stream. */
  datatype Event = Arrive(g: int, p: Packet) | TickEvent(input: TickInput) | BufferReset | StreamReset

  function Step(s: Player, e: Event): (r: Player)
    requires s.Valid()
    ensures r.Valid()
  {
    match e
    case Arrive(g, p) => s.(ring := Push(s.ring, Wrap(g), p.timestamp, p.data).0)
    case TickEvent(input) => Tick(s, input).0
    case BufferReset => s.(ring := Reset(s.ring))
    case StreamReset => ResetStream(s)
  }

  function StepMap(s: Player, t: Timeline, e: Event): Timeline
    requires s.Valid()
  {
    match e
    case Arrive(g, p) => MapPush(t, g, p).0
    case TickEvent(input) => MapTick(s, t, input)
    case BufferReset => MapReset(t)
    case StreamReset => t
  }

  function Play(s: Player, events: seq<Event>): (r: Player)
    requires s.Valid()
    ensures r.Valid()
    decreases events
  {
    if events == [] then s else Play(Step(s, events[0]), events[1..])
  }

  function PlayMap(s: Player, t: Timeline, events: seq<Event>): Timeline
    requires s.Valid()
    decreases events
  {
    if events == [] then t else PlayMap(Step(s, events[0]), StepMap(s, t, events[0]), events[1..])
  }

  /** Packets arrive in the window, and the stream is restarted before anything has been read from the buffer
      since that was reset. */
  predicate Orderly(s: Player, t: Timeline, events: seq<Event>)
    requires s.Valid()
    decreases events
  {
    events != [] ==>
      && Fair(t, events[0])
      && Orderly(Step(s, events[0]), StepMap(s, t, events[0]), events[1..])
  }

  predicate Fair(t: Timeline, e: Event) {
    && (e.Arrive? ==> InWindow(t, e.g))
    && (e.StreamReset? && t.started ==> Ahead(t) >= 1)
  }

  lemma StepKeepsInv(s: Player, t: Timeline, e: Event)
    requires PlayerInv(s, t) && Fair(t, e)
    ensures PlayerInv(Step(s, e), StepMap(s, t, e))
  {
    match e
    case Arrive(g, p) =>
      PushTracks(s.ring, t, g, p);
      PushNewest(s.ring, t, g, p);
    case TickEvent(input) => TickKeepsInv(s, t, input);
    case BufferReset =>
    case StreamReset =>
  }

  /** Over any orderly run, with arrivals less than a ring ahead of the read position: reading never passes the
      newest stored frame by more than the controller's reach, despite skips, inserts and decoding failures,
      and the 16-bit depth is always the true distance. */
  lemma {:induction false} ReadPositionStaysNear(s: Player, t: Timeline, events: seq<Event>)
    requires PlayerInv(s, t) && Orderly(s, t, events)
    ensures var (s', t') := (Play(s, events), PlayMap(s, t, events));
            && PlayerInv(s', t')
            && (t'.started ==> -Ahead(t') <= s'.ctl.Reach())
            && Depth(s'.ring) == if t'.started then Ahead(t') else 0
    decreases events
  {
    if events == [] {
      DepthIsAhead(s, t);
    } else {
      StepKeepsInv(s, t, events[0]);
      ReadPositionStaysNear(Step(s, events[0]), StepMap(s, t, events[0]), events[1..]);
    }
  }

  /** The same limits on depth and misses. */
  predicate SameLimits(c: Controller, c': Controller) {
    c'.minFrames == c.minFrames && c'.maxFrames == c.maxFrames && c'.resetAfter == c.resetAfter
  }

  lemma {:induction false} PullsKeepLimits(s: Player, inputs: seq<PullInput>)
    requires s.Valid()
    ensures SameLimits(s.ctl, Pulls(s, inputs).0.ctl)
    decreases inputs
  {
    if inputs != [] { PullsKeepLimits(Pull(s, inputs[0]).0, inputs[1..]); }
  }

  lemma StepKeepsLimits(s: Player, e: Event)
    requires s.Valid()
    ensures SameLimits(s.ctl, Step(s, e).ctl)
  {
    if e.TickEvent? {
      PullsKeepLimits(s.(ctl := PrePop(s.ctl, Depth(s.ring), s.ring.started).0), e.input.pulls);
    }
  }

  /** Nothing changes the least depth and how many misses make an outage. */
  lemma {:induction false} LimitsAreFixed(s: Player, events: seq<Event>)
    requires s.Valid()
    ensures SameLimits(s.ctl, Play(s, events).ctl)
    decreases events
  {
    if events != [] {
      StepKeepsLimits(s, events[0]);
      LimitsAreFixed(Step(s, events[0]), events[1..]);
    }
  }

  /** The start of every stream meets the invariant. */
  lemma NewPlayerInv(ctl: Controller)
    requires ctl.Valid() && (ctl.primed || ctl.pending.Nothing?)
    ensures PlayerInv(Player(NEW_RING, ctl, false), NEW_TIMELINE)
  {
  }

  predicate OnlyArrivals(t: Timeline, events: seq<Event>)
    decreases events
  {
    events != [] ==>
      events[0].Arrive? && InWindow(t, events[0].g) && OnlyArrivals(MapPush(t, events[0].g, events[0].p).0, events[1..])
  }

  /** Arrivals take reading no nearer to the newest frame, so the stream may be restarted after them. */
  lemma {:induction false} RestartAfterArrivals(s: Player, t: Timeline, events: seq<Event>)
    requires s.Valid() && OnlyArrivals(t, events) && (t.started ==> Ahead(t) >= 1)
    ensures Orderly(s, t, events + [StreamReset])
    decreases events
  {
    if events == [] {
      assert events + [StreamReset] == [StreamReset] && [StreamReset][1..] == [];
    } else {
      assert (events + [StreamReset])[1..] == events[1..] + [StreamReset];
      RestartAfterArrivals(Step(s, events[0]), StepMap(s, t, events[0]), events[1..]);
    }
  }

  /** Which is what happens when a client or the host comes back: the buffer is reset, packets may arrive, and
      the next tick restarts the stream. */
  lemma RestartIsOrderly(s: Player, t: Timeline, events: seq<Event>)
    requires s.Valid() && OnlyArrivals(MapReset(t), events)
    ensures Orderly(s, t, [BufferReset] + (events + [StreamReset]))
  {
    assert ([BufferReset] + (events + [StreamReset]))[1..] == events + [StreamReset];
    RestartAfterArrivals(Step(s, BufferReset), MapReset(t), events);
  }
}
