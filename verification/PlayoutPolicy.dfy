/** What the playout policy does to what is heard (crates/jam-audio/src/jitter.rs:359-428): when playing begins,
    which misses are an outage, when the target changes, and which way the depth is corrected. All of it is told
    on the unbounded map of what has arrived. */
module PlayoutPolicy {
  import opened Common
  import opened Seq16
  import opened Jitter
  import opened Timeline
  import opened Playout
  import S = StreamPlayout

  // ---------------------------------------------------------------- waiting for the target depth

  /** Enough is stored to begin. */
  predicate Ready(s: Player, t: Timeline) { t.started && Ahead(t) >= s.ctl.target }

  lemma OutageEmptiesRing(s: Player, input: PullInput)
    requires s.Valid() && Pull(s, input).1.None?
    ensures !Pull(s, input).0.ring.started && !Pull(s, input).0.ctl.primed
  {
  }

  lemma {:induction false} OutagesEmptyRing(s: Player, inputs: seq<PullInput>)
    requires s.Valid() && !Pulls(s, inputs).1
    ensures !Pulls(s, inputs).0.ring.started
    decreases inputs
  {
    if Pull(s, inputs[0]).1.None? { OutageEmptiesRing(s, inputs[0]); } else { OutagesEmptyRing(Pull(s, inputs[0]).0, inputs[1..]); }
  }

  /** A stream that is not yet playing stays exactly as it is, and silent, in a tick if and only if fewer frames
      are stored than its target depth. */
  lemma TickWaitsIff(s: Player, t: Timeline, input: TickInput)
    requires PlayerInv(s, t) && !s.ctl.primed
    ensures Tick(s, input) == (s, false) <==> !Ready(s, t)
  {
    DepthIsAhead(s, t);
    if Ready(s, t) {
      var s1 := s.(ctl := s.ctl.(primed := true, misses := 0));
      PrimingKeepsInv(s, t);
      PullsKeepInv(s1, t, input.pulls);
      if !Pulls(s1, input.pulls).1 { OutagesEmptyRing(s1, input.pulls); }
    }
  }

  /** No tick of the run finds the stream ready. */
  predicate Waits(s: Player, t: Timeline, events: seq<Event>)
    requires s.Valid()
    decreases events
  {
    events != [] ==>
      && (events[0].TickEvent? ==> !Ready(s, t))
      && Waits(Step(s, events[0]), StepMap(s, t, events[0]), events[1..])
  }

  function WithoutTicks(events: seq<Event>): seq<Event> {
    if events == [] then [] else (if events[0].TickEvent? then [] else [events[0]]) + WithoutTicks(events[1..])
  }

  lemma WaitingStep(s: Player, t: Timeline, e: Event)
    requires PlayerInv(s, t) && Fair(t, e) && !s.ctl.primed && (e.TickEvent? ==> !Ready(s, t))
    ensures !Step(s, e).ctl.primed && (e.TickEvent? ==> Step(s, e) == s && StepMap(s, t, e) == t)
  {
    DepthIsAhead(s, t);
    if e.TickEvent? { TickWaitsIff(s, t, e.input); }
  }

  /** Until then nothing is read: the stream is where the arrivals and resets alone have brought it. */
  lemma {:induction false} WaitingReadsNothing(s: Player, t: Timeline, events: seq<Event>)
    requires PlayerInv(s, t) && Orderly(s, t, events) && !s.ctl.primed && Waits(s, t, events)
    ensures !Play(s, events).ctl.primed && PlayerInv(Play(s, events), PlayMap(s, t, events))
    ensures Play(s, events) == Play(s, WithoutTicks(events)) && PlayMap(s, t, events) == PlayMap(s, t, WithoutTicks(events))
    decreases events
  {
    if events != [] {
      var e, rest := events[0], events[1..];
      WaitingStep(s, t, e);
      StepKeepsInv(s, t, e);
      WaitingReadsNothing(Step(s, e), StepMap(s, t, e), rest);
      if e.TickEvent? {
        assert [] + WithoutTicks(rest) == WithoutTicks(rest);
      } else {
        assert ([e] + WithoutTicks(rest))[1..] == WithoutTicks(rest);
      }
    }
  }

  /** The first tick that finds the stream ready begins to read: each of its pulls takes the next number, unless
      a frame is to be inserted, or ends in an outage. */
  lemma ReadyTickReads(s: Player, t: Timeline, input: TickInput)
    requires PlayerInv(s, t) && !s.ctl.primed && !s.insert && Ready(s, t) && s.ctl.resetAfter > 1 && input.pulls != []
    ensures MapTick(s, t, input).rd > t.rd
    ensures |input.pulls| == 1 ==> Tick(s, input).1
  {
    DepthIsAhead(s, t);
    var s1 := s.(ctl := s.ctl.(primed := true, misses := 0));
    PrimingKeepsInv(s, t);
    PullKeepsInv(s1, t, input.pulls[0]);
    PullsOnlyAdvance(Pull(s1, input.pulls[0]).0, MapPull(s1, t, input.pulls[0]), input.pulls[1..]);
    if |input.pulls| == 1 {
      assert input.pulls[1..] == [];
      assert Pulls(s1, input.pulls) == (Pull(s1, input.pulls[0]).0, true);
    }
  }

  lemma {:induction false} PullsOnlyAdvance(s: Player, t: Timeline, inputs: seq<PullInput>)
    requires s.Valid()
    ensures MapPulls(s, t, inputs).rd >= t.rd
    decreases inputs
  {
    if inputs != [] && Pull(s, inputs[0]).1.Some? {
      PullsOnlyAdvance(Pull(s, inputs[0]).0, MapPull(s, t, inputs[0]), inputs[1..]);
    }
  }

  /** From the start of a stream: reading begins in exactly the first tick that finds the target depth stored. */
  lemma FirstReadIsWhenReady(s: Player, t: Timeline, events: seq<Event>, input: TickInput)
    requires PlayerInv(s, t) && !s.ctl.primed && !s.insert && s.ctl.resetAfter > 1
    requires Orderly(s, t, events) && Waits(s, t, events) && input.pulls != []
    ensures var (s1, t1) := (Play(s, events), PlayMap(s, t, events));
            && PlayMap(s, t, events) == PlayMap(s, t, WithoutTicks(events))
            && (MapTick(s1, t1, input).rd > t1.rd <==> Ready(s1, t1))
            && (Tick(s1, input) == (s1, false) <==> !Ready(s1, t1))
  {
    var (s1, t1) := (Play(s, events), PlayMap(s, t, events));
    WaitingReadsNothing(s, t, events);
    WaitingInserts(s, t, events);
    LimitsAreFixed(s, events);
    TickWaitsIff(s1, t1, input);
    if Ready(s1, t1) { ReadyTickReads(s1, t1, input); } else { DepthIsAhead(s1, t1); }
  }

  lemma {:induction false} WaitingInserts(s: Player, t: Timeline, events: seq<Event>)
    requires PlayerInv(s, t) && Orderly(s, t, events) && !s.ctl.primed && !s.insert && Waits(s, t, events)
    ensures !Play(s, events).insert && Play(s, events).ctl.target == s.ctl.target
    decreases events
  {
    if events != [] {
      WaitingStep(s, t, events[0]);
      StepKeepsInv(s, t, events[0]);
      WaitingInserts(Step(s, events[0]), StepMap(s, t, events[0]), events[1..]);
    }
  }

  /** A session's stream begins to read in exactly the first tick that finds two frames stored, or as many as
      the depth is fixed at. */
  lemma PlayingBeginsAtTarget(frameSamples: nat, jitterFixed: Option<int>, driftCorrection: bool, events: seq<Event>, input: TickInput)
    requires (frameSamples == 120 || frameSamples == 240) && input.pulls != []
    requires var s := Player(NEW_RING, S.StreamController(frameSamples, 48000, jitterFixed, driftCorrection), false);
             Orderly(s, NEW_TIMELINE, events) && Waits(s, NEW_TIMELINE, events)
    ensures var s := Player(NEW_RING, S.StreamController(frameSamples, 48000, jitterFixed, driftCorrection), false);
            var (s1, t1) := (Play(s, events), PlayMap(s, NEW_TIMELINE, events));
            var ready := t1.started && Ahead(t1) >= if jitterFixed.Some? then jitterFixed.value else 2;
            && t1 == PlayMap(s, NEW_TIMELINE, WithoutTicks(events))
            && (MapTick(s1, t1, input).rd > t1.rd <==> ready) && (Tick(s1, input) == (s1, false) <==> !ready)
  {
    var s := Player(NEW_RING, S.StreamController(frameSamples, 48000, jitterFixed, driftCorrection), false);
    S.SessionControllerReach(frameSamples, jitterFixed, driftCorrection);
    S.SessionControllersAreValid();
    NewPlayerInv(s.ctl);
    FirstReadIsWhenReady(s, NEW_TIMELINE, events, input);
    WaitingInserts(s, NEW_TIMELINE, events);
  }

  /** A stream that is restarted waits again: nothing is read until the first tick that finds its target depth
      stored, whatever it was doing before. */
  lemma RestartWaitsAgain(s: Player, t: Timeline, events: seq<Event>, input: TickInput)
    requires PlayerInv(s, t) && Fair(t, StreamReset) && s.ctl.resetAfter > 1 && input.pulls != []
    requires Orderly(Step(s, StreamReset), t, events) && Waits(Step(s, StreamReset), t, events)
    ensures var s0 := Step(s, StreamReset);
            var (s1, t1) := (Play(s0, events), PlayMap(s0, t, events));
            var ready := t1.started && Ahead(t1) >= s.ctl.target;
            && t1 == PlayMap(s0, t, WithoutTicks(events)) && s0.ring == s.ring && s0.ctl.sinceEval == 0
            && (MapTick(s1, t1, input).rd > t1.rd <==> ready) && (Tick(s1, input) == (s1, false) <==> !ready)
  {
    StepKeepsInv(s, t, StreamReset);
    FirstReadIsWhenReady(Step(s, StreamReset), t, events, input);
    WaitingInserts(Step(s, StreamReset), t, events);
  }

  // ---------------------------------------------------------------- consecutive misses

  /** A pull plays: nothing is to be inserted, the next frame has arrived, and the decoder accepts it. */
  predicate Played(t: Timeline, insert: bool, input: PullInput) { !insert && t.started && t.rd in t.frames && input.decodes }

  /** What successive pulls play, while there is no outage. */
  function Plays(t: Timeline, insert: bool, inputs: seq<PullInput>): (r: seq<bool>)
    ensures |r| == |inputs|
    decreases inputs
  {
    if inputs == [] then []
    else [Played(t, insert, inputs[0])] + Plays(if insert then t else MapPop(t).0, false, inputs[1..])
  }

  /** The misses in a row at the end, `m` having come before. */
  function Streak(m: nat, plays: seq<bool>): nat
    decreases plays
  {
    if plays == [] then m else Streak(if plays[0] then 0 else m + 1, plays[1..])
  }

  lemma PullIs(s: Player, t: Timeline, input: PullInput)
    requires PlayerInv(s, t) && s.ctl.primed
    ensures var (s', r) := Pull(s, input);
            var play := Played(t, s.insert, input);
            && !s'.insert
            && (r.None? <==> !play && s.ctl.misses + 1 >= s.ctl.resetAfter)
            && (r.Some? ==> r == Some(play) && s'.ctl.misses == if play then 0 else s.ctl.misses + 1)
            && (r.Some? ==> MapPull(s, t, input) == if s.insert then t else MapPop(t).0)
  {
    if !s.insert { PopTracks(s.ring, t); }
  }

  lemma StreakCons(m: nat, play: bool, rest: seq<bool>, n: nat)
    requires n <= |rest|
    ensures Streak(m, ([play] + rest)[..n + 1]) == Streak(if play then 0 else m + 1, rest[..n])
  {
    assert ([play] + rest)[..n + 1][1..] == rest[..n];
  }

  predicate AllShort(m: nat, plays: seq<bool>, limit: nat) { forall n | 0 < n <= |plays| :: Streak(m, plays[..n]) < limit }

  lemma StreaksShift(m: nat, play: bool, rest: seq<bool>, limit: nat)
    requires play || m + 1 < limit
    requires limit > 0
    ensures AllShort(m, [play] + rest, limit) <==> AllShort(if play then 0 else m + 1, rest, limit)
  {
    var m1 := if play then 0 else m + 1;
    forall n | 0 <= n <= |rest| ensures Streak(m, ([play] + rest)[..n + 1]) == Streak(m1, rest[..n]) {
      StreakCons(m, play, rest, n);
    }
    assert Streak(m1, rest[..0]) == m1;
    if AllShort(m1, rest, limit) {
      forall n | 0 < n <= |[play] + rest| ensures Streak(m, ([play] + rest)[..n]) < limit {
        assert Streak(m, ([play] + rest)[..(n - 1) + 1]) == Streak(m1, rest[..n - 1]);
      }
    }
    if AllShort(m, [play] + rest, limit) {
      forall n | 0 < n <= |rest| ensures Streak(m1, rest[..n]) < limit {
        assert Streak(m, ([play] + rest)[..n + 1]) == Streak(m1, rest[..n]);
      }
    }
  }

  /** Pulls go on until, and only until, as many in a row have missed as make an outage, counting those before;
      a frame played in between starts the count again. */
  lemma {:induction false} OutageIff(s: Player, t: Timeline, inputs: seq<PullInput>)
    requires PlayerInv(s, t) && s.ctl.primed
    ensures StreakDecides(s, t, inputs)
    decreases inputs
  {
    if inputs != [] {
      PullIs(s, t, inputs[0]);
      PullKeepsInv(s, t, inputs[0]);
      if Pull(s, inputs[0]).1.Some? {
        OutageIff(Pull(s, inputs[0]).0, MapPull(s, t, inputs[0]), inputs[1..]);
        OutageLater(s, t, inputs);
      } else {
        OutageNow(s, t, inputs);
      }
    }
  }

  predicate StreakDecides(s: Player, t: Timeline, inputs: seq<PullInput>)
    requires s.Valid()
  {
    && (Pulls(s, inputs).1 <==> AllShort(s.ctl.misses, Plays(t, s.insert, inputs), s.ctl.resetAfter))
    && (Pulls(s, inputs).1 ==> Pulls(s, inputs).0.ctl.misses == Streak(s.ctl.misses, Plays(t, s.insert, inputs)))
  }

  lemma OutageNow(s: Player, t: Timeline, inputs: seq<PullInput>)
    requires PlayerInv(s, t) && s.ctl.primed && inputs != [] && Pull(s, inputs[0]).1.None?
    ensures StreakDecides(s, t, inputs)
  {
    PullIs(s, t, inputs[0]);
    var plays := Plays(t, s.insert, inputs);
    assert plays[..1] == [false] && [false][1..] == [];
    assert Streak(s.ctl.misses, plays[..1]) == s.ctl.misses + 1;
  }

  lemma OutageLater(s: Player, t: Timeline, inputs: seq<PullInput>)
    requires PlayerInv(s, t) && s.ctl.primed && inputs != [] && Pull(s, inputs[0]).1.Some?
    requires StreakDecides(Pull(s, inputs[0]).0, MapPull(s, t, inputs[0]), inputs[1..])
    ensures StreakDecides(s, t, inputs)
  {
    var play := Played(t, s.insert, inputs[0]);
    var rest := Plays(MapPull(s, t, inputs[0]), false, inputs[1..]);
    PullIs(s, t, inputs[0]);
    PullKeepsInv(s, t, inputs[0]);
    LimitKept(s, inputs[0]);
    StreaksShift(s.ctl.misses, play, rest, s.ctl.resetAfter);
    assert Plays(t, s.insert, inputs) == [play] + rest && ([play] + rest)[1..] == rest;
  }

  lemma LimitKept(s: Player, input: PullInput)
    requires s.Valid()
    ensures Pull(s, input).0.ctl.resetAfter == s.ctl.resetAfter
  {
  }

  /** So it is across ticks: a stream that plays is live in a tick exactly while no streak is an outage, the
      streak goes on into the next tick, and nothing else touches it. */
  lemma StreakGoesOn(s: Player, t: Timeline, e: Event)
    requires PlayerInv(s, t) && s.ctl.primed && !e.StreamReset?
    ensures !e.TickEvent? ==> Step(s, e).ctl.misses == s.ctl.misses && Step(s, e).ctl.primed
    ensures e.TickEvent? ==>
              var plays := Plays(t, s.insert, e.input.pulls);
              && (Tick(s, e.input).1 <==> AllShort(s.ctl.misses, plays, s.ctl.resetAfter))
              && (Step(s, e).ctl.primed <==> Tick(s, e.input).1)
              && (Tick(s, e.input).1 ==> Step(s, e).ctl.misses == Streak(s.ctl.misses, plays))
  {
    if e.TickEvent? {
      OutageIff(s, t, e.input.pulls);
      PullsKeepInv(s, t, e.input.pulls);
    }
  }

  /** An outage starts the stream over: it waits again for its target depth, with no misses counted, no correction
      asked for, nothing to insert and nothing stored; with drift correction the evaluations start over too. */
  lemma OutageStartsOver(s: Player, t: Timeline, input: TickInput)
    requires PlayerInv(s, t) && s.ctl.primed && !Tick(s, input).1
    ensures var (s', t') := (Tick(s, input).0, MapTick(s, t, input));
            && PlayerInv(s', t') && !t'.started && t'.frames == map[]
            && !s'.ctl.primed && s'.ctl.misses == 0 && s'.ctl.pending.Nothing? && !s'.insert
            && (input.drift ==> s'.ctl.sinceEval == 0)
  {
    TickKeepsInv(s, t, input);
    OutageClears(s, input.pulls);
  }

  lemma {:induction false} OutageClears(s: Player, inputs: seq<PullInput>)
    requires s.Valid() && !Pulls(s, inputs).1
    ensures var s' := Pulls(s, inputs).0;
            !s'.ring.started && !s'.ctl.primed && s'.ctl.misses == 0 && s'.ctl.pending.Nothing? && !s'.insert
    decreases inputs
  {
    if Pull(s, inputs[0]).1.Some? { OutageClears(Pull(s, inputs[0]).0, inputs[1..]); }
  }

  // ---------------------------------------------------------------- the target depth

  /** The smallest number of frames that covers `k` times the jitter on top of the least depth, in its limits. */
  predicate Covers(c: Controller, target: int, jitterUs: real) {
    && c.minFrames <= target <= c.maxFrames
    && (target < c.maxFrames ==> Span(target - c.minFrames, c.frameUs) >= c.k * jitterUs)
    && (target > c.minFrames ==> Span(target - 1 - c.minFrames, c.frameUs) < c.k * jitterUs)
  }

  /** The target is evaluated again on every `evalInterval`-th pull that goes on, and changes at no other. */
  lemma TargetIs(s: Player, t: Timeline, input: PullInput)
    requires PlayerInv(s, t) && s.ctl.primed && Pull(s, input).1.Some?
    ensures var c, c' := s.ctl, Pull(s, input).0.ctl;
            if c.sinceEval + 1 >= c.evalInterval then c'.sinceEval == 0 && Covers(c, c'.target, input.jitterUs)
            else c'.sinceEval == c.sinceEval + 1 && c'.target == c.target
  {
    TargetCoversJitter(s.ctl.minFrames, s.ctl.maxFrames, s.ctl.k, s.ctl.frameUs, input.jitterUs);
  }

  lemma {:induction false} TargetHolds(s: Player, t: Timeline, inputs: seq<PullInput>)
    requires PlayerInv(s, t) && s.ctl.primed && Pulls(s, inputs).1 && s.ctl.sinceEval + |inputs| < s.ctl.evalInterval
    ensures Pulls(s, inputs).0.ctl.target == s.ctl.target && Pulls(s, inputs).0.ctl.sinceEval == s.ctl.sinceEval + |inputs|
    decreases inputs
  {
    if inputs != [] {
      TargetIs(s, t, inputs[0]);
      PullKeepsInv(s, t, inputs[0]);
      TargetHolds(Pull(s, inputs[0]).0, MapPull(s, t, inputs[0]), inputs[1..]);
    }
  }

  // ---------------------------------------------------------------- which way the depth is corrected

  function TrueDepth(t: Timeline): int { if t.started then Ahead(t) else 0 }

  /** A pull asks for a correction when the true depth is more than the deadband off the target, for a drop if it
      is too deep and for an insertion if it is too shallow, unless one is asked for already. */
  lemma CorrectionIs(s: Player, t: Timeline, input: PullInput)
    requires PlayerInv(s, t) && s.ctl.primed && Pull(s, input).1.Some?
    ensures var (c, t') := (Pull(s, input).0.ctl, MapPull(s, t, input));
            && (s.ctl.pending != Nothing ==> c.pending == s.ctl.pending)
            && (s.ctl.pending == Nothing ==>
                  && (c.pending.DropOne? <==> TrueDepth(t') > c.target + c.deadband)
                  && (c.pending.InsertOne? <==> TrueDepth(t') < c.target - c.deadband))
  {
    PullKeepsInv(s, t, input);
    DepthIsAhead(Pull(s, input).0, MapPull(s, t, input));
  }

  /** A live tick whose frame is quiet carries the correction out: a drop takes the buffer one frame nearer its
      end, an insertion makes the next pull take nothing; in any other tick there is none. */
  lemma QuietTickCorrects(s: Player, t: Timeline, input: TickInput)
    requires PlayerInv(s, t) && s.ctl.primed && Tick(s, input).1
    ensures var (s1, t1) := (Pulls(s, input.pulls).0, MapPulls(s, t, input.pulls));
            var (s2, t2) := (Tick(s, input).0, MapTick(s, t, input));
            && t2.rd == (if input.quiet && s1.ctl.pending.DropOne? && t1.started then t1.rd + 1 else t1.rd)
            && t2.hi == t1.hi && t2.started == t1.started
            && s2.insert == ((input.quiet && s1.ctl.pending.InsertOne?) || s1.insert)
            && s2.ctl.pending == if input.quiet then Nothing else s1.ctl.pending
  {
  }

  lemma InsertionTakesNothing(s: Player, t: Timeline, input: PullInput)
    requires PlayerInv(s, t) && s.ctl.primed && s.insert && Pull(s, input).1.Some?
    ensures MapPull(s, t, input) == t && Pull(s, input).1 == Some(false) && !Pull(s, input).0.insert
  {
  }

  /** One tick of the stepped path, from no correction to none: a depth that is off by more than the deadband is
      one frame nearer the target than the pull left it - at once for a drop, after the next pull for an
      insertion - and any other depth is as the pull left it. */
  lemma DepthIsCorrected(s: Player, t: Timeline, input: PullInput, next: PullInput)
    requires PlayerInv(s, t) && s.ctl.primed && !s.insert && s.ctl.pending == Nothing
    requires Pull(s, input).1.Some? && MapPull(s, t, input).started
    requires Pull(Tick(s, TickInput(false, [input], true)).0, next).1.Some?
    ensures var depth, c := TrueDepth(MapPull(s, t, input)), Pull(s, input).0.ctl;
            var (s2, t2) := (Tick(s, TickInput(false, [input], true)).0, MapTick(s, t, TickInput(false, [input], true)));
            && (depth > c.target + c.deadband ==> TrueDepth(t2) == depth - 1 && !s2.insert)
            && (depth < c.target - c.deadband ==> TrueDepth(t2) == depth && TrueDepth(MapPull(s2, t2, next)) == depth)
            && (c.target - c.deadband <= depth <= c.target + c.deadband ==> TrueDepth(t2) == depth && !s2.insert)
            && (!s2.insert ==> TrueDepth(MapPull(s2, t2, next)) == TrueDepth(t2) - 1)
  {
    var one := TickInput(false, [input], true);
    assert [input][1..] == [];
    assert Pulls(s, [input]) == (Pull(s, input).0, true) && MapPulls(s, t, [input]) == MapPull(s, t, input);
    CorrectionIs(s, t, input);
    QuietTickCorrects(s, t, one);
    TickKeepsInv(s, t, one);
    PullIs(Tick(s, one).0, MapTick(s, t, one), next);
    if Tick(s, one).0.insert { InsertionTakesNothing(Tick(s, one).0, MapTick(s, t, one), next); }
  }

  // ---------------------------------------------------------------- what is decoded

  /** Every pull takes the decoder one frame further: the next frame's bytes if they are there, concealment if
      they are not or are not accepted, or if a frame is to be inserted. */
  lemma BlockIs(codec: S.Codec, calls: nat, s: Player, t: Timeline)
    requires PlayerInv(s, t)
    ensures var b := S.NextBlock(codec, calls, s);
            if s.insert || !t.started || t.rd !in t.frames then !b.ok && b.pcm == codec(calls, None).pcm && b.calls == calls + 1
            else
              var d := codec(calls, Some(t.frames[t.rd].data));
              b.ok == d.ok && (if d.ok then b.pcm == d.pcm && b.calls == calls + 1
                               else b.pcm == codec(calls + 1, None).pcm && b.calls == calls + 2)
  {
    PopTracks(s.ring, t);
  }

  // ---------------------------------------------------------------- quiet moments

  lemma {:induction false} SumOfConstant(s: seq<real>, a: real)
    requires forall i | 0 <= i < |s| :: s[i] == a
    ensures S.SumOfSquares(s) == |s| as real * (a * a)
    decreases s
  {
    if s != [] {
      SumOfConstant(s[1..], a);
      assert |s| as real * (a * a) == a * a + (|s| - 1) as real * (a * a);
    }
  }

  /** A frame of one amplitude is quiet if and only if that is below 0.003, about -50 dBFS. */
  lemma ConstantIsQuietIff(s: seq<real>, a: real)
    requires s != [] && forall i | 0 <= i < |s| :: s[i] == a
    ensures S.Quiet(s) <==> -0.003 < a < 0.003
  {
    SumOfConstant(s, a);
    Cancels(|s| as real, a * a);
    SquareBelow(a);
  }

  lemma Cancels(n: real, x: real)
    requires n > 0.0
    ensures n * x / n == x
  {
  }

  lemma SquareBelow(a: real)
    ensures a * a < 0.003 * 0.003 <==> -0.003 < a < 0.003
  {
    assert a * a - 0.003 * 0.003 == (a - 0.003) * (a + 0.003);
    if a >= 0.003 { NotNegative(a - 0.003, a + 0.003); }
    if a <= -0.003 { NotNegative(0.003 - a, -0.003 - a); }
    if -0.003 < a < 0.003 { Positive(0.003 - a, a + 0.003); }
  }

  /** Scaling a frame down does not make it louder. */
  lemma {:induction false} LouderSum(s: seq<real>, r: seq<real>)
    requires |s| == |r| && forall i | 0 <= i < |s| :: Abs(s[i]) <= Abs(r[i])
    ensures S.SumOfSquares(s) <= S.SumOfSquares(r)
    decreases s
  {
    if s != [] {
      LouderSum(s[1..], r[1..]);
      NotNegative(Abs(r[0]) - Abs(s[0]), Abs(r[0]) + Abs(s[0]));
      assert Abs(r[0]) * Abs(r[0]) - Abs(s[0]) * Abs(s[0]) == (Abs(r[0]) - Abs(s[0])) * (Abs(r[0]) + Abs(s[0]));
    }
  }

  /** A frame no louder anywhere than a quiet one is quiet. */
  lemma SofterIsQuiet(s: seq<real>, r: seq<real>)
    requires |s| == |r| && (forall i | 0 <= i < |s| :: Abs(s[i]) <= Abs(r[i])) && S.Quiet(r)
    ensures S.Quiet(s)
  {
    if s != [] {
      LouderSum(s, r);
      Divided(S.SumOfSquares(s), S.SumOfSquares(r), |s| as real);
    }
  }

  lemma Divided(a: real, b: real, n: real)
    requires a <= b && n > 0.0
    ensures a / n <= b / n
  {
  }
}
