/** The receive chain of one stream (crates/jam-core/src/playout.rs) as the objects the audio callback
    owns: controller, drift controller, resampler and staging FIFO. */
module StreamPlayout {
  import opened Common
  import opened Jitter
  import opened Playout
  import opened Resample
  import opened Fifo
  import opened Drift
  import opened Timeline

  const MAX_FRAME_SAMPLES := 240
  const RESAMPLE_SLACK := 8

  /** -50 dBFS, squared: the gate compares mean squares, which order frames as their roots do. */
  const LOW_ENERGY_MS := 0.003 * 0.003

  function SumOfSquares(s: seq<real>): real {
    if s == [] then 0.0 else s[0] * s[0] + SumOfSquares(s[1..])
  }

  function Quiet(s: seq<real>): bool { s == [] || SumOfSquares(s) / |s| as real < LOW_ENERGY_MS }

  function NewController(frameSamples: nat, sampleRate: nat): Controller
    requires frameSamples > 0 && sampleRate > 0
  {
    var frameUs := frameSamples as real * 1000000.0 / sampleRate as real;
    Controller(frameUs, 2, 20, 3.0, 2, Max(0, (2000000.0 / frameUs).Floor), 0, false, 0,
               Max(0, (500000.0 / frameUs).Floor), Nothing, 1)
  }

  /** The two frame sizes a session can use, at its fixed sample rate. */
  lemma SessionControllersAreValid()
    ensures NewController(120, 48000).Valid() && NewController(240, 48000).Valid()
    ensures NewController(120, 48000) == Controller(2500.0, 2, 20, 3.0, 2, 800, 0, false, 0, 200, Nothing, 1)
    ensures NewController(240, 48000) == Controller(5000.0, 2, 20, 3.0, 2, 400, 0, false, 0, 100, Nothing, 1)
  {
    ShortFrames();
    LongFrames();
  }

  lemma ShortFrames()
    ensures NewController(120, 48000) == Controller(2500.0, 2, 20, 3.0, 2, 800, 0, false, 0, 200, Nothing, 1)
  {
    assert 2000000.0 / 2500.0 == 800.0 && 500000.0 / 2500.0 == 200.0;
  }

  lemma LongFrames()
    ensures NewController(240, 48000) == Controller(5000.0, 2, 20, 3.0, 2, 400, 0, false, 0, 100, Nothing, 1)
  {
    assert 2000000.0 / 5000.0 == 400.0 && 500000.0 / 5000.0 == 100.0;
  }

  /** A controller at a fixed depth, if one is asked for, and with a deadband. */
  function Set(c: Controller, jitterFixed: Option<int>, deadband: int): Controller {
    var c1 := if jitterFixed.Some? then c.(minFrames := jitterFixed.value, maxFrames := jitterFixed.value, target := jitterFixed.value) else c;
    c1.(deadband := deadband)
  }

  /** The controller a stream starts with: at a fixed depth if one is asked for, and with a deadband of 3 with
      drift correction and 1 without. */
  function StreamController(frameSamples: nat, sampleRate: nat, jitterFixed: Option<int>, driftCorrection: bool): Controller
    requires frameSamples > 0 && sampleRate > 0
  {
    Set(NewController(frameSamples, sampleRate), jitterFixed, if driftCorrection then 3 else 1)
  }

  /** Half a second of frames; and, if the depth is fixed below -1, as many more, up to one for each of them. */
  function SessionReach(frameSamples: nat, jitterFixed: Option<int>): int {
    var limit := if frameSamples == 120 then 200 else 100;
    if jitterFixed.None? then limit else Min(limit - 1 + Max(1, -jitterFixed.value), 2 * limit - 1)
  }

  /** What a session's controller starts with. */
  predicate Starts(c: Controller, reach: int, jitterFixed: Option<int>, driftCorrection: bool) {
    && c.Valid() && !c.primed && c.pending.Nothing? && c.Reach() == reach
    && c.target == (if jitterFixed.Some? then jitterFixed.value else 2)
    && c.deadband == if driftCorrection then 3 else 1
  }

  lemma SetReach(c: Controller, frameSamples: nat, jitterFixed: Option<int>, driftCorrection: bool)
    requires c.frameUs > 0.0 && c.minFrames == 2 == c.target && c.maxFrames == 20 && !c.primed && c.misses == 0 && c.pending.Nothing?
    requires c.resetAfter == if frameSamples == 120 then 200 else 100
    ensures Starts(Set(c, jitterFixed, if driftCorrection then 3 else 1), SessionReach(frameSamples, jitterFixed), jitterFixed, driftCorrection)
  {
  }

  lemma SessionControllerReach(frameSamples: nat, jitterFixed: Option<int>, driftCorrection: bool)
    requires frameSamples == 120 || frameSamples == 240
    ensures Starts(StreamController(frameSamples, 48000, jitterFixed, driftCorrection), SessionReach(frameSamples, jitterFixed), jitterFixed, driftCorrection)
  {
    if frameSamples == 120 { ShortFrames(); } else { LongFrames(); }
    SetReach(NewController(frameSamples, 48000), frameSamples, jitterFixed, driftCorrection);
  }

  /** Over every orderly run of a session's stream, with arrivals less than a ring ahead of the read position,
      with or without drift correction and at whatever depth is asked for: reading never passes the newest
      stored frame by more than the session's reach, and the 16-bit depth is always the true distance. */
  lemma ReadPositionStaysNearFromStart(frameSamples: nat, jitterFixed: Option<int>, driftCorrection: bool, events: seq<Event>)
    requires frameSamples == 120 || frameSamples == 240
    requires Orderly(Player(NEW_RING, StreamController(frameSamples, 48000, jitterFixed, driftCorrection), false), NEW_TIMELINE, events)
    ensures var s := Player(NEW_RING, StreamController(frameSamples, 48000, jitterFixed, driftCorrection), false);
            var (s', t') := (Play(s, events), PlayMap(s, NEW_TIMELINE, events));
            && Tracks(s'.ring, t')
            && (t'.started ==> -Ahead(t') <= SessionReach(frameSamples, jitterFixed))
            && Depth(s'.ring) == if t'.started then Ahead(t') else 0
  {
    var s := Player(NEW_RING, StreamController(frameSamples, 48000, jitterFixed, driftCorrection), false);
    SessionControllerReach(frameSamples, jitterFixed, driftCorrection);
    NewPlayerInv(s.ctl);
    ReadPositionStaysNear(s, NEW_TIMELINE, events);
    LimitsAreFixed(s, events);
  }

  class PlayoutController {
    const frameUs: real
    var minFrames: int
    var maxFrames: int
    const k: real
    var target: int
    const evalInterval: nat
    var sinceEval: nat
    var primed: bool
    var misses: nat
    const resetAfter: nat
    var pending: Adjust
    var deadband: int

    ghost function View(): Controller
      reads this
    {
      Controller(frameUs, minFrames, maxFrames, k, target, evalInterval, sinceEval, primed, misses, resetAfter, pending, deadband)
    }

    constructor (frameSamples: nat, sampleRate: nat)
      requires frameSamples > 0 && sampleRate > 0
      ensures View() == NewController(frameSamples, sampleRate)
    {
      var us := frameSamples as real * 1000000.0 / sampleRate as real;
      frameUs, minFrames, maxFrames, k, target := us, 2, 20, 3.0, 2;
      evalInterval := Max(0, (2000000.0 / us).Floor);
      resetAfter := Max(0, (500000.0 / us).Floor);
      sinceEval, primed, misses, pending, deadband := 0, false, 0, Nothing, 1;
    }

    method SetFixed(frames: int)
      modifies this
      ensures View() == old(View()).(minFrames := frames, maxFrames := frames, target := frames)
    {
      minFrames, maxFrames, target := frames, frames, frames;
    }

    method SetDeadband(frames: int)
      modifies this
      ensures View() == old(View()).(deadband := Max(frames, 1))
    {
      deadband := Max(frames, 1);
    }

    method PrePop(depth: int, started: bool) returns (ready: bool)
      modifies this
      ensures (View(), ready) == Playout.PrePop(old(View()), depth, started)
    {
      if !primed {
        if started && depth >= target {
          primed := true;
          misses := 0;
        }
        return primed;
      }
      return true;
    }

    method PostPop(hit: bool, jitterUs: real) returns (outage: bool)
      requires frameUs > 0.0
      modifies this
      ensures (View(), outage) == Playout.PostPop(old(View()), hit, jitterUs)
    {
      if hit {
        misses := 0;
      } else {
        misses := misses + 1;
        if misses >= resetAfter {
          primed := false;
          misses := 0;
          pending := Nothing;
          return true;
        }
      }
      sinceEval := sinceEval + 1;
      if sinceEval >= evalInterval {
        sinceEval := 0;
        target := Retarget(minFrames, maxFrames, k, frameUs, jitterUs);
      }
      return false;
    }

    method ObserveDepth(depth: int)
      modifies this
      ensures View() == Playout.ObserveDepth(old(View()), depth)
    {
      if pending != Nothing || !primed {
        return;
      }
      if depth > target + deadband {
        pending := DropOne;
      } else if depth < target - deadband {
        pending := InsertOne;
      }
    }

    method TakeAdjustment() returns (a: Adjust)
      modifies this
      ensures a == old(pending) && View() == old(View()).(pending := Nothing)
    {
      a := pending;
      pending := Nothing;
    }

    method Reset()
      modifies this
      ensures View() == Forget(old(View()))
    {
      primed, misses, pending, sinceEval := false, 0, Nothing, 0;
    }
  }

  /** What one call of the decoder does: whether it accepts, and what it leaves in the buffer. */
  datatype Decoded = Decoded(ok: bool, pcm: seq<real>)

  /** The codec is foreign code with a state of its own: its n-th call may do anything at all. */
  type Codec = (nat, Option<seq<byte>>) -> Decoded

  class Decoder {
    const codec: Codec
    const frame: nat
    var calls: nat

    ghost predicate Valid() { forall k: nat, p: Option<seq<byte>> :: |codec(k, p).pcm| == frame }

    constructor (codec: Codec, frame: nat)
      requires forall k: nat, p: Option<seq<byte>> :: |codec(k, p).pcm| == frame
      ensures Valid() && this.codec == codec && this.frame == frame && calls == 0
    {
      this.codec, this.frame, calls := codec, frame, 0;
    }

    method Decode(payload: Option<seq<byte>>, pcm: array<real>) returns (ok: bool)
      requires Valid() && frame <= pcm.Length
      modifies this, pcm
      ensures calls == old(calls) + 1 && ok == codec(old(calls), payload).ok
      ensures pcm[..frame] == codec(old(calls), payload).pcm
    {
      var d := codec(calls, payload);
      for i := 0 to frame
        invariant pcm[..i] == d.pcm[..i] && calls == old(calls)
      {
        pcm[i] := d.pcm[i];
      }
      calls := calls + 1;
      ok := d.ok;
    }
  }

  /** The samples a pull yields: a decoded frame, or concealment, and the decoder's calls so far. */
  datatype Block = Block(ok: bool, pcm: seq<real>, calls: nat)

  function NextBlock(codec: Codec, calls: nat, s: Player): Block
    requires s.Valid()
  {
    var (_, o, data) := Pop(s.ring);
    if s.insert || o.Missing? then Block(false, codec(calls, None).pcm, calls + 1)
    else if codec(calls, Some(data)).ok then Block(true, codec(calls, Some(data)).pcm, calls + 1)
    else Block(false, codec(calls + 1, None).pcm, calls + 2)
  }

  /** What a run of pulls yields: the blocks up to an outage, the decoder's calls, and whether the inputs
      say of every pull what the decoder said. */
  datatype Intake = Intake(blocks: seq<seq<real>>, calls: nat, faithful: bool)

  function TakenIn(codec: Codec, calls: nat, s: Player, inputs: seq<PullInput>): Intake
    requires s.Valid()
    decreases inputs
  {
    if inputs == [] then Intake([], calls, true)
    else
      var b := NextBlock(codec, calls, s);
      var (s1, hit) := Pull(s, inputs[0]);
      if hit.None? then Intake([], b.calls, inputs[0].decodes == b.ok)
      else
        var rest := TakenIn(codec, b.calls, s1, inputs[1..]);
        Intake([b.pcm] + rest.blocks, rest.calls, inputs[0].decodes == b.ok && rest.faithful)
  }

  lemma {:induction false} TakenInSnoc(codec: Codec, calls: nat, s: Player, inputs: seq<PullInput>, input: PullInput)
    requires s.Valid() && Pulls(s, inputs).1
    ensures var t, p := TakenIn(codec, calls, s, inputs), Pulls(s, inputs).0;
            var b := NextBlock(codec, t.calls, p);
            TakenIn(codec, calls, s, inputs + [input])
            == Intake(t.blocks + (if Pull(p, input).1.Some? then [b.pcm] else []), b.calls, t.faithful && input.decodes == b.ok)
    decreases inputs
  {
    if inputs == [] {
      assert inputs + [input] == [input] && [input][1..] == [];
    } else {
      var b, s1 := NextBlock(codec, calls, s), Pull(s, inputs[0]).0;
      assert (inputs + [input])[1..] == inputs[1..] + [input] && (inputs + [input])[0] == inputs[0];
      TakenInSnoc(codec, b.calls, s1, inputs[1..], input);
      var t, p := TakenIn(codec, b.calls, s1, inputs[1..]), Pulls(s1, inputs[1..]).0;
      Regroup([b.pcm], t.blocks, if Pull(p, input).1.Some? then [NextBlock(codec, t.calls, p).pcm] else []);
    }
  }

  class StreamPlayout {
    const controller: PlayoutController
    const resampler: HermiteResampler
    const drift: DriftController
    const staging: SampleFifo
    const decoder: Decoder
    const pktBuf: array<byte>
    const decodeBuf: array<real>
    const resampleBuf: array<real>
    const frame: nat
    const driftEnabled: bool
    var insertPending: bool
    /** Every call of the resampler, and everything played, since the stream was last reset. */
    ghost var feeds: seq<Feed>
    ghost var played: seq<real>

    ghost function Parts(): set<object> {
      {this, controller, resampler, drift, staging, staging.buf, decoder, pktBuf, decodeBuf, resampleBuf}
    }

    /** The resampler is where its calls have brought it, and what was played followed by what is staged is
        exactly what they wrote. */
    ghost predicate Continuous()
      requires staging.Valid()
      reads this, resampler, staging, staging.buf
    {
      History(feeds) == Stretch(resampler.xs, resampler.pos, played + staging.Contents())
    }

    ghost predicate Valid()
      reads Parts()
    {
      && 8 <= frame <= MAX_FRAME_SAMPLES
      && pktBuf.Length == MAX_FRAME_BYTES && decodeBuf.Length == MAX_FRAME_SAMPLES
      && resampleBuf.Length == MAX_FRAME_SAMPLES + RESAMPLE_SLACK
      && staging.buf.Length == 4 * frame + 2 * RESAMPLE_SLACK
      && decodeBuf != resampleBuf && staging.buf != decodeBuf && staging.buf != resampleBuf
      && controller.frameUs > 0.0 && staging.Valid() && resampler.Valid() && drift.View().Valid()
      && (if resampler.xs == [] then resampler.pos == 1.0 else |resampler.xs| >= 3 && resampler.phase < 1.03)
      && decoder.Valid() && decoder.frame == frame && Continuous()
    }

    /** The stream together with its jitter buffer, as the playout machine sees them. */
    ghost function View(jb: JitterBuffer): Player
      reads this, controller, jb, jb.slots
    {
      Player(jb.View(), controller.View(), insertPending)
    }

    constructor (frameSamples: nat, sampleRate: nat, jitterFixed: Option<int>, driftCorrection: bool, codec: Codec)
      requires 8 <= frameSamples <= MAX_FRAME_SAMPLES && sampleRate > 0
      requires forall k: nat, p: Option<seq<byte>> :: |codec(k, p).pcm| == frameSamples
      ensures fresh(controller) && fresh(resampler) && fresh(drift) && fresh(staging) && fresh(staging.buf)
      ensures fresh(decoder) && fresh(pktBuf) && fresh(decodeBuf) && fresh(resampleBuf)
      ensures Valid() && frame == frameSamples && driftEnabled == driftCorrection
      ensures controller.View() == StreamController(frameSamples, sampleRate, jitterFixed, driftCorrection)
      ensures !insertPending && feeds == [] && played == [] && decoder.codec == codec && decoder.calls == 0
    {
      var c := ControllerFor(frameSamples, sampleRate, jitterFixed, driftCorrection);
      var pkt, decoded, resamples := Scratch();
      controller, pktBuf, decodeBuf, resampleBuf := c, pkt, decoded, resamples;
      frame, driftEnabled, insertPending := frameSamples, driftCorrection, false;
      resampler := new HermiteResampler();
      decoder := new Decoder(codec, frameSamples);
      drift := new DriftController();
      staging := new SampleFifo(4 * frameSamples + 2 * RESAMPLE_SLACK);
      feeds, played := [], [];
    }

    static method ControllerFor(frameSamples: nat, sampleRate: nat, jitterFixed: Option<int>, driftCorrection: bool) returns (c: PlayoutController)
      requires 8 <= frameSamples <= MAX_FRAME_SAMPLES && sampleRate > 0
      ensures fresh(c) && c.frameUs > 0.0
      ensures c.View() == StreamController(frameSamples, sampleRate, jitterFixed, driftCorrection)
    {
      c := new PlayoutController(frameSamples, sampleRate);
      if jitterFixed.Some? {
        c.SetFixed(jitterFixed.value);
      }
      if driftCorrection {
        c.SetDeadband(3);
      }
    }

    static method Scratch() returns (pkt: array<byte>, decoded: array<real>, resamples: array<real>)
      ensures fresh(pkt) && fresh(decoded) && fresh(resamples) && decoded != resamples
      ensures pkt.Length == MAX_FRAME_BYTES && decoded.Length == MAX_FRAME_SAMPLES
      ensures resamples.Length == MAX_FRAME_SAMPLES + RESAMPLE_SLACK
    {
      pkt := new byte[MAX_FRAME_BYTES](_ => 0);
      decoded := new real[MAX_FRAME_SAMPLES](_ => 0.0);
      resamples := new real[MAX_FRAME_SAMPLES + RESAMPLE_SLACK](_ => 0.0);
    }

    method DrainStaging()
      requires staging.Valid()
      modifies staging
      ensures staging.Valid() && staging.len == 0
    {
      var sink := new real[MAX_FRAME_SAMPLES](_ => 0.0);
      while staging.len > 0
        invariant staging.Valid()
      {
        var take := Min(staging.len, MAX_FRAME_SAMPLES);
        var _ := staging.Pop(sink, take);
      }
    }

    /** Forgets priming and pending state and drains the staged samples; the drift estimate is kept. */
    method ResetStream(jb: JitterBuffer)
      requires Valid() && jb.Valid()
      modifies this, controller, resampler, staging
      ensures Valid() && View(jb) == Playout.ResetStream(old(View(jb)))
      ensures feeds == [] && played == [] && staging.len == 0
    {
      controller.Reset();
      insertPending := false;
      DrainStaging();
      resampler.Restart();
      resampler.SetRatio(1.0 + drift.currentPpm * 0.000001);
      feeds, played := [], [];
    }

    /** Pops one packet and decodes it, or conceals; true if a packet was decoded. */
    method DecodeNext(jb: JitterBuffer) returns (ok: bool)
      requires Valid() && jb.Valid() && !insertPending
      modifies pktBuf, decodeBuf, decoder, jb, jb.slots
      ensures jb.Valid() && jb.View() == Pop(old(jb.View())).0
      ensures Block(ok, decodeBuf[..frame], decoder.calls) == NextBlock(decoder.codec, old(decoder.calls), old(View(jb)))
    {
      var outcome := jb.PopNext(pktBuf);
      match outcome
      case Frame(len, _) =>
        ok := decoder.Decode(Some(pktBuf[..len]), decodeBuf);
        if !ok {
          var _ := decoder.Decode(None, decodeBuf);
        }
      case Missing =>
        ok := false;
        var _ := decoder.Decode(None, decodeBuf);
    }

    /** What the decoder writes this time, into `decodeBuf`. */
    method NextSamples(jb: JitterBuffer) returns (ok: bool)
      requires Valid() && jb.Valid()
      modifies this`insertPending, pktBuf, decodeBuf, decoder, jb, jb.slots
      ensures Valid() && jb.Valid() && !insertPending
      ensures jb.View() == if old(insertPending) then old(jb.View()) else Pop(old(jb.View())).0
      ensures Block(ok, decodeBuf[..frame], decoder.calls) == NextBlock(decoder.codec, old(decoder.calls), old(View(jb)))
    {
      ok := false;
      if insertPending {
        insertPending := false;
        var _ := decoder.Decode(None, decodeBuf);
      } else {
        ok := DecodeNext(jb);
      }
    }

    /** Takes one packet, or conceals, and decodes into `decodeBuf`; `None` after an outage. */
    method PullDecoded(jb: JitterBuffer) returns (hit: Option<bool>, ghost input: PullInput)
      requires Valid() && jb.Valid()
      modifies this`insertPending, controller, pktBuf, decodeBuf, decoder, jb, jb.slots
      ensures Valid() && jb.Valid() && (View(jb), hit) == Pull(old(View(jb)), input)
      ensures Block(input.decodes, decodeBuf[..frame], decoder.calls) == NextBlock(decoder.codec, old(decoder.calls), old(View(jb)))
    {
      var ok := NextSamples(jb);
      var jitterUs: real :| jitterUs >= 0.0;
      input := PullInput(ok, jitterUs);
      var outage := controller.PostPop(ok, jitterUs);
      if outage {
        jb.Clear();
        return None, input;
      }
      controller.ObserveDepth(jb.CurrentDepth());
      return Some(ok), input;
    }

    method ApplyStepAdjustment(jb: JitterBuffer, out: seq<real>)
      requires Valid() && jb.Valid()
      modifies this`insertPending, controller, jb, jb.slots
      ensures Valid() && jb.Valid() && View(jb) == Correct(old(View(jb)), Quiet(out))
    {
      if Quiet(out) {
        var a := controller.TakeAdjustment();
        match a
        case Nothing =>
        case DropOne => var _ := jb.SkipNext();
        case InsertOne => insertPending := true;
      }
    }

    /** One decoded frame goes through the resampler into staging. The resampler's output fits its buffer
        and staging has room for it, so no sample is lost. */
    method StageFrame()
      requires Valid() && staging.len < frame
      modifies this`feeds, resampler, resampleBuf, staging, staging.buf
      ensures Valid() && played == old(played) && resampler.ratio == old(resampler.ratio) > 0.0
      ensures feeds == old(feeds) + [Feed(old(decodeBuf[..frame]), resampler.ratio)]
      ensures resampler.xs != [] && staging.len > old(staging.len)
      ensures 1.03 * (staging.len - old(staging.len)) as real >= frame as real - (if old(resampler.xs) == [] then 3.0 else 1.03)
    {
      ghost var before, xs, pos := staging.Contents(), resampler.xs, resampler.pos;
      var n, written := ResampleFrame();
      var dropped := staging.Push(resampleBuf[..n]);
      assert dropped == 0 && staging.Contents() == before + written;
      ghost var fed := Feed(decodeBuf[..frame], resampler.ratio);
      FeedGoesOn(feeds, fed, xs, pos, played, before, written);
      feeds := feeds + [fed];
    }

    /** The decoded frame through the resampler: everything it writes fits. */
    method ResampleFrame() returns (n: nat, ghost written: seq<real>)
      requires Valid() && staging.len < frame
      modifies resampler, resampleBuf
      ensures resampler.Valid() && resampler.ratio == old(resampler.ratio) > 0.0
      ensures resampler.xs == old(resampler.xs) + decodeBuf[..frame] && |resampler.xs| >= 3 && resampler.phase < 1.03
      ensures written == Grid(resampler.xs, old(resampler.pos), StepOf(resampler.ratio))
      ensures resampler.pos == Spot(old(resampler.pos), StepOf(resampler.ratio), |written|)
      ensures n == |written| && n <= resampleBuf.Length && resampleBuf[..n] == written
      ensures 0 < n && staging.len + n <= staging.buf.Length
      ensures 1.03 * n as real >= frame as real - (if old(resampler.xs) == [] then 3.0 else 1.03)
    {
      ghost var from, step := resampler.pos, 1.0 / resampler.ratio;
      StepBounds(resampler.ratio, step);
      n, written := resampler.Process(decodeBuf[..frame], resampleBuf);
      BlockCount(from, step, Limit(resampler.xs), |written|);
      assert from < Limit(resampler.xs);
    }

    /** Pulls and resamples until a whole frame is staged, which takes at most two pulls; stops at an
        outage. What the resampler has been fed is exactly what the decoder wrote. */
    method FillStaging(jb: JitterBuffer) returns (alive: bool, ghost inputs: seq<PullInput>)
      requires Valid() && jb.Valid()
      modifies this`insertPending, this`feeds, controller, resampler, staging, staging.buf, decoder, pktBuf, decodeBuf, resampleBuf, jb, jb.slots
      ensures Valid() && jb.Valid() && (View(jb), alive) == Pulls(old(View(jb)), inputs)
      ensures alive ==> staging.len >= frame
      ensures |inputs| <= 2 && played == old(played) && resampler.ratio == old(resampler.ratio) > 0.0
      ensures var t := TakenIn(decoder.codec, old(decoder.calls), old(View(jb)), inputs);
              && t.faithful && decoder.calls == t.calls
              && feeds == old(feeds) + FeedsOf(t.blocks, resampler.ratio)
    {
      inputs := [];
      alive := true;
      ghost var s0, calls0 := View(jb), decoder.calls;
      assert feeds + FeedsOf([], resampler.ratio) == feeds;
      while staging.len < frame
        invariant Valid() && jb.Valid() && (View(jb), true) == Pulls(s0, inputs)
        invariant played == old(played) && resampler.ratio == old(resampler.ratio)
        invariant Fed(old(feeds), calls0, s0, inputs)
        invariant |inputs| <= 2
        invariant |inputs| == 1 ==> resampler.xs != [] && 1.03 * staging.len as real >= frame as real - 3.0
        invariant |inputs| == 2 ==> staging.len >= frame
        decreases 2 - |inputs|
      {
        alive, inputs := PullAndStage(jb, old(feeds), s0, calls0, inputs);
        if !alive {
          return;
        }
      }
    }

    /** One round of the loop. */
    method PullAndStage(jb: JitterBuffer, ghost feeds0: seq<Feed>, ghost s0: Player, ghost calls0: nat, ghost inputs0: seq<PullInput>)
      returns (alive: bool, ghost inputs: seq<PullInput>)
      requires Valid() && jb.Valid() && s0.Valid() && (View(jb), true) == Pulls(s0, inputs0) && staging.len < frame
      requires resampler.ratio > 0.0 && Fed(feeds0, calls0, s0, inputs0)
      modifies this`insertPending, this`feeds, controller, resampler, staging, staging.buf, decoder, pktBuf, decodeBuf, resampleBuf, jb, jb.slots
      ensures Valid() && jb.Valid() && |inputs| == |inputs0| + 1 && (View(jb), alive) == Pulls(s0, inputs)
      ensures played == old(played) && resampler.ratio == old(resampler.ratio) && Fed(feeds0, calls0, s0, inputs)
      ensures alive ==> resampler.xs != []
      ensures alive ==> 1.03 * (staging.len - old(staging.len)) as real >= frame as real - (if old(resampler.xs) == [] then 3.0 else 1.03)
      ensures alive ==> staging.len > old(staging.len)
    {
      ghost var t, block := TakenIn(decoder.codec, calls0, s0, inputs0), [];
      alive, inputs, block := PullMore(jb, s0, calls0, inputs0);
      if alive {
        FeedsGrow(feeds0, t.blocks, decodeBuf[..frame], resampler.ratio);
        StageFrame();
      } else {
        assert t.blocks + [] == t.blocks;
      }
    }

    /** One more pull; `block` is what is then to be fed to the resampler. */
    method PullMore(jb: JitterBuffer, ghost s0: Player, ghost calls0: nat, ghost inputs0: seq<PullInput>)
      returns (alive: bool, ghost inputs: seq<PullInput>, ghost block: seq<seq<real>>)
      requires Valid() && jb.Valid() && s0.Valid() && (View(jb), true) == Pulls(s0, inputs0)
      requires TakenIn(decoder.codec, calls0, s0, inputs0).faithful && decoder.calls == TakenIn(decoder.codec, calls0, s0, inputs0).calls
      modifies this`insertPending, controller, decoder, pktBuf, decodeBuf, jb, jb.slots
      ensures Valid() && jb.Valid() && |inputs| == |inputs0| + 1 && (View(jb), alive) == Pulls(s0, inputs)
      ensures block == if alive then [decodeBuf[..frame]] else []
      ensures TakenIn(decoder.codec, calls0, s0, inputs)
           == Intake(TakenIn(decoder.codec, calls0, s0, inputs0).blocks + block, decoder.calls, true)
    {
      var hit, input := PullDecoded(jb);
      PullsSnoc(s0, inputs0, input);
      TakenInSnoc(decoder.codec, calls0, s0, inputs0, input);
      inputs := inputs0 + [input];
      alive := hit.Some?;
      block := if alive then [decodeBuf[..frame]] else [];
    }

    /** The resampler has been fed what these pulls yielded, and the decoder called as often. */
    ghost predicate Fed(before: seq<Feed>, calls: nat, s: Player, inputs: seq<PullInput>)
      requires s.Valid() && resampler.ratio > 0.0
      reads this, resampler, decoder
    {
      var t := TakenIn(decoder.codec, calls, s, inputs);
      t.faithful && decoder.calls == t.calls && feeds == before + FeedsOf(t.blocks, resampler.ratio)
    }

    /** The default path: decoded frames flow through the resampler into staging, and exactly one frame
        leaves per tick. */
    method TickResampled(jb: JitterBuffer, out: array<real>) returns (live: bool, ghost inputs: seq<PullInput>)
      requires Valid() && jb.Valid() && out.Length == frame && out !in Parts()
      modifies this, controller, resampler, drift, staging, staging.buf, decoder, pktBuf, decodeBuf, resampleBuf, jb, jb.slots, out
      ensures Valid() && jb.Valid() && |inputs| <= 2
      ensures var (s, alive) := Pulls(old(View(jb)), inputs);
              live == alive && View(jb) == if alive then Correct(s, Quiet(out[..])) else Playout.ResetStream(s)
      ensures drift.View() == Updated(old(drift.View()), (old(jb.CurrentDepth()) - old(controller.target)) as real)
      ensures var t := TakenIn(decoder.codec, old(decoder.calls), old(View(jb)), inputs);
              && t.faithful && decoder.calls == t.calls && Ratio(drift.View()) > 0.0
              && if live then played == old(played) + out[..] && feeds == old(feeds) + FeedsOf(t.blocks, Ratio(drift.View()))
                 else feeds == [] && played == [] && forall i | 0 <= i < frame :: out[i] == 0.0
    {
      live, inputs := Gather(jb);
      if live {
        PlayFrame(jb, out);
      } else {
        FallSilent(jb, out);
      }
    }

    /** The ratio for this tick, then samples for it. */
    method Gather(jb: JitterBuffer) returns (alive: bool, ghost inputs: seq<PullInput>)
      requires Valid() && jb.Valid()
      modifies this`insertPending, this`feeds, controller, resampler, drift, staging, staging.buf, decoder, pktBuf, decodeBuf, resampleBuf, jb, jb.slots
      ensures Valid() && jb.Valid() && |inputs| <= 2 && (View(jb), alive) == Pulls(old(View(jb)), inputs)
      ensures drift.View() == Updated(old(drift.View()), (old(jb.CurrentDepth()) - old(controller.target)) as real)
      ensures (alive ==> staging.len >= frame) && played == old(played) && Ratio(drift.View()) > 0.0
      ensures var t := TakenIn(decoder.codec, old(decoder.calls), old(View(jb)), inputs);
              && t.faithful && decoder.calls == t.calls
              && feeds == old(feeds) + FeedsOf(t.blocks, Ratio(drift.View()))
    {
      Steer((jb.CurrentDepth() - controller.target) as real);
      alive, inputs := FillStaging(jb);
    }

    method PlayFrame(jb: JitterBuffer, out: array<real>)
      requires Valid() && jb.Valid() && out.Length == frame && out !in Parts() && frame <= staging.len
      modifies this`insertPending, this`played, controller, staging, jb, jb.slots, out
      ensures Valid() && jb.Valid() && View(jb) == Correct(old(View(jb)), Quiet(out[..])) && played == old(played) + out[..]
    {
      PopFrame(out);
      ApplyStepAdjustment(jb, out[..]);
    }

    method FallSilent(jb: JitterBuffer, out: array<real>)
      requires Valid() && jb.Valid() && out.Length == frame && out !in Parts()
      modifies this, controller, resampler, staging, out
      ensures Valid() && jb.Valid() && View(jb) == Playout.ResetStream(old(View(jb)))
      ensures feeds == [] && played == [] && forall i | 0 <= i < frame :: out[i] == 0.0
    {
      ResetStream(jb);
      Silence(out);
    }

    /** One controller update per tick; the resampler takes its ratio unclamped. */
    method Steer(err: real)
      requires Valid()
      modifies drift, resampler`ratio
      ensures Valid() && drift.View() == Updated(old(drift.View()), err) && resampler.ratio == Ratio(drift.View())
    {
      UpdateStaysBounded(drift.View(), err);
      var ratio := drift.Update(err);
      resampler.SetRatio(ratio);
    }

    method Silence(out: array<real>)
      modifies out
      ensures forall i | 0 <= i < out.Length :: out[i] == 0.0
    {
      forall i | 0 <= i < out.Length {
        out[i] := 0.0;
      }
    }

    method PopFrame(out: array<real>)
      requires Valid() && out.Length == frame && out !in Parts() && frame <= staging.len
      modifies this`played, staging, out
      ensures Valid() && played == old(played) + out[..]
    {
      var ok := staging.Pop(out, frame);
      assert out[..frame] == out[..];
      Regroup(played, out[..], staging.Contents());
      played := played + out[..];
    }

    /** The path without drift correction: one packet per tick. */
    method TickStepped(jb: JitterBuffer, out: array<real>) returns (live: bool, ghost input: PullInput)
      requires Valid() && jb.Valid() && out.Length == frame && out !in Parts()
      modifies this`insertPending, controller, decoder, pktBuf, decodeBuf, jb, jb.slots, out
      ensures Valid() && jb.Valid()
      ensures var (s, hit) := Pull(old(View(jb)), input);
              live == hit.Some? && View(jb) == if live then Correct(s, Quiet(out[..])) else s
      ensures var b := NextBlock(decoder.codec, old(decoder.calls), old(View(jb)));
              && input.decodes == b.ok && decoder.calls == b.calls
              && if live then out[..] == b.pcm else forall i | 0 <= i < frame :: out[i] == 0.0
    {
      var hit;
      hit, input := PullDecoded(jb);
      CopyDecoded(out);
      if hit.None? {
        Silence(out);
        return false, input;
      }
      ApplyStepAdjustment(jb, out[..]);
      live := true;
    }

    method CopyDecoded(out: array<real>)
      requires Valid() && out.Length == frame && out !in Parts()
      modifies out
      ensures out[..] == decodeBuf[..frame]
    {
      forall i | 0 <= i < frame {
        out[i] := decodeBuf[i];
      }
    }

    /** The samples of one tick are the decoder's: fed to the resampler at the drift controller's ratio, or
        played as they are; a stream that is not live gives silence. */
    ghost predicate Delivers(out: seq<real>, live: bool, primed: bool, t: Intake, feeds0: seq<Feed>, played0: seq<real>, ratio: real)
      reads this
    {
      if !primed then !live && feeds == feeds0 && played == played0
      else if !driftEnabled then feeds == feeds0 && played == played0 && (live ==> t.blocks == [out])
      else if live then ratio > 0.0 && played == played0 + out && feeds == feeds0 + FeedsOf(t.blocks, ratio)
      else feeds == [] && played == []
    }

    /** One frame of this stream: exactly a tick of the playout machine, for some jitter, with the samples
        the decoder wrote. */
    method Tick(jb: JitterBuffer, out: array<real>) returns (live: bool, ghost input: TickInput)
      requires Valid() && jb.Valid() && out.Length == frame && out !in Parts()
      modifies this, controller, resampler, drift, staging, staging.buf, decoder, pktBuf, decodeBuf, resampleBuf, jb, jb.slots, out
      ensures Valid() && jb.Valid() && (View(jb), live) == Playout.Tick(old(View(jb)), input)
      ensures |input.pulls| <= 2
      ensures !live ==> forall i | 0 <= i < frame :: out[i] == 0.0
      ensures var s := old(View(jb));
              var (ctl, primed) := PrePop(s.ctl, Depth(s.ring), s.ring.started);
              var t := TakenIn(decoder.codec, old(decoder.calls), s.(ctl := ctl), input.pulls);
              && t.faithful && decoder.calls == t.calls
              && Delivers(out[..], live, primed, t, old(feeds), old(played), Ratio(drift.View()))
    {
      var ready := controller.PrePop(jb.CurrentDepth(), jb.started);
      if !ready {
        Silence(out);
        return false, TickInput(driftEnabled, [], false);
      }
      live, input := TickPrimed(jb, out);
    }

    method TickPrimed(jb: JitterBuffer, out: array<real>) returns (live: bool, ghost input: TickInput)
      requires Valid() && jb.Valid() && out.Length == frame && out !in Parts()
      modifies this, controller, resampler, drift, staging, staging.buf, decoder, pktBuf, decodeBuf, resampleBuf, jb, jb.slots, out
      ensures Valid() && jb.Valid() && input.drift == driftEnabled && |input.pulls| <= 2
      ensures var (s, alive) := Pulls(old(View(jb)), input.pulls);
              live == alive && View(jb) == if alive then Correct(s, input.quiet) else if driftEnabled then Playout.ResetStream(s) else s
      ensures !live ==> forall i | 0 <= i < frame :: out[i] == 0.0
      ensures var t := TakenIn(decoder.codec, old(decoder.calls), old(View(jb)), input.pulls);
              && t.faithful && decoder.calls == t.calls
              && Delivers(out[..], live, true, t, old(feeds), old(played), Ratio(drift.View()))
    {
      if driftEnabled {
        ghost var inputs;
        live, inputs := TickResampled(jb, out);
        input := TickInput(true, inputs, Quiet(out[..]));
      } else {
        ghost var s0, calls0 := View(jb), decoder.calls;
        ghost var one;
        live, one := TickStepped(jb, out);
        input := TickInput(false, [one], Quiet(out[..]));
        OnePull(decoder.codec, calls0, s0, one);
      }
    }
  }

  /** One more feed, all of whose output is staged. */
  lemma FeedGoesOn(feeds: seq<Feed>, f: Feed, xs: seq<real>, pos: real, played: seq<real>, staged: seq<real>, written: seq<real>)
    requires History(feeds) == Stretch(xs, pos, played + staged) && written == Grid(xs + f.block, pos, StepOf(f.ratio))
    ensures History(feeds + [f]) == Stretch(xs + f.block, Spot(pos, StepOf(f.ratio), |written|), played + (staged + written))
  {
    HistorySnoc(feeds, f);
    Regroup(played, staged, written);
  }

  /** A single pull, as a run of pulls. */
  lemma OnePull(codec: Codec, calls: nat, s: Player, input: PullInput)
    requires s.Valid()
    ensures Pulls(s, [input]) == (Pull(s, input).0, Pull(s, input).1.Some?)
    ensures var b := NextBlock(codec, calls, s);
            TakenIn(codec, calls, s, [input])
            == Intake(if Pull(s, input).1.Some? then [b.pcm] else [], b.calls, input.decodes == b.ok)
  {
    PullsSnoc(s, [], input);
    TakenInSnoc(codec, calls, s, [], input);
    assert [] + [input] == [input];
  }

  lemma FeedsGrow(feeds: seq<Feed>, blocks: seq<seq<real>>, block: seq<real>, ratio: Rate)
    ensures feeds + FeedsOf(blocks + [block], ratio) == feeds + FeedsOf(blocks, ratio) + [Feed(block, ratio)]
  {
  }
}
