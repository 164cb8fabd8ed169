/** The mixing part of `HostPipeline::process_frame` (crates/jam-core/src/pipeline.rs:169-253): scratch
    frames rewritten in place, proved against the value model of the mix. */
module HostMix {
  import opened Common
  import opened Mix

  method NewSmoothers(alpha: real) returns (s: seq<SmoothedGain>)
    ensures |s| == CLIENTS + 2 && forall k | 0 <= k < |s| :: fresh(s[k]) && s[k].alpha == alpha && s[k].current == 1.0
    ensures forall j, k | 0 <= j < k < |s| :: s[j] != s[k]
  {
    s := [];
    for i := 0 to CLIENTS + 2
      invariant |s| == i && forall k | 0 <= k < i :: fresh(s[k]) && s[k].alpha == alpha && s[k].current == 1.0
      invariant forall j, k | 0 <= j < k < i :: s[j] != s[k]
    {
      var g := new SmoothedGain(1.0, alpha);
      s := s + [g];
    }
  }

  method NewFrames(frame: nat) returns (s: seq<array<real>>)
    ensures |s| == CLIENTS && forall k | 0 <= k < |s| :: fresh(s[k]) && s[k].Length == frame
    ensures forall j, k | 0 <= j < k < |s| :: s[j] != s[k]
  {
    s := [];
    for i := 0 to CLIENTS
      invariant |s| == i && forall k | 0 <= k < i :: fresh(s[k]) && s[k].Length == frame
      invariant forall j, k | 0 <= j < k < i :: s[j] != s[k]
    {
      var a := new real[frame](_ => 0.0);
      s := s + [a];
    }
  }

  class HostPipeline {
    const frame: nat
    const alpha: real
    const smoothers: seq<SmoothedGain>
    const mix: array<real>
    const scaledLocal: array<real>
    const scaled: seq<array<real>>
    const clientOut: array<real>

    ghost predicate Valid() {
      && |smoothers| == CLIENTS + 2 && |scaled| == CLIENTS
      && mix.Length == scaledLocal.Length == clientOut.Length == frame
      && (forall k | 0 <= k < |smoothers| :: smoothers[k].alpha == alpha)
      && (forall c | 0 <= c < CLIENTS :: scaled[c].Length == frame)
      && (forall j, k | 0 <= j < k < |smoothers| :: smoothers[j] != smoothers[k])
      && (forall b, c | 0 <= b < c < CLIENTS :: scaled[b] != scaled[c])
      && mix != scaledLocal && mix != clientOut && scaledLocal != clientOut
      && (forall c | 0 <= c < CLIENTS :: scaled[c] != mix && scaled[c] != scaledLocal && scaled[c] != clientOut)
    }

    ghost function Gains(): (g: seq<real>)
      reads smoothers
      ensures |g| == |smoothers|
    {
      seq(|smoothers|, k requires 0 <= k < |smoothers| reads smoothers => smoothers[k].current)
    }

    constructor (frame: nat, alpha: real)
      ensures Valid() && this.frame == frame && this.alpha == alpha && Gains() == seq(CLIENTS + 2, _ => 1.0)
    {
      var rows := NewFrames(frame);
      var gains := NewSmoothers(alpha);
      this.frame, this.alpha, scaled, smoothers := frame, alpha, rows, gains;
      mix, scaledLocal, clientOut := new real[frame](_ => 0.0), new real[frame](_ => 0.0), new real[frame](_ => 0.0);
    }

    method MixLocal(t: Tick)
      requires Valid() && t.Valid(frame)
      modifies smoothers[0], mix, scaledLocal
      ensures Gains() == old(Gains())[0 := NextGain(old(Gains()), t, alpha, 0)]
      ensures scaledLocal[..] == ScaledLocal(old(Gains()), t, alpha)
      ensures mix[..] == MixOf(old(Gains()), t, alpha, frame, 0)
    {
      var g := smoothers[0].Next(t.targets[0]);
      Copy(mix, seq(frame, _ => 0.0));
      ScaleInto(scaledLocal, t.local, g * MASTER_TRIM);
      MixScaled(mix, scaledLocal[..], 1.0);
    }

    method MixClient(t: Tick, c: nat, ghost gains: seq<real>)
      requires Valid() && Fits(gains, t, frame) && c < CLIENTS && smoothers[c + 1].current == gains[c + 1]
      requires mix[..] == MixOf(gains, t, alpha, frame, c)
      modifies smoothers[c + 1], mix, scaled[c]
      ensures smoothers[c + 1].current == NextGain(gains, t, alpha, c + 1)
      ensures scaled[c][..] == ScaledClient(gains, t, alpha, c)
      ensures mix[..] == MixOf(gains, t, alpha, frame, c + 1)
    {
      var g := smoothers[c + 1].Next(t.targets[c + 1]);
      ScaleInto(scaled[c], t.decoded[c], g * MASTER_TRIM);
      if t.active[c] {
        MixScaled(mix, scaled[c][..], 1.0);
      }
    }

    /** The mix of everyone, and each contribution kept for the subtraction that follows. */
    method MixEveryone(t: Tick)
      requires Valid() && t.Valid(frame)
      modifies smoothers, mix, scaledLocal, scaled
      ensures forall k | 0 <= k < CLIENTS + 1 :: smoothers[k].current == NextGain(old(Gains()), t, alpha, k)
      ensures smoothers[CLIENTS + 1].current == old(Gains())[CLIENTS + 1]
      ensures scaledLocal[..] == ScaledLocal(old(Gains()), t, alpha)
      ensures forall c | 0 <= c < CLIENTS :: scaled[c][..] == ScaledClient(old(Gains()), t, alpha, c)
      ensures mix[..] == MixOf(old(Gains()), t, alpha, frame, CLIENTS)
    {
      ghost var gains := Gains();
      MixLocal(t);
      assert forall k | 0 <= k < CLIENTS + 2 :: smoothers[k].current == Gains()[k];
      for c := 0 to CLIENTS
        invariant forall k | 0 <= k < CLIENTS + 2 :: smoothers[k].current == if k <= c then NextGain(gains, t, alpha, k) else gains[k]
        invariant scaledLocal[..] == ScaledLocal(gains, t, alpha)
        invariant forall b | 0 <= b < c :: scaled[b][..] == ScaledClient(gains, t, alpha, b)
        invariant mix[..] == MixOf(gains, t, alpha, frame, c)
      {
        MixClient(t, c, gains);
      }
    }

    /** The frame handed to one client's encoder. */
    method ReturnTo(t: Tick, c: nat, echo: bool, ghost gains: seq<real>) returns (sent: seq<real>)
      requires Valid() && Fits(gains, t, frame) && c < CLIENTS
      requires mix[..] == MixOf(gains, t, alpha, frame, CLIENTS) && scaled[c][..] == ScaledClient(gains, t, alpha, c)
      modifies clientOut
      ensures sent == Clipped(Return(gains, t, alpha, frame, echo, c))
    {
      if echo {
        Copy(clientOut, t.decoded[c]);
      } else {
        Copy(clientOut, mix[..]);
        UnmixScaled(clientOut, scaled[c][..], 1.0);
      }
      SoftClipBuf(clientOut);
      return clientOut[..];
    }

    method HearHost(t: Tick, mode: Monitor, hostOut: array<real>, ghost gains: seq<real>)
      requires Valid() && Fits(gains, t, frame) && hostOut.Length == frame && hostOut != mix && hostOut != scaledLocal
      requires mix[..] == MixOf(gains, t, alpha, frame, CLIENTS) && scaledLocal[..] == ScaledLocal(gains, t, alpha)
      requires smoothers[CLIENTS + 1].current == gains[CLIENTS + 1]
      modifies smoothers[CLIENTS + 1], hostOut
      ensures hostOut[..] == Clipped(Monitored(gains, t, alpha, frame, mode))
      ensures smoothers[CLIENTS + 1].current == if mode.Direct? then NextGain(gains, t, alpha, CLIENTS + 1) else gains[CLIENTS + 1]
    {
      Copy(hostOut, mix[..]);
      match mode
      {
        case ThroughMix =>
        case Off =>
          UnmixScaled(hostOut, scaledLocal[..], 1.0);
        case Direct =>
          UnmixScaled(hostOut, scaledLocal[..], 1.0);
          var g := smoothers[CLIENTS + 1].Next(t.targets[CLIENTS + 1]);
          MixScaled(hostOut, t.local, g);
      }
      SoftClipBuf(hostOut);
    }

    /** One frame tick: what each active client's encoder is given, and what the host hears. */
    method ProcessFrame(t: Tick, echo: bool, mode: Monitor, hostOut: array<real>) returns (sent: seq<Option<seq<real>>>)
      requires Valid() && t.Valid(frame) && hostOut.Length == frame
      requires hostOut != mix && hostOut != scaledLocal && hostOut != clientOut && forall c | 0 <= c < CLIENTS :: hostOut != scaled[c]
      modifies smoothers, mix, scaledLocal, scaled, clientOut, hostOut
      ensures |sent| == CLIENTS
      ensures forall c | 0 <= c < CLIENTS ::
                sent[c] == if t.active[c] then Some(Clipped(Return(old(Gains()), t, alpha, frame, echo, c))) else None
      ensures hostOut[..] == Clipped(Monitored(old(Gains()), t, alpha, frame, mode))
      ensures Gains() == GainsAfterTick(old(Gains()), t, alpha, mode)
    {
      ghost var gains := Gains();
      MixEveryone(t);
      sent := ReturnAll(t, echo, gains);
      HearHost(t, mode, hostOut, gains);
    }

    method ReturnAll(t: Tick, echo: bool, ghost gains: seq<real>) returns (sent: seq<Option<seq<real>>>)
      requires Valid() && Fits(gains, t, frame) && mix[..] == MixOf(gains, t, alpha, frame, CLIENTS)
      requires forall c | 0 <= c < CLIENTS :: scaled[c][..] == ScaledClient(gains, t, alpha, c)
      modifies clientOut
      ensures |sent| == CLIENTS
      ensures forall c | 0 <= c < CLIENTS ::
                sent[c] == if t.active[c] then Some(Clipped(Return(gains, t, alpha, frame, echo, c))) else None
    {
      sent := [];
      for c := 0 to CLIENTS
        invariant |sent| == c
        invariant forall b | 0 <= b < c ::
                    sent[b] == if t.active[b] then Some(Clipped(Return(gains, t, alpha, frame, echo, b))) else None
      {
        if t.active[c] {
          var out := ReturnTo(t, c, echo, gains);
          sent := sent + [Some(out)];
        } else {
          sent := sent + [None];
        }
      }
    }
  }
}
