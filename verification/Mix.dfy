/** Gain smoothing, mixing and clipping (crates/jam-audio/src/mixer.rs) and the host's mix-minus-self
    (crates/jam-core/src/pipeline.rs:169-253), over the reals. */
module Mix {
  import opened Common

  const MASTER_TRIM := 0.5
  const SNAP := 0.0001
  const CLIENTS := 4

  // ---------------------------------------------------------------- gain smoothing

  /** `SmoothedGain::next` */
  function Toward(current: real, target: real, alpha: real): real {
    var g := current + (target - current) * alpha;
    if Abs(g - target) < SNAP then target else g
  }

  class SmoothedGain {
    const alpha: real
    var current: real

    constructor (initial: real, alpha: real)
      ensures current == initial && this.alpha == alpha
    {
      this.alpha := alpha;
      current := initial;
    }

    method Next(target: real) returns (g: real)
      modifies this
      ensures g == current == Toward(old(current), target, alpha)
    {
      current := current + (target - current) * alpha;
      if Abs(current - target) < SNAP {
        current := target;
      }
      return current;
    }
  }

  /** The gain after `n` frames driven to one target. */
  function After(current: real, target: real, alpha: real, n: nat): real {
    if n == 0 then current else Toward(After(current, target, alpha, n - 1), target, alpha)
  }

  /** What one frame leaves of a distance to the target, and what `n` frames leave. */
  function Shrink(d: real, alpha: real): real { d * (1.0 - alpha) }

  function Left(d: real, alpha: real, n: nat): real { if n == 0 then d else Shrink(Left(d, alpha, n - 1), alpha) }

  lemma ShrinkPositive(d: real, alpha: real)
    requires 0.0 < alpha < 1.0 && 0.0 < d
    ensures 0.0 < Shrink(d, alpha) < d
  {
    Positive(d, 1.0 - alpha);
    Positive(d, alpha);
  }

  lemma ShrinkNegate(d: real, alpha: real)
    ensures Shrink(-d, alpha) == -Shrink(d, alpha)
  {
  }

  lemma ShrinkFacts(d: real, alpha: real)
    requires 0.0 < alpha < 1.0
    ensures if d > 0.0 then 0.0 < Shrink(d, alpha) < d else if d < 0.0 then d < Shrink(d, alpha) < 0.0 else Shrink(d, alpha) == 0.0
  {
    if d > 0.0 {
      ShrinkPositive(d, alpha);
    } else if d < 0.0 {
      ShrinkPositive(-d, alpha);
      ShrinkNegate(d, alpha);
    }
  }

  lemma TowardIs(g: real, target: real, alpha: real)
    ensures Toward(g, target, alpha)
         == if Abs(Shrink(g - target, alpha)) < SNAP then target else target + Shrink(g - target, alpha)
  {
    assert g + (target - g) * alpha - target == Shrink(g - target, alpha);
  }

  lemma {:induction false} AfterLeaves(current: real, target: real, alpha: real, n: nat)
    requires 0.0 < alpha < 1.0 && n > 0
    ensures var d := Left(current - target, alpha, n);
            After(current, target, alpha, n) == if Abs(d) < SNAP then target else target + d
  {
    var d := Left(current - target, alpha, n - 1);
    TowardIs(After(current, target, alpha, n - 1), target, alpha);
    ShrinkFacts(d, alpha);
    ShrinkFacts(0.0, alpha);
    if n > 1 {
      AfterLeaves(current, target, alpha, n - 1);
    }
  }

  function Power(x: real, n: nat): real { if n == 0 then 1.0 else Power(x, n - 1) * x }

  lemma Regrouped(d: real, p: real, q: real)
    ensures (d * p) * q == d * (p * q)
  {
  }

  /** What `n` frames leave of a distance, in closed form. */
  function Remains(d: real, alpha: real, n: nat): real { d * Power(1.0 - alpha, n) }

  lemma {:induction false} LeftIs(d: real, alpha: real, n: nat)
    ensures Left(d, alpha, n) == Remains(d, alpha, n)
  {
    if n > 0 {
      LeftIs(d, alpha, n - 1);
      Regrouped(d, Power(1.0 - alpha, n - 1), 1.0 - alpha);
    }
  }

  /** Smoothing in closed form: the distance to the target shrinks geometrically until it is below 0.0001, and
      from then on the gain is the target. */
  lemma {:induction false} AfterIs(current: real, target: real, alpha: real, n: nat)
    requires 0.0 < alpha < 1.0 && n > 0
    ensures var d := Remains(current - target, alpha, n);
            After(current, target, alpha, n) == if Abs(d) < 0.0001 then target else target + d
  {
    AfterLeaves(current, target, alpha, n);
    LeftIs(current - target, alpha, n);
  }

  /** The gain equals its target after `n` frames exactly when what is left is below the threshold. */
  lemma {:induction false} SettledIff(current: real, target: real, alpha: real, n: nat)
    requires 0.0 < alpha < 1.0 && n > 0
    ensures After(current, target, alpha, n) == target <==> Abs(Remains(current - target, alpha, n)) < 0.0001
  {
    AfterIs(current, target, alpha, n);
  }

  /** It never overshoots: it moves from where it is to no further than the target, and never away. */
  lemma NeverOvershoots(current: real, target: real, alpha: real)
    requires 0.0 < alpha < 1.0
    ensures current <= target ==> current <= Toward(current, target, alpha) <= target
    ensures current >= target ==> current >= Toward(current, target, alpha) >= target
  {
    TowardIs(current, target, alpha);
    ShrinkFacts(current - target, alpha);
  }

  lemma {:induction false} LeftOfAbs(d: real, alpha: real, n: nat)
    requires 0.0 < alpha < 1.0
    ensures Left(Abs(d), alpha, n) == Abs(Left(d, alpha, n))
  {
    if n > 0 {
      LeftOfAbs(d, alpha, n - 1);
      ShrinkFacts(Left(d, alpha, n - 1), alpha);
      ShrinkNegate(Left(d, alpha, n - 1), alpha);
    }
  }

  /** `1 + n * alpha`: Bernoulli's lower bound on how far a distance shrinks in `n` frames. */
  function Factor(alpha: real, n: nat): real { 1.0 + n as real * alpha }

  lemma {:induction false} Bernoulli(d: real, alpha: real, n: nat)
    requires 0.0 < alpha < 1.0 && d >= 0.0
    ensures 0.0 <= Left(d, alpha, n) && Left(d, alpha, n) * Factor(alpha, n) <= d
  {
    if n > 0 {
      Bernoulli(d, alpha, n - 1);
      ShrinkFacts(Left(d, alpha, n - 1), alpha);
      BernoulliStep(Left(d, alpha, n - 1), alpha, n - 1);
    }
  }

  lemma {:induction false} BernoulliStep(d: real, alpha: real, k: nat)
    requires d >= 0.0 && 0.0 < alpha
    ensures Shrink(d, alpha) * Factor(alpha, k + 1) <= d * Factor(alpha, k)
  {
    var slack := (k + 1) as real * (alpha * alpha);
    assert (1.0 - alpha) * Factor(alpha, k + 1) == Factor(alpha, k) - slack by { Expand(alpha, k as real); }
    NotNegative(alpha, alpha);
    NotNegative((k + 1) as real, alpha * alpha);
    NotNegative(d, slack);
    assert Shrink(d, alpha) * Factor(alpha, k + 1) == d * ((1.0 - alpha) * Factor(alpha, k + 1));
    assert d * (Factor(alpha, k) - slack) == d * Factor(alpha, k) - d * slack;
  }

  lemma Expand(alpha: real, k: real)
    ensures (1.0 - alpha) * (1.0 + (k + 1.0) * alpha) == 1.0 + k * alpha - (k + 1.0) * (alpha * alpha)
  {
  }

  /** A number of frames after which any gain has reached its target. */
  function SettlingFrames(distance: real, alpha: real): nat
    requires 0.0 < alpha && 0.0 <= distance
  {
    NonNegativeQuotient(distance, SNAP * alpha);
    (distance / (SNAP * alpha)).Floor + 1
  }

  lemma NonNegativeQuotient(d: real, u: real)
    requires 0.0 < u && 0.0 <= d
    ensures d / u >= 0.0
  {
  }

  lemma {:induction false} AboveFloor(d: real, u: real, n: nat)
    requires 0.0 < u && n >= (d / u).Floor + 1
    ensures n as real >= d / u
  {
    var q := d / u;
    assert n as real >= (q.Floor + 1) as real > q;
  }

  lemma {:induction false} LeftBelowSnap(d: real, alpha: real, n: nat)
    requires 0.0 < alpha < 1.0 && d >= 0.0 && n as real >= d / (SNAP * alpha)
    ensures Left(d, alpha, n) < SNAP
  {
    Bernoulli(d, alpha, n);
    EnoughFrames(d, alpha, n);
    Cancel(Left(d, alpha, n), SNAP, Factor(alpha, n), d);
  }

  /** Driven to a fixed target, every gain equals it exactly after finitely many frames, and stays there. */
  lemma {:induction false} GainSettles(current: real, target: real, alpha: real, n: nat)
    requires 0.0 < alpha < 1.0 && n >= SettlingFrames(Abs(current - target), alpha)
    ensures After(current, target, alpha, n) == target
  {
    AboveFloor(Abs(current - target), SNAP * alpha, n);
    LeftBelowSnap(Abs(current - target), alpha, n);
    LeftOfAbs(current - target, alpha, n);
    AfterLeaves(current, target, alpha, n);
  }

  lemma Cancel(a: real, b: real, x: real, d: real)
    requires x > 0.0 && a * x <= d < b * x
    ensures a < b
  {
  }

  lemma {:induction false} EnoughFrames(d: real, alpha: real, n: nat)
    requires 0.0 < alpha && d >= 0.0 && n as real >= d / (SNAP * alpha)
    ensures d < SNAP * Factor(alpha, n) && Factor(alpha, n) > 0.0
  {
    var u := SNAP * alpha;
    assert u * (d / u) == d;
    NotNegative(u, n as real - d / u);
    NotNegative(n as real, alpha);
    assert u * n as real == SNAP * (n as real * alpha);
  }

  // ---------------------------------------------------------------- soft clipping

  function SoftClip(x: real): real {
    if x >= 1.0 then 2.0 / 3.0 else if x <= -1.0 then -2.0 / 3.0 else x - x * x * x / 3.0
  }

  /** On the knee, the clipper's slope between two points is not negative. */
  lemma KneeIsMonotone(x: real, y: real)
    requires -1.0 <= x <= y <= 1.0
    ensures x - x * x * x / 3.0 <= y - y * y * y / 3.0
  {
    var q := x * x + x * y + y * y;
    UnitProduct(x, x);
    UnitProduct(x, y);
    UnitProduct(y, y);
    assert (y - x) * q == y * y * y - x * x * x;
    Bounded(y - x, q);
  }

  lemma UnitProduct(x: real, y: real)
    requires -1.0 <= x <= 1.0 && -1.0 <= y <= 1.0
    ensures x * y <= 1.0
  {
    NotNegative(1.0 - x, 1.0 + y);
    NotNegative(1.0 + x, 1.0 - y);
  }

  lemma Bounded(d: real, q: real)
    requires d >= 0.0 && q <= 3.0
    ensures d * q <= 3.0 * d
  {
  }

  /** The clipper keeps the order of its inputs and stays within two thirds of full scale. */
  lemma SoftClipIsMonotoneAndBounded(x: real, y: real)
    requires x <= y
    ensures -2.0 / 3.0 <= SoftClip(x) <= SoftClip(y) <= 2.0 / 3.0
  {
    var cx, cy := Clamp(x, -1.0, 1.0), Clamp(y, -1.0, 1.0);
    KneeIsMonotone(-1.0, cx);
    KneeIsMonotone(cx, cy);
    KneeIsMonotone(cy, 1.0);
  }

  /** The clipper's slope: 1 at rest, falling smoothly to 0 at full scale, beyond which it is flat; between any
      two points of the knee it is 1 less a third of their squares and product. */
  lemma SoftClipSlope(x: real, y: real)
    ensures -1.0 <= x <= 1.0 && -1.0 <= y <= 1.0 ==> SoftClip(x) - SoftClip(y) == (x - y) * (1.0 - (x * x + x * y + y * y) / 3.0)
    ensures x >= 1.0 ==> SoftClip(x) == SoftClip(1.0)
    ensures x <= -1.0 ==> SoftClip(x) == SoftClip(-1.0)
    ensures SoftClip(0.0) == 0.0
  {
    if -1.0 <= x <= 1.0 && -1.0 <= y <= 1.0 {
      Knee(x);
      Knee(y);
      var q := x * x + x * y + y * y;
      assert (x - y) * q == x * x * x - y * y * y;
      assert (x - y) * (1.0 - q / 3.0) == (x - y) - (x - y) * q / 3.0;
    }
  }

  lemma Knee(x: real)
    requires -1.0 <= x <= 1.0
    ensures SoftClip(x) == x - x * x * x / 3.0
  {
  }

  /** It is odd. */
  lemma SoftClipIsOdd(x: real)
    ensures SoftClip(-x) == -SoftClip(x)
  {
    assert (-x) * (-x) * (-x) == -(x * x * x);
  }

  // ---------------------------------------------------------------- frames

  /** One sample of a mix: what was there and the scaled newcomer. */
  function Tap(d: real, s: real, g: real): real { d + s * g }

  function Times(s: real, g: real): real { s * g }

  function Scaled(src: seq<real>, g: real): (r: seq<real>)
    ensures |r| == |src|
  {
    seq(|src|, i requires 0 <= i < |src| => Times(src[i], g))
  }

  function Plus(dst: seq<real>, src: seq<real>, g: real): (r: seq<real>)
    requires |dst| == |src|
    ensures |r| == |dst|
  {
    seq(|dst|, i requires 0 <= i < |dst| => Tap(dst[i], src[i], g))
  }

  function Minus(dst: seq<real>, src: seq<real>, g: real): (r: seq<real>)
    requires |dst| == |src|
    ensures |r| == |dst|
  {
    seq(|dst|, i requires 0 <= i < |dst| => Tap(dst[i], src[i], -g))
  }

  function Clipped(s: seq<real>): (r: seq<real>)
    ensures |r| == |s|
  {
    seq(|s|, i requires 0 <= i < |s| => SoftClip(s[i]))
  }

  method MixScaled(dst: array<real>, src: seq<real>, gain: real)
    requires dst.Length == |src|
    modifies dst
    ensures dst[..] == Plus(old(dst[..]), src, gain)
  {
    for i := 0 to dst.Length
      invariant forall j | 0 <= j < dst.Length :: dst[j] == if j < i then Tap(old(dst[j]), src[j], gain) else old(dst[j])
    {
      dst[i] := dst[i] + src[i] * gain;
    }
  }

  method UnmixScaled(dst: array<real>, src: seq<real>, gain: real)
    requires dst.Length == |src|
    modifies dst
    ensures dst[..] == Minus(old(dst[..]), src, gain)
  {
    for i := 0 to dst.Length
      invariant forall j | 0 <= j < dst.Length :: dst[j] == if j < i then Tap(old(dst[j]), src[j], -gain) else old(dst[j])
    {
      assert dst[i] - src[i] * gain == Tap(dst[i], src[i], -gain);
      dst[i] := dst[i] - src[i] * gain;
    }
  }

  method SoftClipBuf(buf: array<real>)
    modifies buf
    ensures buf[..] == Clipped(old(buf[..]))
  {
    for i := 0 to buf.Length
      invariant forall j | 0 <= j < buf.Length :: buf[j] == if j < i then SoftClip(old(buf[j])) else old(buf[j])
    {
      buf[i] := SoftClip(buf[i]);
    }
  }

  method Copy(dst: array<real>, src: seq<real>)
    requires dst.Length == |src|
    modifies dst
    ensures dst[..] == src
  {
    for i := 0 to dst.Length
      invariant dst[..i] == src[..i]
    {
      dst[i] := src[i];
    }
  }

  method ScaleInto(dst: array<real>, src: seq<real>, gain: real)
    requires dst.Length == |src|
    modifies dst
    ensures dst[..] == Scaled(src, gain)
  {
    for i := 0 to dst.Length
      invariant forall j | 0 <= j < i :: dst[j] == Times(src[j], gain)
    {
      dst[i] := src[i] * gain;
    }
  }

  // ---------------------------------------------------------------- the host's frame tick

  datatype Monitor = ThroughMix | Off | Direct

  /** One tick's inputs: the host's own frame, one decoded frame per client (silence for an inactive one),
      which clients are active, and the gain targets, already zero for whoever is muted or soloed out;
      target 0 is the host's own, target 5 its monitor's. */
  datatype Tick = Tick(local: seq<real>, decoded: seq<seq<real>>, active: seq<bool>, targets: seq<real>) {
    predicate Valid(frame: nat) {
      && |local| == frame && |active| == CLIENTS && |targets| == CLIENTS + 2
      && |decoded| == CLIENTS && forall c | 0 <= c < CLIENTS :: |decoded[c]| == frame
    }
  }

  /** The smoothed gains a tick uses: 0 the host, 1 to 4 the clients. */
  function NextGain(gains: seq<real>, t: Tick, alpha: real, k: nat): real
    requires k < |gains| && k < |t.targets|
  {
    Toward(gains[k], t.targets[k], alpha)
  }

  function ScaledLocal(gains: seq<real>, t: Tick, alpha: real): seq<real>
    requires |gains| > 0 && |t.targets| > 0
  {
    Scaled(t.local, NextGain(gains, t, alpha, 0) * MASTER_TRIM)
  }

  function ScaledClient(gains: seq<real>, t: Tick, alpha: real, c: nat): seq<real>
    requires c + 1 < |gains| && c + 1 < |t.targets| && c < |t.decoded|
  {
    Scaled(t.decoded[c], NextGain(gains, t, alpha, c + 1) * MASTER_TRIM)
  }

  predicate Fits(gains: seq<real>, t: Tick, frame: nat) { t.Valid(frame) && |gains| == CLIENTS + 2 }

  /** The mix of the host and the first `n` clients. */
  function MixOf(gains: seq<real>, t: Tick, alpha: real, frame: nat, n: nat): (r: seq<real>)
    requires Fits(gains, t, frame) && n <= CLIENTS
    ensures |r| == frame
  {
    if n == 0 then Plus(seq(frame, _ => 0.0), ScaledLocal(gains, t, alpha), 1.0)
    else
      var m := MixOf(gains, t, alpha, frame, n - 1);
      if t.active[n - 1] then Plus(m, ScaledClient(gains, t, alpha, n - 1), 1.0) else m
  }

  /** What client `c` is sent before clipping. */
  function Return(gains: seq<real>, t: Tick, alpha: real, frame: nat, echo: bool, c: nat): (r: seq<real>)
    requires Fits(gains, t, frame) && c < CLIENTS
    ensures |r| == frame
  {
    if echo then t.decoded[c] else Minus(MixOf(gains, t, alpha, frame, CLIENTS), ScaledClient(gains, t, alpha, c), 1.0)
  }

  /** What the host hears before clipping. */
  function Monitored(gains: seq<real>, t: Tick, alpha: real, frame: nat, mode: Monitor): (r: seq<real>)
    requires Fits(gains, t, frame)
    ensures |r| == frame
  {
    var mix := MixOf(gains, t, alpha, frame, CLIENTS);
    var others := Minus(mix, ScaledLocal(gains, t, alpha), 1.0);
    match mode
    case ThroughMix => mix
    case Off => others
    case Direct => Plus(others, t.local, NextGain(gains, t, alpha, CLIENTS + 1))
  }

  /** The gain-weighted sum of the first `n` clients' samples at `i`, leaving one out. */
  function Sum(gains: seq<real>, t: Tick, alpha: real, frame: nat, i: nat, except: int, n: nat): real
    requires Fits(gains, t, frame) && n <= CLIENTS && i < frame
  {
    if n == 0 then 0.0
    else
      var own := if t.active[n - 1] && n - 1 != except then NextGain(gains, t, alpha, n) * t.decoded[n - 1][i] else 0.0;
      Sum(gains, t, alpha, frame, i, except, n - 1) + own
  }

  lemma {:induction false} MixIsSum(gains: seq<real>, t: Tick, alpha: real, frame: nat, i: nat, n: nat)
    requires Fits(gains, t, frame) && n <= CLIENTS && i < frame
    ensures MixOf(gains, t, alpha, frame, n)[i]
         == MASTER_TRIM * (NextGain(gains, t, alpha, 0) * t.local[i] + Sum(gains, t, alpha, frame, i, -1, n))
  {
    if n > 0 {
      MixIsSum(gains, t, alpha, frame, i, n - 1);
    }
  }

  lemma {:induction false} SumWithout(gains: seq<real>, t: Tick, alpha: real, frame: nat, i: nat, c: nat, n: nat)
    requires Fits(gains, t, frame) && n <= CLIENTS && i < frame && c < CLIENTS && t.active[c]
    ensures Sum(gains, t, alpha, frame, i, -1, n)
         == Sum(gains, t, alpha, frame, i, c, n) + if c < n then NextGain(gains, t, alpha, c + 1) * t.decoded[c][i] else 0.0
  {
    if n > 0 { SumWithout(gains, t, alpha, frame, i, c, n - 1); }
  }

  /** Mix-minus-self: outside echo mode, an active client is sent, before clipping, the trimmed
      gain-weighted sum of the host and all the other active clients. */
  lemma EveryoneButYourself(gains: seq<real>, t: Tick, alpha: real, frame: nat, c: nat, i: nat)
    requires Fits(gains, t, frame) && c < CLIENTS && t.active[c] && i < frame
    ensures Return(gains, t, alpha, frame, false, c)[i]
         == MASTER_TRIM * (NextGain(gains, t, alpha, 0) * t.local[i] + Sum(gains, t, alpha, frame, i, c, CLIENTS))
  {
    MixIsSum(gains, t, alpha, frame, i, CLIENTS);
    SumWithout(gains, t, alpha, frame, i, c, CLIENTS);
  }

  /** What a tick adds to the other players' sum in what the host hears. */
  function Own(gains: seq<real>, t: Tick, alpha: real, mode: Monitor, i: nat): real
    requires |gains| == |t.targets| == CLIENTS + 2 && i < |t.local|
  {
    match mode
    case ThroughMix => MASTER_TRIM * (NextGain(gains, t, alpha, 0) * t.local[i])
    case Off => 0.0
    case Direct => t.local[i] * NextGain(gains, t, alpha, CLIENTS + 1)
  }

  /** The host hears everyone, or everyone but itself, or the latter with its own dry signal added. */
  lemma HostHears(gains: seq<real>, t: Tick, alpha: real, frame: nat, mode: Monitor, i: nat)
    requires Fits(gains, t, frame) && i < frame
    ensures var others := MASTER_TRIM * Sum(gains, t, alpha, frame, i, -1, CLIENTS);
            Monitored(gains, t, alpha, frame, mode)[i] == others + Own(gains, t, alpha, mode, i)
  {
    match mode
    case ThroughMix => MixIsSum(gains, t, alpha, frame, i, CLIENTS);
    case Off => LocalTakenOut(gains, t, alpha, frame, i);
    case Direct => LocalTakenOut(gains, t, alpha, frame, i);
  }

  /** One sample of what the host hears, before clipping: the sum of the others is halved, and so is the host's
      own part of it; in direct mode its dry signal is added at the monitor's gain, not halved. */
  lemma HostHearsExactly(gains: seq<real>, t: Tick, alpha: real, frame: nat, mode: Monitor, i: nat)
    requires Fits(gains, t, frame) && i < frame
    ensures var heard, others := Monitored(gains, t, alpha, frame, mode)[i], 0.5 * Sum(gains, t, alpha, frame, i, -1, CLIENTS);
            && (mode.ThroughMix? ==> heard == others + 0.5 * (NextGain(gains, t, alpha, 0) * t.local[i]))
            && (mode.Off? ==> heard == others)
            && (mode.Direct? ==> heard == others + t.local[i] * NextGain(gains, t, alpha, CLIENTS + 1))
  {
    HostHears(gains, t, alpha, frame, mode, i);
  }

  /** And of what a client is sent: half the sum of everybody else, or, in echo mode, its own frame back. */
  lemma ClientHearsExactly(gains: seq<real>, t: Tick, alpha: real, frame: nat, c: nat, i: nat)
    requires Fits(gains, t, frame) && i < frame && c < CLIENTS
    ensures Return(gains, t, alpha, frame, true, c)[i] == t.decoded[c][i]
    ensures t.active[c] ==>
              Return(gains, t, alpha, frame, false, c)[i]
              == 0.5 * (NextGain(gains, t, alpha, 0) * t.local[i] + Sum(gains, t, alpha, frame, i, c, CLIENTS))
  {
    if t.active[c] { EveryoneButYourself(gains, t, alpha, frame, c, i); }
  }

  lemma LocalTakenOut(gains: seq<real>, t: Tick, alpha: real, frame: nat, i: nat)
    requires Fits(gains, t, frame) && i < frame
    ensures Minus(MixOf(gains, t, alpha, frame, CLIENTS), ScaledLocal(gains, t, alpha), 1.0)[i]
         == MASTER_TRIM * Sum(gains, t, alpha, frame, i, -1, CLIENTS)
  {
    MixIsSum(gains, t, alpha, frame, i, CLIENTS);
  }

  /** Two ticks that differ at most in what player `j` plays, whose smoothed gain has reached zero. */
  ghost predicate DifferInMuted(gains: seq<real>, t: Tick, u: Tick, alpha: real, frame: nat, j: nat) {
    && Fits(gains, t, frame) && Fits(gains, u, frame) && j < CLIENTS
    && NextGain(gains, t, alpha, j + 1) == 0.0
    && u == t.(decoded := u.decoded) && forall k | 0 <= k < CLIENTS && k != j :: u.decoded[k] == t.decoded[k]
  }

  lemma {:induction false} SilentInSum(gains: seq<real>, t: Tick, u: Tick, alpha: real, frame: nat, i: nat, except: int, j: nat, n: nat)
    requires DifferInMuted(gains, t, u, alpha, frame, j) && n <= CLIENTS && i < frame
    ensures Sum(gains, t, alpha, frame, i, except, n) == Sum(gains, u, alpha, frame, i, except, n)
  {
    if n > 0 { SilentInSum(gains, t, u, alpha, frame, i, except, j, n - 1); }
  }

  /** A muted player contributes exactly nothing: nobody else's frame depends on what that player plays. */
  lemma MutedIsInaudibleToClients(gains: seq<real>, t: Tick, u: Tick, alpha: real, frame: nat, j: nat, c: nat, i: nat)
    requires DifferInMuted(gains, t, u, alpha, frame, j) && i < frame && c < CLIENTS && t.active[c] && c != j
    ensures Return(gains, t, alpha, frame, false, c)[i] == Return(gains, u, alpha, frame, false, c)[i]
  {
    EveryoneButYourself(gains, t, alpha, frame, c, i);
    EveryoneButYourself(gains, u, alpha, frame, c, i);
    SilentInSum(gains, t, u, alpha, frame, i, c, j, CLIENTS);
  }

  /** Nor does what the host hears. */
  lemma MutedIsInaudibleToHost(gains: seq<real>, t: Tick, u: Tick, alpha: real, frame: nat, mode: Monitor, j: nat, i: nat)
    requires DifferInMuted(gains, t, u, alpha, frame, j) && i < frame
    ensures Monitored(gains, t, alpha, frame, mode)[i] == Monitored(gains, u, alpha, frame, mode)[i]
  {
    HostHears(gains, t, alpha, frame, mode, i);
    HostHears(gains, u, alpha, frame, mode, i);
    SilentInSum(gains, t, u, alpha, frame, i, -1, j, CLIENTS);
    SameOwn(gains, t, u, alpha, mode, i);
  }

  /** The host's own part does not depend on what the clients play. */
  lemma SameOwn(gains: seq<real>, t: Tick, u: Tick, alpha: real, mode: Monitor, i: nat)
    requires |gains| == |t.targets| == CLIENTS + 2 && i < |t.local| && u.local == t.local && u.targets == t.targets
    ensures Own(gains, t, alpha, mode, i) == Own(gains, u, alpha, mode, i)
  {
  }

  // ---------------------------------------------------------------- runs of ticks

  /** The gains a tick leaves; the monitor's moves only in direct mode. */
  function GainsAfterTick(gains: seq<real>, t: Tick, alpha: real, mode: Monitor): (r: seq<real>)
    requires |gains| == |t.targets| == CLIENTS + 2
    ensures |r| == CLIENTS + 2
  {
    seq(CLIENTS + 2, k requires 0 <= k < CLIENTS + 2 => if k <= CLIENTS || mode.Direct? then NextGain(gains, t, alpha, k) else gains[k])
  }

  function GainsAfter(gains: seq<real>, ticks: seq<Tick>, alpha: real, mode: Monitor): (r: seq<real>)
    requires |gains| == CLIENTS + 2 && forall t | t in ticks :: |t.targets| == CLIENTS + 2
    ensures |r| == CLIENTS + 2
  {
    if ticks == [] then gains
    else GainsAfterTick(GainsAfter(gains, ticks[..|ticks| - 1], alpha, mode), ticks[|ticks| - 1], alpha, mode)
  }

  /** A player's gain driven to one target by every tick of a run; the monitor's own moves only in direct mode. */
  lemma {:induction false} GainFollows(gains: seq<real>, ticks: seq<Tick>, alpha: real, mode: Monitor, k: nat, target: real)
    requires |gains| == CLIENTS + 2 && k < CLIENTS + 2
    requires forall t | t in ticks :: |t.targets| == CLIENTS + 2 && t.targets[k] == target
    ensures GainsAfter(gains, ticks, alpha, mode)[k] == if k < 5 || mode.Direct? then After(gains[k], target, alpha, |ticks|) else gains[k]
    decreases |ticks|
  {
    if ticks != [] {
      assert ticks[|ticks| - 1] in ticks;
      GainFollows(gains, ticks[..|ticks| - 1], alpha, mode, k, target);
    }
  }

  /** Muting takes effect in finitely many frames and then completely: once a player has been muted for that
      many ticks, and for as long as it stays muted, neither the host nor any other client hears anything of
      what it plays. */
  lemma MutedPlayerFallsSilent(gains: seq<real>, ticks: seq<Tick>, t: Tick, u: Tick, alpha: real, frame: nat, mode: Monitor, j: nat, c: nat, i: nat)
    requires 0.0 < alpha < 1.0 && |gains| == CLIENTS + 2 && j < CLIENTS && c < CLIENTS && i < frame
    requires forall x | x in ticks :: |x.targets| == CLIENTS + 2 && x.targets[j + 1] == 0.0
    requires |ticks| >= SettlingFrames(Abs(gains[j + 1]), alpha)
    requires t.Valid(frame) && u.Valid(frame) && t.targets[j + 1] == 0.0
    requires u == t.(decoded := u.decoded) && forall k | 0 <= k < CLIENTS && k != j :: u.decoded[k] == t.decoded[k]
    ensures var g := GainsAfter(gains, ticks, alpha, mode);
            && (t.active[c] && c != j ==> Return(g, t, alpha, frame, false, c)[i] == Return(g, u, alpha, frame, false, c)[i])
            && Monitored(g, t, alpha, frame, mode)[i] == Monitored(g, u, alpha, frame, mode)[i]
  {
    var g := GainsAfter(gains, ticks, alpha, mode);
    GainFollows(gains, ticks, alpha, mode, j + 1, 0.0);
    GainSettles(gains[j + 1], 0.0, alpha, |ticks|);
    NeverOvershoots(0.0, 0.0, alpha);
    assert DifferInMuted(g, t, u, alpha, frame, j);
    if t.active[c] && c != j { MutedIsInaudibleToClients(g, t, u, alpha, frame, j, c, i); }
    MutedIsInaudibleToHost(g, t, u, alpha, frame, mode, j, i);
  }
}
