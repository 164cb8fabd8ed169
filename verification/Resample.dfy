/** The cubic Hermite resampler (crates/jam-audio/src/resample.rs), over the reals: its nested phase
    loop reads the whole input on a grid of positions. */
module Resample {
  import opened Common

  /** `interpolate` on four neighbours. */
  function Cubic(y0: real, y1: real, y2: real, y3: real, t: real): real {
    var c0 := y1;
    var c1 := 0.5 * (y2 - y0);
    var c2 := y0 - 2.5 * y1 + 2.0 * y2 - 0.5 * y3;
    var c3 := 0.5 * (y3 - y0) + 1.5 * (y1 - y2);
    ((c3 * t + c2) * t + c1) * t + c0
  }

  /** The cubic Hermite segment from `p0` to `p1` with slopes `m0` and `m1`, by its basis polynomials. */
  function Hermite(p0: real, m0: real, p1: real, m1: real, t: real): real {
    var t2, t3 := t * t, t * t * t;
    (2.0 * t3 - 3.0 * t2 + 1.0) * p0 + (t3 - 2.0 * t2 + t) * m0 + (3.0 * t2 - 2.0 * t3) * p1 + (t3 - t2) * m1
  }

  /** What `interpolate` computes: between the two middle samples, with the central differences as slopes. */
  lemma CubicIsHermite(y0: real, y1: real, y2: real, y3: real, t: real)
    ensures Cubic(y0, y1, y2, y3, t) == Hermite(y1, 0.5 * (y2 - y0), y2, 0.5 * (y3 - y1), t)
  {
    var t2, t3 := t * t, t * t * t;
    var c1, c2, c3 := 0.5 * (y2 - y0), y0 - 2.5 * y1 + 2.0 * y2 - 0.5 * y3, 0.5 * (y3 - y0) + 1.5 * (y1 - y2);
    assert c2 == -3.0 * y1 - 2.0 * c1 + 3.0 * y2 - 0.5 * (y3 - y1);
    assert c3 == 2.0 * y1 + c1 - 2.0 * y2 + 0.5 * (y3 - y1);
    PowersOf(c3, c2, c1, y1, t);
    assert c3 * t3 == 2.0 * t3 * y1 + t3 * c1 - 2.0 * t3 * y2 + t3 * (0.5 * (y3 - y1));
    assert c2 * t2 == -3.0 * t2 * y1 - 2.0 * t2 * c1 + 3.0 * t2 * y2 - t2 * (0.5 * (y3 - y1));
  }

  lemma PowersOf(a: real, b: real, c: real, d: real, t: real)
    ensures ((a * t + b) * t + c) * t + d == a * (t * t * t) + b * (t * t) + c * t + d
  {
    assert (a * t + b) * t == a * (t * t) + b * t;
    assert (a * (t * t) + b * t + c) * t == a * (t * t * t) + b * (t * t) + c * t;
  }

  /** It is the one cubic that passes through both samples with both slopes. */
  lemma HermiteIsTheSegment(y0: real, y1: real, y2: real, y3: real, t: real, a: real, b: real, c: real, d: real)
    requires d == y1 && a + b + c + d == y2 && c == 0.5 * (y2 - y0) && 3.0 * a + 2.0 * b + c == 0.5 * (y3 - y1)
    ensures Cubic(y0, y1, y2, y3, t) == ((a * t + b) * t + c) * t + d
  {
    assert a == 0.5 * (y3 - y0) + 1.5 * (y1 - y2) && b == y0 - 2.5 * y1 + 2.0 * y2 - 0.5 * y3;
  }

  /** The input at a fractional position between its samples, on the Hermite segment between them. */
  function Between(xs: seq<real>, p: real): real
    requires 1.0 <= p < (|xs| - 2) as real
  {
    var i := p.Floor;
    Hermite(xs[i], 0.5 * (xs[i + 1] - xs[i - 1]), xs[i + 1], 0.5 * (xs[i + 2] - xs[i]), p - i as real)
  }

  lemma AtIsBetween(xs: seq<real>, p: real)
    requires 1.0 <= p < (|xs| - 2) as real
    ensures At(xs, p) == Between(xs, p)
  {
    var i := p.Floor;
    CubicIsHermite(xs[i - 1], xs[i], xs[i + 1], xs[i + 2], p - i as real);
  }

  /** The input read at a fractional position with two neighbours on its right. */
  function At(xs: seq<real>, p: real): real
    requires 1.0 <= p < (|xs| - 2) as real
  {
    var i := p.Floor;
    Cubic(xs[i - 1], xs[i], xs[i + 1], xs[i + 2], p - i as real)
  }

  function Ceil(x: real): int { -((-x).Floor) }

  /** How many of `from`, `from + step`, `from + 2 * step`, ... lie before `limit`. */
  function Count(from: real, step: real, limit: real): nat
    requires step > 0.0
  {
    if from >= limit then 0 else Max(0, Ceil((limit - from) / step))
  }

  function Spot(from: real, step: real, j: nat): real { from + j as real * step }

  lemma ScaleLess(a: real, b: real, s: real)
    requires s > 0.0
    ensures a < b <==> a * s < b * s
  {
    if a < b { assert (b - a) * s > 0.0; } else { assert (a - b) * s >= 0.0; }
  }

  /** `Count` is the one number whose predecessor is still before the limit and which is not. */
  lemma CountIs(from: real, step: real, limit: real, n: nat)
    requires step > 0.0
    ensures n == Count(from, step, limit) <==>
            Spot(from, step, n) >= limit && (n > 0 ==> Spot(from, step, n - 1) < limit)
  {
    if from >= limit {
      if n > 0 { NotNegative((n - 1) as real, step); }
      NotNegative(n as real, step);
    } else {
      var x := (limit - from) / step;
      Quotient(limit - from, step);
      ScaleLess(0.0, x, step);
      BeforeIff(from, step, limit, x, n);
      if n > 0 { BeforeIff(from, step, limit, x, n - 1); }
    }
  }

  lemma Quotient(d: real, s: real)
    requires s != 0.0
    ensures d / s * s == d
  {
  }

  lemma BeforeIff(from: real, step: real, limit: real, x: real, n: nat)
    requires step > 0.0 && x * step == limit - from
    ensures Spot(from, step, n) < limit <==> n < Ceil(x)
  {
    ScaleLess(n as real, x, step);
    assert n as real < x <==> n < Ceil(x);
  }

  lemma SpotPlus(from: real, step: real, i: nat, j: nat)
    ensures Spot(Spot(from, step, i), step, j) == Spot(from, step, i + j)
  {
    assert (i + j) as real * step == i as real * step + j as real * step;
  }

  lemma SpotMonotone(from: real, step: real, i: nat, j: nat)
    requires step > 0.0 && i <= j
    ensures Spot(from, step, i) <= Spot(from, step, j)
  {
    NotNegative((j - i) as real, step);
    SpotPlus(from, step, i, j - i);
  }

  lemma SpotBelow(from: real, step: real, limit: real, j: nat)
    requires step > 0.0 && j < Count(from, step, limit)
    ensures Spot(from, step, j) < limit
  {
    CountIs(from, step, limit, Count(from, step, limit));
    SpotMonotone(from, step, j, Count(from, step, limit) - 1);
  }

  function Limit(xs: seq<real>): real { (|xs| - 2) as real }

  lemma SpotInside(xs: seq<real>, from: real, step: real, j: nat)
    requires step > 0.0 && from >= 1.0 && j < Count(from, step, Limit(xs))
    ensures 1.0 <= Spot(from, step, j) < Limit(xs)
  {
    SpotBelow(from, step, Limit(xs), j);
    SpotMonotone(from, step, 0, j);
  }

  function GridSample(xs: seq<real>, from: real, step: real, j: nat): real
    requires step > 0.0 && from >= 1.0 && j < Count(from, step, Limit(xs))
  {
    SpotInside(xs, from, step, j);
    At(xs, Spot(from, step, j))
  }

  /** The input read at every grid position that has its neighbours. */
  function Grid(xs: seq<real>, from: real, step: real): (ys: seq<real>)
    requires step > 0.0 && from >= 1.0
    ensures |ys| == Count(from, step, Limit(xs))
  {
    var n := Count(from, step, Limit(xs));
    seq(n, j requires 0 <= j < n => GridSample(xs, from, step, j))
  }

  lemma GridReads(xs: seq<real>, from: real, step: real)
    requires step > 0.0 && from >= 1.0
    ensures var ys := Grid(xs, from, step);
            forall m: nat | m < |ys| ::
              1.0 <= Spot(from, step, m) < Limit(xs) && ys[m] == At(xs, Spot(from, step, m))
  {
    forall m: nat | m < Count(from, step, Limit(xs)) ensures 1.0 <= Spot(from, step, m) < Limit(xs) {
      SpotInside(xs, from, step, m);
    }
  }

  /** More input does not change what has been read, and reading goes on where it stopped. */
  lemma GridExtends(xs: seq<real>, ys: seq<real>, from: real, step: real)
    requires step > 0.0 && from >= 1.0
    ensures var n := |Grid(xs, from, step)|;
            && Spot(from, step, n) >= 1.0
            && Grid(xs + ys, from, step) == Grid(xs, from, step) + Grid(xs + ys, Spot(from, step, n), step)
  {
    var n := Count(from, step, Limit(xs));
    SpotMonotone(from, step, 0, n);
    var m := Count(Spot(from, step, n), step, Limit(xs + ys));
    CountIs(from, step, Limit(xs), n);
    CountIs(Spot(from, step, n), step, Limit(xs + ys), m);
    SpotPlus(from, step, n, m);
    if m > 0 { SpotPlus(from, step, n, m - 1); }
    CountIs(from, step, Limit(xs + ys), n + m);
    forall j: nat | j < n + m
      ensures Grid(xs + ys, from, step)[j] == (Grid(xs, from, step) + Grid(xs + ys, Spot(from, step, n), step))[j]
    {
      if j < n { SpotBelow(from, step, Limit(xs), j); } else { SpotPlus(from, step, n, j - n); }
    }
  }

  // ---------------------------------------------------------------- runs at a constant ratio

  function Flatten(blocks: seq<seq<real>>): seq<real> {
    if blocks == [] then [] else blocks[0] + Flatten(blocks[1..])
  }

  /** What successive calls of `process` write, one block of input each, from position `from` on. */
  function Calls(xs: seq<real>, blocks: seq<seq<real>>, from: real, step: real): seq<real>
    requires step > 0.0 && from >= 1.0
    decreases blocks
  {
    if blocks == [] then []
    else
      var ys := Grid(xs + blocks[0], from, step);
      SpotMonotone(from, step, 0, |ys|);
      ys + Calls(xs + blocks[0], blocks[1..], Spot(from, step, |ys|), step)
  }

  /** However the input is split into calls, the output is one uniform grid over the whole input. */
  lemma {:induction false} CallsAreOneGrid(xs: seq<real>, blocks: seq<seq<real>>, from: real, step: real)
    requires step > 0.0 && from >= 1.0 && Limit(xs) <= from
    ensures Calls(xs, blocks, from, step) == Grid(xs + Flatten(blocks), from, step)
    decreases blocks
  {
    if blocks == [] {
      assert xs + Flatten(blocks) == xs;
    } else {
      var xs1 := xs + blocks[0];
      var n := |Grid(xs1, from, step)|;
      CountIs(from, step, Limit(xs1), n);
      SpotMonotone(from, step, 0, n);
      CallsAreOneGrid(xs1, blocks[1..], Spot(from, step, n), step);
      GridExtends(xs1, Flatten(blocks[1..]), from, step);
      assert xs1 + Flatten(blocks[1..]) == xs + Flatten(blocks);
    }
  }

  /** ceil(max(0, n - 3) * ratio) */
  function SampleCount(n: nat, ratio: real): int { Ceil(Max(0, n - 3) as real * ratio) }

  lemma CountFromStart(n: nat, ratio: real, step: real)
    requires ratio > 0.0 && step > 0.0 && step * ratio == 1.0
    ensures Count(1.0, step, (n - 2) as real) == SampleCount(n, ratio)
  {
    if n > 3 {
      var d := (n - 3) as real;
      ScaleLess(0.0, d, ratio);
      assert d * ratio * step == d * (step * ratio);
      var x := d / step;
      assert x * step == d;
      ScaleLess(x, d * ratio, step);
      ScaleLess(d * ratio, x, step);
    }
  }

  /** Reads on the grid of a constant ratio. */
  lemma UniformGrid(blocks: seq<seq<real>>, ratio: real, step: real)
    requires ratio > 0.0 && step > 0.0 && step * ratio == 1.0
    ensures var (xs, ys) := (Flatten(blocks), Calls([], blocks, 1.0, step));
            && |ys| == SampleCount(|xs|, ratio)
            && forall m: nat | m < |ys| ::
                 1.0 <= Spot(1.0, step, m) < Limit(xs) && ys[m] == At(xs, Spot(1.0, step, m))
  {
    var xs := Flatten(blocks);
    CallsAreOneGrid([], blocks, 1.0, step);
    assert [] + xs == xs;
    CountFromStart(|xs|, ratio, step);
    GridReads(xs, 1.0, step);
  }

  /** The m-th of these samples is the input between its samples at 1 + m / ratio. */
  ghost predicate ReadsUniformly(xs: seq<real>, ys: seq<real>, ratio: real)
    requires ratio > 0.0
  {
    && |ys| == SampleCount(|xs|, ratio)
    && forall m: nat | m < |ys| :: ReadsAt(xs, ys[m], m, ratio)
  }

  predicate ReadsAt(xs: seq<real>, y: real, m: nat, ratio: real)
    requires ratio > 0.0
  {
    var p := 1.0 + m as real / ratio;
    1.0 <= p < (|xs| - 2) as real && y == Between(xs, p)
  }

  /** A new resampler at a constant ratio, whatever the split of its input into calls: the m-th sample is the
      Hermite interpolation of the whole input at 1 + m / ratio, and N inputs give exactly
      ceil(max(0, N - 3) * ratio) samples. */
  lemma UniformResampling(blocks: seq<seq<real>>, ratio: Rate)
    ensures ReadsUniformly(Flatten(blocks), Calls([], blocks, 1.0, StepOf(ratio)), ratio)
  {
    var (xs, ys) := (Flatten(blocks), Calls([], blocks, 1.0, StepOf(ratio)));
    StepTimes(ratio);
    UniformGrid(blocks, ratio, StepOf(ratio));
    forall m: nat | m < |ys| ensures ReadsAt(xs, ys[m], m, ratio) {
      OneRead(xs, ys[m], ratio, m);
    }
  }

  lemma OneRead(xs: seq<real>, y: real, ratio: Rate, m: nat)
    requires 1.0 <= Spot(1.0, StepOf(ratio), m) < Limit(xs) && y == At(xs, Spot(1.0, StepOf(ratio), m))
    ensures ReadsAt(xs, y, m, ratio)
  {
    Steps(m, ratio);
    AtIsBetween(xs, Spot(1.0, StepOf(ratio), m));
  }

  function Quadratic(a: real, b: real, c: real, x: real): real { a * x * x + b * x + c }

  /** A quadratic input is reproduced exactly, at every position. */
  lemma QuadraticsAreExact(xs: seq<real>, a: real, b: real, c: real, p: real)
    requires forall k: nat | k < |xs| :: xs[k] == Quadratic(a, b, c, k as real)
    requires 1.0 <= p < Limit(xs)
    ensures At(xs, p) == Quadratic(a, b, c, p)
  {
    var k := p.Floor;
    CubicOfQuadratic(a, b, c, k as real, p - k as real);
  }

  lemma CubicOfQuadratic(a: real, b: real, c: real, k: real, t: real)
    ensures Cubic(Quadratic(a, b, c, k - 1.0), Quadratic(a, b, c, k), Quadratic(a, b, c, k + 1.0), Quadratic(a, b, c, k + 2.0), t)
         == Quadratic(a, b, c, k + t)
  {
    var (y0, y1, y2, y3) := (Quadratic(a, b, c, k - 1.0), Quadratic(a, b, c, k), Quadratic(a, b, c, k + 1.0), Quadratic(a, b, c, k + 2.0));
    var akk := a * k * k;
    assert y0 == akk - 2.0 * (a * k) + a + b * k - b + c;
    assert y1 == akk + b * k + c;
    assert y2 == akk + 2.0 * (a * k) + a + b * k + b + c;
    assert y3 == akk + 4.0 * (a * k) + 4.0 * a + b * k + 2.0 * b + c;
    assert 0.5 * (y2 - y0) == 2.0 * (a * k) + b;
    assert y0 - 2.5 * y1 + 2.0 * y2 - 0.5 * y3 == a;
    assert 0.5 * (y3 - y0) + 1.5 * (y1 - y2) == 0.0;
    assert Quadratic(a, b, c, k + t) == akk + 2.0 * (a * k) * t + a * t * t + b * k + b * t + c;
    assert (a * t + (2.0 * (a * k) + b)) * t == a * t * t + 2.0 * (a * k) * t + b * t;
  }

  // ---------------------------------------------------------------- blocks at changing ratios

  type Rate = r: real | r > 0.0 witness 1.0

  function StepOf(ratio: Rate): (s: real)
    ensures s > 0.0
  {
    1.0 / ratio
  }

  /** One call of `process`: a block of input and the ratio at that time. */
  datatype Feed = Feed(block: seq<real>, ratio: Rate)

  /** All input so far, the position at which it is read next, and all output. */
  datatype Stretch = Stretch(xs: seq<real>, pos: real, ys: seq<real>)

  const SILENCE := Stretch([], 1.0, [])

  function Stretched(s: Stretch, f: Feed): (r: Stretch)
    requires s.pos >= 1.0
    ensures r.pos >= 1.0
  {
    var xs, step := s.xs + f.block, StepOf(f.ratio);
    var ys := Grid(xs, s.pos, step);
    SpotMonotone(s.pos, step, 0, |ys|);
    Stretch(xs, Spot(s.pos, step, |ys|), s.ys + ys)
  }

  /** What a new resampler has read and written after these calls. */
  function History(feeds: seq<Feed>): (s: Stretch)
    ensures s.pos >= 1.0
  {
    if feeds == [] then SILENCE else Stretched(History(feeds[..|feeds| - 1]), feeds[|feeds| - 1])
  }

  function FeedsOf(blocks: seq<seq<real>>, ratio: Rate): seq<Feed> {
    seq(|blocks|, i requires 0 <= i < |blocks| => Feed(blocks[i], ratio))
  }

  lemma HistorySnoc(feeds: seq<Feed>, f: Feed)
    ensures History(feeds + [f]) == Stretched(History(feeds), f)
  {
    assert (feeds + [f])[..|feeds|] == feeds;
  }

  /** While the ratio stays the same, whatever it was before, calls continue on one grid. */
  lemma {:induction false} HistoryAtOneRatio(feeds: seq<Feed>, blocks: seq<seq<real>>, ratio: Rate)
    ensures var (s, t) := (History(feeds), History(feeds + FeedsOf(blocks, ratio)));
            t.xs == s.xs + Flatten(blocks) && t.ys == s.ys + Calls(s.xs, blocks, s.pos, StepOf(ratio))
    decreases blocks
  {
    var s := History(feeds);
    if blocks == [] {
      assert feeds + FeedsOf(blocks, ratio) == feeds;
      assert s.xs + [] == s.xs && s.ys + [] == s.ys;
    } else {
      var f := Feed(blocks[0], ratio);
      assert feeds + FeedsOf(blocks, ratio) == (feeds + [f]) + FeedsOf(blocks[1..], ratio);
      HistorySnoc(feeds, f);
      HistoryAtOneRatio(feeds + [f], blocks[1..], ratio);
      Regroup(s.xs, blocks[0], Flatten(blocks[1..]));
      var ys := Grid(s.xs + blocks[0], s.pos, StepOf(ratio));
      Regroup(s.ys, ys, Calls(s.xs + blocks[0], blocks[1..], Spot(s.pos, StepOf(ratio), |ys|), StepOf(ratio)));
    }
  }

  const MIN_RATIO := 0.98
  const MAX_RATIO := 1.02

  /** The newest four samples, counting four zeros before the first input. */
  function Newest4(xs: seq<real>): (h: seq<real>)
    ensures |h| == 4
  {
    ([0.0, 0.0, 0.0, 0.0] + xs)[|xs|..]
  }

  lemma StepBounds(ratio: real, step: real)
    requires MIN_RATIO <= ratio <= MAX_RATIO && step * ratio == 1.0
    ensures 0.98 < step < 1.03
  {
    ScaleLess(0.98, step, ratio);
    ScaleLess(step, 1.03, ratio);
  }

  /** A block of input spans `limit - from` positions; how many samples that yields. */
  lemma BlockCount(from: real, step: real, limit: real, n: nat)
    requires 0.98 < step < 1.03 && n == Count(from, step, limit)
    ensures limit - from <= 1.03 * n as real
    ensures from < limit ==> n > 0 && 0.98 * (n - 1) as real <= limit - from && Spot(from, step, n) < limit + 1.03
  {
    CountIs(from, step, limit, n);
    SpotBetween(from, step, n);
    if from < limit {
      assert n > 0;
      SpotBetween(from, step, n - 1);
      SpotPlus(from, step, n - 1, 1);
    }
  }

  lemma SpotBetween(from: real, step: real, n: nat)
    requires 0.98 < step < 1.03
    ensures 0.98 * n as real <= Spot(from, step, n) - from <= 1.03 * n as real
  {
    TimesMonotone(n as real, step, 1.03);
    TimesMonotone(n as real, 0.98, step);
  }

  lemma TimesMonotone(k: real, a: real, b: real)
    requires k >= 0.0 && a <= b
    ensures k * a <= k * b
  {
    NotNegative(k, b - a);
    assert k * (b - a) == k * b - k * a;
  }

  class HermiteResampler {
    var h: seq<real>
    var phase: real
    var ratio: real
    var primed: nat
    /** All input so far, and the position at which it is read next. */
    ghost var xs: seq<real>
    ghost var pos: real

    ghost predicate Valid()
      reads this
    {
      && h == Newest4(xs)
      && MIN_RATIO <= ratio <= MAX_RATIO
      && primed == Min(|xs|, 3)
      && pos >= 1.0
      && if |xs| < 3 then phase == 0.0 && pos == 1.0 else phase == pos - Limit(xs) && phase >= 0.0
    }

    constructor ()
      ensures Valid() && xs == [] && pos == 1.0 && ratio == 1.0
    {
      h, phase, ratio, primed := [0.0, 0.0, 0.0, 0.0], 0.0, 1.0, 0;
      xs, pos := [], 1.0;
    }

    /** Replaced by a new resampler. */
    method Restart()
      modifies this
      ensures Valid() && xs == [] && pos == 1.0 && ratio == 1.0
    {
      h, phase, ratio, primed := [0.0, 0.0, 0.0, 0.0], 0.0, 1.0, 0;
      xs, pos := [], 1.0;
    }

    method SetRatio(r: real)
      requires Valid()
      modifies this`ratio
      ensures Valid() && ratio == Clamp(r, MIN_RATIO, MAX_RATIO)
    {
      ratio := Clamp(r, MIN_RATIO, MAX_RATIO);
    }

    /** Feeds `input`; `written` is what this call reads off the grid, of which `out` receives as much as
        it has room for. */
    method Process(input: seq<real>, out: array<real>) returns (produced: nat, ghost written: seq<real>)
      requires Valid()
      modifies this, out
      ensures Valid() && ratio == old(ratio) && xs == old(xs) + input
      ensures 1.0 / ratio > 0.0 && written == Grid(xs, old(pos), 1.0 / ratio)
      ensures pos == Spot(old(pos), 1.0 / ratio, |written|)
      ensures produced == Min(|written|, out.Length) && out[..produced] == written[..produced]
    {
      produced, written := 0, [];
      var step := 1.0 / ratio;
      assert step * ratio == 1.0;
      StepBounds(ratio, step);
      for k := 0 to |input|
        invariant Valid() && ratio == old(ratio) && xs == old(xs) + input[..k]
        invariant written == Grid(xs, old(pos), step) && pos == Spot(old(pos), step, |written|)
        invariant produced == Min(|written|, out.Length) && out[..produced] == written[..produced]
      {
        produced, written := Feed(input[k], out, produced, step, old(pos), written);
        assert input[..k] + [input[k]] == input[..k + 1];
      }
      assert input[..|input|] == input;
    }

    /** One iteration of the outer loop: one input sample. */
    method Feed(x: real, out: array<real>, produced0: nat, step: real, ghost from: real, ghost written0: seq<real>)
      returns (produced: nat, ghost written: seq<real>)
      requires Valid() && step > 0.98 && from >= 1.0
      requires written0 == Grid(xs, from, step) && pos == Spot(from, step, |written0|)
      requires produced0 == Min(|written0|, out.Length) && out[..produced0] == written0[..produced0]
      modifies this, out
      ensures Valid() && ratio == old(ratio) && xs == old(xs) + [x]
      ensures written == Grid(xs, from, step) && pos == Spot(from, step, |written|)
      ensures produced == Min(|written|, out.Length) && out[..produced] == written[..produced]
    {
      GridExtends(xs, [x], from, step);
      h := [h[1], h[2], h[3], x];
      xs := xs + [x];
      if primed < 3 {
        primed := primed + 1;
        return produced0, written0;
      }
      ghost var news;
      produced, news := Interval(out, produced0, step, written0);
      written := written0 + news;
      SpotPlus(from, step, |written0|, |news|);
      phase := phase - 1.0;
    }

    /** The inner loop: reads every grid position of the newest interval. */
    method Interval(out: array<real>, produced0: nat, step: real, ghost written: seq<real>)
      returns (produced: nat, ghost news: seq<real>)
      requires |xs| >= 4 && h == Newest4(xs) && pos >= 1.0 && phase == pos - (Limit(xs) - 1.0) && phase >= 0.0
      requires 0.98 < step
      requires produced0 == Min(|written|, out.Length) && out[..produced0] == written[..produced0]
      modifies this`phase, this`pos, out
      ensures news == Grid(xs, old(pos), step)
      ensures pos == Spot(old(pos), step, |news|) && phase == pos - (Limit(xs) - 1.0) && phase >= 1.0
      ensures produced == Min(|written + news|, out.Length) && out[..produced] == (written + news)[..produced]
    {
      produced, news := produced0, [];
      while phase < 1.0
        invariant pos == Spot(old(pos), step, |news|) && phase == pos - (Limit(xs) - 1.0) && phase >= 0.0
        invariant |news| > 0 ==> Spot(old(pos), step, |news| - 1) < Limit(xs)
        invariant forall j: nat | j < |news| :: 1.0 <= Spot(old(pos), step, j) < Limit(xs) && news[j] == At(xs, Spot(old(pos), step, j))
        invariant produced == Min(|written + news|, out.Length) && out[..produced] == (written + news)[..produced]
        decreases Ceil(2.0 * (1.0 - phase))
      {
        var y := Cubic(h[0], h[1], h[2], h[3], phase);
        assert pos.Floor == |xs| - 3 && y == At(xs, pos);
        if produced < out.Length {
          out[produced] := y;
          produced := produced + 1;
        }
        SpotPlus(old(pos), step, |news|, 1);
        news := news + [y];
        pos := pos + step;
        phase := phase + step;
      }
      CountIs(old(pos), step, Limit(xs), |news|);
    }
  }

  /** Room for everything a block can yield. */
  lemma RoomForBlock(xs: seq<real>, block: seq<real>, from: real, step: real)
    requires 0.98 < step < 1.03 && from >= 1.0 && from >= Limit(xs)
    ensures |Grid(xs + block, from, step)| <= 2 * |block| + 1
  {
    var n := |Grid(xs + block, from, step)|;
    assert Limit(xs + block) == Limit(xs) + |block| as real;
    BlockCount(from, step, Limit(xs + block), n);
    if n > 0 { CountIs(from, step, Limit(xs + block), n); }
  }

  /** Successive calls with enough room, one block of input each. */
  method ProcessAll(r: HermiteResampler, blocks: seq<seq<real>>) returns (ys: seq<real>)
    requires r.Valid()
    modifies r
    ensures r.Valid() && r.ratio == old(r.ratio) > 0.0 && r.xs == old(r.xs) + Flatten(blocks)
    ensures ys == Calls(old(r.xs), blocks, old(r.pos), StepOf(r.ratio))
  {
    if blocks == [] {
      assert r.xs + [] == r.xs;
      return [];
    }
    StepBounds(r.ratio, StepOf(r.ratio));
    RoomForBlock(r.xs, blocks[0], r.pos, StepOf(r.ratio));
    var out := new real[2 * |blocks[0]| + 1](_ => 0.0);
    var n, written := r.Process(blocks[0], out);
    assert out[..n] == written;
    Regroup(old(r.xs), blocks[0], Flatten(blocks[1..]));
    var rest := ProcessAll(r, blocks[1..]);
    ys := out[..n] + rest;
  }

  /** A new resampler, driven at a constant ratio through any split of its input. */
  method ResampleAll(blocks: seq<seq<real>>, ratio: real) returns (ys: seq<real>)
    requires MIN_RATIO <= ratio <= MAX_RATIO
    ensures ReadsUniformly(Flatten(blocks), ys, ratio)
  {
    var r := new HermiteResampler();
    r.SetRatio(ratio);
    ys := ProcessAll(r, blocks);
    assert [] + Flatten(blocks) == Flatten(blocks);
    UniformResampling(blocks, ratio);
  }

  lemma Steps(m: nat, ratio: Rate)
    ensures Spot(1.0, StepOf(ratio), m) == 1.0 + m as real / ratio
  {
    Quotient(m as real, ratio);
    assert m as real * StepOf(ratio) * ratio == m as real * (StepOf(ratio) * ratio);
    StepTimes(ratio);
    SameProduct(m as real * StepOf(ratio), m as real / ratio, ratio);
  }

  lemma StepTimes(ratio: Rate)
    ensures StepOf(ratio) * ratio == 1.0
  {
  }

  lemma SameProduct(a: real, b: real, r: real)
    requires r > 0.0 && a * r == b * r
    ensures a == b
  {
    if a < b { ScaleLess(a, b, r); } else { ScaleLess(b, a, r); }
  }

  /** Over the same input a lower ratio yields no more samples: no less input is consumed for each. */
  lemma LowerRatioConsumesFaster(n: nat, slow: real, fast: real)
    requires 0.0 < fast <= slow
    ensures SampleCount(n, fast) <= SampleCount(n, slow)
  {
    assert Max(0, n - 3) as real * (slow - fast) >= 0.0;
    assert Max(0, n - 3) as real * fast <= Max(0, n - 3) as real * slow;
  }
}
