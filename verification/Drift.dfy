/** The clock-drift controller (crates/jam-audio/src/resample.rs:80-124), over the reals. */
module Drift {
  import opened Common
  import Resample

  const KP := 450.0
  const KI := 0.05
  const SLEW_PPM := 0.5
  const MAX_PPM := 500.0

  datatype Pi = Pi(integral: real, ppm: real) {
    predicate Valid() { -MAX_PPM <= integral <= MAX_PPM && -MAX_PPM <= ppm <= MAX_PPM }
  }

  const START := Pi(0.0, 0.0)

  function Updated(c: Pi, error: real): Pi {
    var integral := Clamp(c.integral + error * KI, -MAX_PPM, MAX_PPM);
    var want := Clamp(-(error * KP + integral), -MAX_PPM, MAX_PPM);
    Pi(integral, c.ppm + Clamp(want - c.ppm, -SLEW_PPM, SLEW_PPM))
  }

  function Ratio(c: Pi): real { 1.0 + c.ppm * 0.000001 }

  /** After any errors at all. */
  function After(c: Pi, errors: seq<real>): Pi {
    if errors == [] then c else Updated(After(c, errors[..|errors| - 1]), errors[|errors| - 1])
  }

  /** One update moves the correction by at most half a ppm, keeps it within 500 ppm, and so never
      reaches the resampler's own clamp. */
  lemma UpdateStaysBounded(c: Pi, error: real)
    requires c.Valid()
    ensures Updated(c, error).Valid()
    ensures Abs(Updated(c, error).ppm - c.ppm) <= SLEW_PPM
    ensures Clamp(Ratio(Updated(c, error)), Resample.MIN_RATIO, Resample.MAX_RATIO) == Ratio(Updated(c, error))
  {
  }

  lemma {:induction false} CorrectionStaysBounded(errors: seq<real>)
    ensures After(START, errors).Valid()
    decreases |errors|
  {
    if errors != [] {
      CorrectionStaysBounded(errors[..|errors| - 1]);
      UpdateStaysBounded(After(START, errors[..|errors| - 1]), errors[|errors| - 1]);
    }
  }

  /** A depth error of three frames outweighs any integral. */
  lemma LargeErrorSlews(c: Pi, error: real)
    requires c.Valid()
    ensures error >= 3.0 ==> Updated(c, error).ppm == (if c.ppm - SLEW_PPM < -MAX_PPM then -MAX_PPM else c.ppm - SLEW_PPM)
    ensures error <= -3.0 ==> Updated(c, error).ppm == (if c.ppm + SLEW_PPM > MAX_PPM then MAX_PPM else c.ppm + SLEW_PPM)
  {
  }

  lemma {:induction false} SlewsAllTheWay(c: Pi, errors: seq<real>, fast: bool)
    requires c.Valid()
    requires forall i | 0 <= i < |errors| :: if fast then errors[i] >= 3.0 else errors[i] <= -3.0
    ensures var c' := After(c, errors);
            && c'.Valid()
            && if fast then c'.ppm == -MAX_PPM || c'.ppm == c.ppm - SLEW_PPM * |errors| as real
               else c'.ppm == MAX_PPM || c'.ppm == c.ppm + SLEW_PPM * |errors| as real
    decreases |errors|
  {
    if errors != [] {
      var rest, last := errors[..|errors| - 1], errors[|errors| - 1];
      SlewsAllTheWay(c, rest, fast);
      UpdateStaysBounded(After(c, rest), last);
      LargeErrorSlews(After(c, rest), last);
    }
  }

  /** 2000 consecutive updates with an error of three frames or more pin the correction at its bound,
      whatever the integral and the correction were. */
  lemma SustainedErrorPins(c: Pi, errors: seq<real>, fast: bool)
    requires c.Valid() && |errors| == 2000
    requires forall i | 0 <= i < |errors| :: if fast then errors[i] >= 3.0 else errors[i] <= -3.0
    ensures After(c, errors).ppm == if fast then -MAX_PPM else MAX_PPM
  {
    SlewsAllTheWay(c, errors, fast);
  }

  // ---------------------------------------------------------------- which way it steers

  /** A buffer that is filling is consumed faster, and one that runs dry more slowly: an error of three frames
      or more moves the ratio by half a millionth, down to 0.9995 or up to 1.0005, where it stays. */
  lemma ErrorSteersRatio(c: Pi, error: real)
    requires c.Valid()
    ensures error >= 3.0 ==> Ratio(Updated(c, error)) == if Ratio(c) - 0.0000005 < 0.9995 then 0.9995 else Ratio(c) - 0.0000005
    ensures error <= -3.0 ==> Ratio(Updated(c, error)) == if Ratio(c) + 0.0000005 > 1.0005 then 1.0005 else Ratio(c) + 0.0000005
  {
    LargeErrorSlews(c, error);
  }

  /** The input read for every output: the same input gives no more samples at the ratio a filling buffer is
      pinned to than at ratio 1, and no fewer at the one an emptying buffer is pinned to. */
  lemma PinnedRatioConsumes(c: Pi, errors: seq<real>, fast: bool, n: nat)
    requires c.Valid() && |errors| == 2000
    requires forall i | 0 <= i < |errors| :: if fast then errors[i] >= 3.0 else errors[i] <= -3.0
    ensures Ratio(After(c, errors)) == if fast then 0.9995 else 1.0005
    ensures var made := Resample.SampleCount(n, Ratio(After(c, errors)));
            if fast then made <= Max(0, n - 3) else made >= Max(0, n - 3)
  {
    SustainedErrorPins(c, errors, fast);
    if fast {
      Resample.LowerRatioConsumesFaster(n, 1.0, 0.9995);
    } else {
      Resample.LowerRatioConsumesFaster(n, 1.0005, 1.0);
    }
  }

  /** Where the controller rests: the correction stays exactly if it is 450 ppm a frame of error against the
      error, and a twentieth of a ppm for every frame of error summed so far, within its limits. */
  lemma RestsIff(c: Pi, error: real)
    requires c.Valid() && Abs(c.integral + 0.05 * error) <= 500.0
    ensures var want := -(450.0 * error + (c.integral + 0.05 * error));
            && Updated(c, error).integral == c.integral + 0.05 * error
            && (Updated(c, error).ppm == c.ppm <==> c.ppm == Clamp(want, -500.0, 500.0))
            && (c.ppm < want && c.ppm < 500.0 ==> Updated(c, error).ppm > c.ppm)
            && (c.ppm > want && c.ppm > -500.0 ==> Updated(c, error).ppm < c.ppm)
  {
  }

  function Total(errors: seq<real>): real { if errors == [] then 0.0 else Total(errors[..|errors| - 1]) + errors[|errors| - 1] }

  /** As long as the sum never leaves 10000 frames, the integral is a twentieth of all error so far. */
  lemma {:induction false} IntegralRemembers(errors: seq<real>)
    requires forall n | 0 <= n <= |errors| :: Abs(Total(errors[..n])) <= 10000.0
    ensures After(START, errors).integral == 0.05 * Total(errors)
    decreases |errors|
  {
    if errors != [] {
      var rest := errors[..|errors| - 1];
      assert forall n | 0 <= n <= |rest| :: rest[..n] == errors[..n];
      assert errors[..|errors|] == errors;
      IntegralRemembers(rest);
    }
  }

  /** With no error left, the correction settles at the integral within 2000 updates, against its sign, and
      stays there. */
  lemma {:induction false} SettlesAtIntegral(c: Pi, errors: seq<real>)
    requires c.Valid() && forall i | 0 <= i < |errors| :: errors[i] == 0.0
    ensures var c' := After(c, errors);
            && c'.Valid() && c'.integral == c.integral
            && Abs(c'.ppm + c.integral) <= if 0.5 * |errors| as real >= Abs(c.ppm + c.integral) then 0.0 else Abs(c.ppm + c.integral) - 0.5 * |errors| as real
    decreases |errors|
  {
    if errors != [] {
      SettlesAtIntegral(c, errors[..|errors| - 1]);
    }
  }

  class DriftController {
    var integral: real
    var currentPpm: real

    ghost function View(): Pi
      reads this
    {
      Pi(integral, currentPpm)
    }

    constructor ()
      ensures View() == START
    {
      integral, currentPpm := 0.0, 0.0;
    }

    method Update(depthError: real) returns (ratio: real)
      modifies this
      ensures View() == Updated(old(View()), depthError) && ratio == Ratio(View())
    {
      integral := Clamp(integral + depthError * KI, -MAX_PPM, MAX_PPM);
      var wantPpm := -(depthError * KP + integral);
      wantPpm := Clamp(wantPpm, -MAX_PPM, MAX_PPM);
      var delta := Clamp(wantPpm - currentPpm, -SLEW_PPM, SLEW_PPM);
      currentPpm := currentPpm + delta;
      ratio := 1.0 + currentPpm * 0.000001;
    }
  }

  /** The ratio returned after a run of errors of three frames or more. */
  method SteerFor(d: DriftController, errors: seq<real>, fast: bool) returns (ratio: real)
    requires d.View().Valid() && |errors| == 2000
    requires forall i | 0 <= i < |errors| :: if fast then errors[i] >= 3.0 else errors[i] <= -3.0
    modifies d
    ensures ratio == if fast then 0.9995 else 1.0005
  {
    ghost var start := d.View();
    ratio := 1.0;
    for i := 0 to |errors|
      invariant d.View() == After(start, errors[..i]) && (i > 0 ==> ratio == Ratio(d.View()))
    {
      ratio := d.Update(errors[i]);
      assert errors[..i + 1][..i] == errors[..i];
    }
    assert errors[..2000] == errors;
    PinnedRatioConsumes(start, errors, fast, 0);
  }
}
