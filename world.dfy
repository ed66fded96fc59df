/** The WORLD vocoder parameters of one utterance and the scalar helpers the
    transforms share: Python's `int()` on a float and numpy's `isclose`. */
module World {
  import opened Grids

  /** f0: pitch per frame, 0 marking an unvoiced frame.
      sp: spectral envelope, sp[bin][frame].
      ap: aperiodicity, ap[bin][frame]. */
  datatype WorldParams = WorldParams(f0: seq<real>, sp: seq<seq<real>>, ap: seq<seq<real>>)

  /** The shape analysis produces and synthesis expects: at least one frame
      and one bin, as many pitch values as envelope frames, and the
      aperiodicity exactly the shape of the envelope. */
  ghost predicate WellFormed(w: WorldParams) {
    |w.f0| > 0 && |w.sp| > 0
    && IsGrid(w.sp, |w.sp|, |w.f0|)
    && IsGrid(w.ap, |w.sp|, |w.f0|)
  }

  /** Well-formed parameters, the only kind the analyzer returns and the
      synthesizer accepts. */
  type Parameters = w: WorldParams | WellFormed(w) witness WorldParams([0.0], [[0.0]], [[0.0]])

  function Bins(w: Parameters): nat { |w.sp| }

  function Frames(w: Parameters): nat { |w.f0| }

  /** Python's `int()` on a float: truncation toward zero. */
  function Trunc(x: real): (n: int)
    ensures x >= 0.0 ==> n >= 0 && n as real <= x < n as real + 1.0
    ensures x < 0.0 ==> n <= 0 && n as real - 1.0 < x <= n as real
  {
    if x >= 0.0 then x.Floor else -((-x).Floor)
  }

  /** Bin count the formant warp asks `F.interpolate` for:
      `int(n_rows * formant_multiplier)`. */
  function FormantRows(bins: nat, formantMultiplier: real): (n: int)
    ensures formantMultiplier <= 0.0 ==> n <= 0
    ensures formantMultiplier >= 1.0 ==> n >= bins
    ensures 0 < bins && formantMultiplier < 1.0 ==> n < bins
  {
    TruncScale(bins, formantMultiplier);
    Trunc(bins as real * formantMultiplier)
  }

  /** Frame count the tempo change asks `F.interpolate` for:
      `int(n_frames * (1.0 / tempo_multiplier))`. */
  function TargetFrames(frames: nat, tempoMultiplier: real): (n: int)
    requires tempoMultiplier != 0.0
    ensures tempoMultiplier < 0.0 ==> n <= 0
    ensures 0.0 < tempoMultiplier <= 1.0 ==> n >= frames
    ensures 0 < frames && tempoMultiplier > 1.0 ==> n < frames
  {
    ReciprocalBounds(tempoMultiplier);
    TruncScale(frames, 1.0 / tempoMultiplier);
    Trunc(frames as real * (1.0 / tempoMultiplier))
  }

  /** Where int(b * m) lies against 0 and b, for a size b and a multiplier m. */
  lemma TruncScale(b: nat, m: real)
    ensures m <= 0.0 ==> Trunc(b as real * m) <= 0
    ensures m >= 1.0 ==> Trunc(b as real * m) >= b
    ensures 0 < b && m < 1.0 ==> Trunc(b as real * m) < b
  {
    if m <= 0.0 {
      TruncScaleNonPositive(b, m);
    }
    if m >= 1.0 {
      TruncScaleUp(b, m);
    }
    if 0 < b && m < 1.0 {
      TruncScaleDown(b, m);
    }
  }

  lemma TruncScaleNonPositive(b: nat, m: real)
    requires m <= 0.0
    ensures Trunc(b as real * m) <= 0
  {
    var r := b as real;
    ScaleBounds(r, m);
    TruncAgainst(r * m, b);
  }

  lemma TruncScaleUp(b: nat, m: real)
    requires m >= 1.0
    ensures Trunc(b as real * m) >= b
  {
    var r := b as real;
    ScaleBounds(r, m);
    TruncAgainst(r * m, b);
  }

  lemma TruncScaleDown(b: nat, m: real)
    requires 0 < b && m < 1.0
    ensures Trunc(b as real * m) < b
  {
    var r := b as real;
    assert r > 0.0;
    ScaleBounds(r, m);
    TruncAgainst(r * m, b);
  }

  /** Truncation keeps x on its side of 0 and of a whole number b. */
  lemma TruncAgainst(x: real, b: nat)
    ensures x <= 0.0 ==> Trunc(x) <= 0
    ensures x >= b as real ==> Trunc(x) >= b
    ensures 0 < b && x < b as real ==> Trunc(x) < b
  {
    var n := Trunc(x);
    if x >= 0.0 {
      assert n as real <= x < n as real + 1.0;
      if x >= b as real {
        assert (b as real) < n as real + 1.0;
      }
    } else {
      assert n <= 0;
    }
  }

  /** Where 1 / t lies against 0 and 1. */
  lemma ReciprocalBounds(t: real)
    requires t != 0.0
    ensures t < 0.0 ==> 1.0 / t < 0.0
    ensures 0.0 < t <= 1.0 ==> 1.0 / t >= 1.0
    ensures t > 1.0 ==> 1.0 / t < 1.0
  {
  }

  /** Where n * m lies against 0 and n, for a size n and a multiplier m. */
  lemma ScaleBounds(n: real, m: real)
    requires n >= 0.0
    ensures m <= 0.0 ==> n * m <= 0.0
    ensures m >= 1.0 ==> n * m >= n
    ensures n > 0.0 && m < 1.0 ==> n * m < n
  {
    if m <= 0.0 {
      assert n * m <= n * 0.0;
    }
    if m >= 1.0 {
      assert n * m >= n * 1.0;
    }
    if n > 0.0 && m < 1.0 {
      assert n * m < n * 1.0;
    }
  }

  function Abs(x: real): real { if x < 0.0 then -x else x }

  /** Default tolerances of `np.isclose`. */
  const RelTol: real := 0.00001
  const AbsTol: real := 0.00000001

  /** `np.isclose(a, b)`: |a - b| <= atol + rtol * |b|. */
  predicate IsClose(a: real, b: real) {
    Abs(a - b) <= AbsTol + RelTol * Abs(b)
  }

  /** All three multipliers are close to 1.0: the pipeline's no-op case. */
  predicate IsIdentityConfig(formantMultiplier: real, pitchMultiplier: real, tempoMultiplier: real) {
    IsClose(formantMultiplier, 1.0) && IsClose(pitchMultiplier, 1.0) && IsClose(tempoMultiplier, 1.0)
  }

  /** Closeness to 1.0 is the band 1 +- 0.00001001, both directions. */
  lemma IsCloseToOne(x: real)
    ensures IsClose(x, 1.0) <==> 0.99998999 <= x <= 1.00001001
  {
  }

  /** `int()` of a whole number is that number. */
  lemma TruncWhole(k: nat)
    ensures Trunc(k as real) == k
  {
  }

  /** Multiplying n * f bins by 1/f asks for n bins. */
  lemma FormantRowsSquash(f: nat, n: nat, m: real)
    requires f > 0 && m == 1.0 / f as real
    ensures FormantRows(f * n, m) == n
  {
    assert (f * n) as real == f as real * n as real;
    assert (f * n) as real * m == n as real;
    TruncWhole(n);
  }

  /** Multiplying b bins by a whole factor f asks for f * b bins. */
  lemma FormantRowsStretch(f: nat, b: nat)
    ensures FormantRows(b, f as real) == f * b
  {
    assert b as real * f as real == (f * b) as real;
    TruncWhole(f * b);
  }

  /** A tempo of 1/f over n frames asks for f * n frames. */
  lemma TargetFramesSlow(f: nat, n: nat, t: real)
    requires f > 0 && t == 1.0 / f as real
    ensures TargetFrames(n, t) == f * n
  {
    assert 1.0 / t == f as real;
    assert n as real * f as real == (f * n) as real;
    TruncWhole(f * n);
  }

  /** A tempo of f over f * n frames asks for n frames. */
  lemma TargetFramesFast(f: nat, n: nat)
    requires f > 0
    ensures TargetFrames(f * n, f as real) == n
  {
    FormantRowsSquash(f, n, 1.0 / f as real);
  }

  /** A multiplier of exactly 1 asks for the size the tensor already has. */
  lemma UnitMultipliersKeepSizes(n: nat)
    ensures FormantRows(n, 1.0) == n
    ensures TargetFrames(n, 1.0) == n
  {
  }
}
