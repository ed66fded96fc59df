/** The three parameter-domain transforms of Code/OrginalFunction.py:
    formant warp (`modify_formants`), pitch scaling (`modify_pitch`) and
    tempo change (`modify_tempo`). */
module Transforms {
  import opened Arith
  import opened Grids
  import opened Nearest
  import opened World

  // ---------------------------------------------------------------------
  // Formant warp

  /** Value the formant warp pads missing high bins with when the envelope
      is warped to `rows` bins: the smallest entry of the whole warped
      envelope, over every bin and every frame. */
  function PadValue(sp: seq<seq<real>>, rows: nat): (v: real)
    requires IsMatrix(sp) && rows >= 1
    ensures InGrid(v, Resample2D(sp, rows, Cols(sp)))
    ensures forall i, t :: 0 <= i < rows && 0 <= t < Cols(sp) ==> v <= Resample2D(sp, rows, Cols(sp))[i][t]
  {
    GridMin(Resample2D(sp, rows, Cols(sp)))
  }

  /** The body of `modify_formants` once the warped bin count `rows` is
      known: resample the envelope to `rows` bins, keeping the frame count,
      then cut it back to its own bin count or pad it up to that count with
      the warped envelope's minimum. Output bin i below `rows` is source bin
      SourceIndex(bins, rows, i), frame for frame; every bin from `rows` up
      holds the pad value. */
  function WarpBins(sp: seq<seq<real>>, rows: nat): (r: seq<seq<real>>)
    requires IsMatrix(sp) && rows >= 1
    ensures IsGrid(r, |sp|, Cols(sp))
  {
    var warped := Resample2D(sp, rows, Cols(sp));
    WarpKeepsFrames(sp, rows);
    if rows > |sp| then
      warped[..|sp|]
    else if rows < |sp| then
      warped + Fill(|sp| - rows, Cols(sp), PadValue(sp, rows))
    else
      warped
  }

  /** Output bin i below `rows` is source bin SourceIndex(bins, rows, i). */
  lemma WarpLow(sp: seq<seq<real>>, rows: nat, i: nat, t: nat)
    requires IsMatrix(sp) && rows >= 1
    requires i < |sp| && i < rows && t < Cols(sp)
    ensures WarpBins(sp, rows)[i][t] == sp[SourceIndex(|sp|, rows, i)][t]
  {
    WarpKeepsFrames(sp, rows);
  }

  /** Output bins from `rows` up hold the pad value. */
  lemma WarpPad(sp: seq<seq<real>>, rows: nat, i: nat, t: nat)
    requires IsMatrix(sp) && rows >= 1
    requires rows <= i < |sp| && t < Cols(sp)
    ensures WarpBins(sp, rows)[i][t] == PadValue(sp, rows)
  {
  }

  /** The warp, entry by entry: bins below `rows` are read from their source
      bin frame for frame, bins from `rows` up hold the pad value. */
  lemma WarpBinsSpec(sp: seq<seq<real>>, rows: nat)
    requires IsMatrix(sp) && rows >= 1
    ensures forall i, t :: 0 <= i < |sp| && i < rows && 0 <= t < Cols(sp) ==>
      WarpBins(sp, rows)[i][t] == sp[SourceIndex(|sp|, rows, i)][t]
    ensures forall i, t :: rows <= i < |sp| && 0 <= t < Cols(sp) ==>
      WarpBins(sp, rows)[i][t] == PadValue(sp, rows)
  {
    forall i, t | 0 <= i < |sp| && i < rows && 0 <= t < Cols(sp)
      ensures WarpBins(sp, rows)[i][t] == sp[SourceIndex(|sp|, rows, i)][t]
    {
      WarpLow(sp, rows, i, t);
    }
    forall i, t | rows <= i < |sp| && 0 <= t < Cols(sp)
      ensures WarpBins(sp, rows)[i][t] == PadValue(sp, rows)
    {
      WarpPad(sp, rows, i, t);
    }
  }

  /** `modify_formants`: the envelope warped to int(bins * m) bins and
      brought back to its own bin count. The shape is unchanged; output bin
      i below the warped count is source bin SourceIndex(bins, warped, i),
      frame for frame; every bin from the warped count up holds the pad
      value. */
  function ModifyFormants(sp: seq<seq<real>>, formantMultiplier: real): (r: seq<seq<real>>)
    requires IsMatrix(sp)
    requires FormantRows(|sp|, formantMultiplier) >= 1
    ensures IsGrid(r, |sp|, Cols(sp))
    ensures forall i, t :: 0 <= i < |sp| && i < FormantRows(|sp|, formantMultiplier) && 0 <= t < Cols(sp) ==>
      r[i][t] == sp[SourceIndex(|sp|, FormantRows(|sp|, formantMultiplier), i)][t]
    ensures forall i, t :: FormantRows(|sp|, formantMultiplier) <= i < |sp| && 0 <= t < Cols(sp) ==>
      r[i][t] == PadValue(sp, FormantRows(|sp|, formantMultiplier))
  {
    WarpBinsSpec(sp, FormantRows(|sp|, formantMultiplier));
    WarpBins(sp, FormantRows(|sp|, formantMultiplier))
  }

  /** The two-dimensional interpolation with the frame count unchanged only
      moves bins: frame t of an output bin is frame t of its source bin. */
  lemma WarpKeepsFrames(sp: seq<seq<real>>, rows: nat)
    requires IsMatrix(sp) && rows > 0
    ensures Resample2D(sp, rows, Cols(sp)) == Resample(sp, rows)
  {
    ResampleFramesIdentity(sp);
  }

  /** Warping to the envelope's own bin count leaves it as it is. */
  lemma WarpIdentity(sp: seq<seq<real>>)
    requires IsMatrix(sp)
    ensures WarpBins(sp, |sp|) == sp
  {
    var r := WarpBins(sp, |sp|);
    forall i | 0 <= i < |sp| ensures r[i] == sp[i] {
      SourceIndexIdentity(|sp|, i);
      forall t | 0 <= t < Cols(sp) ensures r[i][t] == sp[i][t] {
        WarpLow(sp, |sp|, i, t);
      }
    }
  }

  /** The pad value is one of the envelope's own values, never below its
      minimum: a value taken from the envelope rather than a constant zero.
      It is zero only where the envelope holds a zero, and positive whenever
      the envelope is (see WarpKeepsPositive). */
  lemma PadFromEnvelope(sp: seq<seq<real>>, rows: nat)
    requires IsMatrix(sp) && rows >= 1
    ensures InGrid(PadValue(sp, rows), sp)
    ensures GridMin(sp) <= PadValue(sp, rows)
  {
    WarpKeepsFrames(sp, rows);
    var warped := Resample(sp, rows);
    var pad := PadValue(sp, rows);
    var i, t :| 0 <= i < rows && 0 <= t < |warped[i]| && warped[i][t] == pad;
    var src := SourceIndex(|sp|, rows, i);
    assert sp[src][t] == pad;
  }

  /** Every entry of the warped envelope is an entry of the input envelope. */
  lemma WarpValuesFromEnvelope(sp: seq<seq<real>>, rows: nat, i: nat, t: nat)
    requires IsMatrix(sp) && rows >= 1
    requires i < |sp| && t < Cols(sp)
    ensures InGrid(WarpBins(sp, rows)[i][t], sp)
  {
    if i < rows {
      WarpLow(sp, rows, i, t);
      var src := SourceIndex(|sp|, rows, i);
      assert WarpBins(sp, rows)[i][t] == sp[src][t];
    } else {
      WarpPad(sp, rows, i, t);
      PadFromEnvelope(sp, rows);
    }
  }

  /** The pad value is the smallest entry of the whole output envelope: the
      kept bins are entries of the warped envelope, whose minimum it is. */
  lemma WarpPadIsMinimum(sp: seq<seq<real>>, rows: nat, i: nat, t: nat)
    requires IsMatrix(sp) && rows >= 1
    requires i < |sp| && t < Cols(sp)
    ensures PadValue(sp, rows) <= WarpBins(sp, rows)[i][t]
  {
    if i < rows {
      WarpLow(sp, rows, i, t);
      WarpKeepsFrames(sp, rows);
      assert Resample2D(sp, rows, Cols(sp))[i][t] == WarpBins(sp, rows)[i][t];
    } else {
      WarpPad(sp, rows, i, t);
    }
  }

  /** A strictly positive envelope stays strictly positive. */
  lemma WarpKeepsPositive(sp: seq<seq<real>>, rows: nat)
    requires IsMatrix(sp) && rows >= 1
    requires forall b, t :: 0 <= b < |sp| && 0 <= t < |sp[b]| ==> sp[b][t] > 0.0
    ensures forall i, t :: 0 <= i < |sp| && 0 <= t < Cols(sp) ==> WarpBins(sp, rows)[i][t] > 0.0
  {
    forall i, t | 0 <= i < |sp| && 0 <= t < Cols(sp)
      ensures WarpBins(sp, rows)[i][t] > 0.0
    {
      WarpValuesFromEnvelope(sp, rows, i, t);
    }
  }

  /** Warping f * n bins down to n bins keeps every f-th bin below n (the
      bins from n up hold the pad value, see WarpPad). */
  lemma WarpSquash(sp: seq<seq<real>>, f: nat, n: nat, i: nat, t: nat)
    requires IsMatrix(sp) && f > 0 && n > 0 && |sp| == f * n
    requires i < n && t < Cols(sp)
    ensures n <= |sp|
    ensures 0 <= f * i < |sp| && WarpBins(sp, n)[i][t] == sp[f * i][t]
  {
    SourceIndexSquash(n, f, i);
    MulMono(1, f, n);
    WarpLow(sp, n, i, t);
  }

  /** Warping b bins up to f * b bins and cutting back to b: output bin i is
      input bin i / f, and the bins stretched beyond b are dropped. */
  lemma WarpStretch(sp: seq<seq<real>>, f: nat, rows: nat, i: nat, t: nat)
    requires IsMatrix(sp) && f > 0 && rows == f * |sp|
    requires i < |sp| && t < Cols(sp)
    ensures |sp| <= rows
    ensures i / f < |sp| && WarpBins(sp, rows)[i][t] == sp[i / f][t]
  {
    MulMono(1, f, |sp|);
    SourceIndexStretch(|sp|, f, i);
    WarpLow(sp, rows, i, t);
  }

  /** A formant multiplier whose bin count is the original one (1.0 among
      them) leaves the envelope as it is. */
  lemma FormantsIdentity(sp: seq<seq<real>>, formantMultiplier: real)
    requires IsMatrix(sp) && FormantRows(|sp|, formantMultiplier) == |sp|
    ensures ModifyFormants(sp, formantMultiplier) == sp
  {
    WarpIdentity(sp);
  }

  /** Formant compression of 512 bins by 0.5: bins 0..255 are the even input
      bins, bins 256..511 all hold the minimum of the 256-bin warped
      envelope. */
  lemma FormantsHalve(sp: seq<seq<real>>, i: nat, t: nat)
    requires IsMatrix(sp) && |sp| == 512 && i < 512 && t < Cols(sp)
    ensures FormantRows(512, 0.5) == 256
    ensures i < 256 ==> ModifyFormants(sp, 0.5)[i][t] == sp[2 * i][t]
    ensures i >= 256 ==> ModifyFormants(sp, 0.5)[i][t] == PadValue(sp, 256)
  {
    assert FormantRows(512, 0.5) == 256;
    if i < 256 {
      WarpSquash(sp, 2, 256, i, t);
    }
  }

  // ---------------------------------------------------------------------
  // Pitch scaling

  /** `modify_pitch`: every pitch value times the multiplier. An unvoiced
      frame (0) stays unvoiced whatever the multiplier. */
  function ModifyPitch(f0: seq<real>, pitchMultiplier: real): (r: seq<real>)
    ensures |r| == |f0|
    ensures forall i :: 0 <= i < |f0| ==> r[i] == f0[i] * pitchMultiplier
    ensures forall i :: 0 <= i < |f0| && f0[i] == 0.0 ==> r[i] == 0.0
  {
    seq(|f0|, i requires 0 <= i < |f0| => f0[i] * pitchMultiplier)
  }

  /** With a non-zero multiplier a frame is unvoiced after scaling exactly
      when it was unvoiced before. */
  lemma PitchKeepsVoicing(f0: seq<real>, pitchMultiplier: real, i: nat)
    requires pitchMultiplier != 0.0 && i < |f0|
    ensures ModifyPitch(f0, pitchMultiplier)[i] == 0.0 <==> f0[i] == 0.0
  {
    if f0[i] != 0.0 {
      assert f0[i] * pitchMultiplier != 0.0;
    }
  }

  /** Scaling by m and then by 1/m gives back the contour. */
  lemma PitchRoundTrip(f0: seq<real>, pitchMultiplier: real)
    requires pitchMultiplier != 0.0
    ensures ModifyPitch(ModifyPitch(f0, pitchMultiplier), 1.0 / pitchMultiplier) == f0
  {
    var r := ModifyPitch(ModifyPitch(f0, pitchMultiplier), 1.0 / pitchMultiplier);
    forall i | 0 <= i < |f0| ensures r[i] == f0[i] {
      calc {
        r[i];
        (f0[i] * pitchMultiplier) * (1.0 / pitchMultiplier);
        f0[i] * (pitchMultiplier * (1.0 / pitchMultiplier));
        f0[i];
      }
    }
  }

  /** Two scalings are one scaling by the product of the multipliers. */
  lemma PitchCompose(f0: seq<real>, a: real, b: real)
    ensures ModifyPitch(ModifyPitch(f0, a), b) == ModifyPitch(f0, a * b)
  {
    var l, r := ModifyPitch(ModifyPitch(f0, a), b), ModifyPitch(f0, a * b);
    forall i | 0 <= i < |f0| ensures l[i] == r[i] {
      assert (f0[i] * a) * b == f0[i] * (a * b);
    }
  }

  /** Doubling a contour with an unvoiced frame. */
  lemma PitchDoubling()
    ensures ModifyPitch([100.0, 120.0, 0.0, 140.0], 2.0) == [200.0, 240.0, 0.0, 280.0]
  {
  }

  // ---------------------------------------------------------------------
  // Tempo change

  /** `modify_tempo`: resample each of f0, sp and ap along the frame axis to
      int(its own frame count / tempo multiplier) frames, every bin of sp
      and ap on its own. Output frame j of each stream is its input frame
      SourceIndex(n_frames, new_frames, j); the bin counts do not change. */
  function ModifyTempo(f0: seq<real>, sp: seq<seq<real>>, ap: seq<seq<real>>, tempoMultiplier: real): (r: WorldParams)
    requires |f0| > 0 && IsMatrix(sp) && IsMatrix(ap) && tempoMultiplier != 0.0
    requires TargetFrames(|f0|, tempoMultiplier) >= 1
    requires TargetFrames(Cols(sp), tempoMultiplier) >= 1
    requires TargetFrames(Cols(ap), tempoMultiplier) >= 1
    ensures |r.f0| == TargetFrames(|f0|, tempoMultiplier)
    ensures forall j :: 0 <= j < |r.f0| ==> r.f0[j] == f0[SourceIndex(|f0|, |r.f0|, j)]
    ensures IsGrid(r.sp, |sp|, TargetFrames(Cols(sp), tempoMultiplier))
    ensures forall b, j :: 0 <= b < |sp| && 0 <= j < TargetFrames(Cols(sp), tempoMultiplier) ==>
      r.sp[b][j] == sp[b][SourceIndex(Cols(sp), TargetFrames(Cols(sp), tempoMultiplier), j)]
    ensures IsGrid(r.ap, |ap|, TargetFrames(Cols(ap), tempoMultiplier))
    ensures forall b, j :: 0 <= b < |ap| && 0 <= j < TargetFrames(Cols(ap), tempoMultiplier) ==>
      r.ap[b][j] == ap[b][SourceIndex(Cols(ap), TargetFrames(Cols(ap), tempoMultiplier), j)]
  {
    WorldParams(
      Resample(f0, TargetFrames(|f0|, tempoMultiplier)),
      ResampleFrames(sp, TargetFrames(Cols(sp), tempoMultiplier)),
      ResampleFrames(ap, TargetFrames(Cols(ap), tempoMultiplier)))
  }

  /** The tempo change of well-formed parameters is the same on all three
      streams: the three outputs share one frame count and the aperiodicity
      keeps the shape of the envelope (WellFormed is kept), with the bins unchanged and int(frames / tempo) frames. */
  lemma TempoLockstep(w: Parameters, tempoMultiplier: real)
    requires tempoMultiplier != 0.0 && TargetFrames(Frames(w), tempoMultiplier) >= 1
    ensures WellFormed(ModifyTempo(w.f0, w.sp, w.ap, tempoMultiplier))
    ensures |ModifyTempo(w.f0, w.sp, w.ap, tempoMultiplier).sp| == Bins(w)
    ensures |ModifyTempo(w.f0, w.sp, w.ap, tempoMultiplier).f0| == TargetFrames(Frames(w), tempoMultiplier)
  {
    assert Cols(w.sp) == Cols(w.ap) == Frames(w);
  }

  /** A tempo multiplier of 1 leaves all three streams as they are. */
  lemma TempoIdentity(w: Parameters)
    ensures ModifyTempo(w.f0, w.sp, w.ap, 1.0) == w
  {
    assert TargetFrames(Frames(w), 1.0) == Frames(w);
    ResampleIdentity(w.f0);
    ResampleFramesIdentity(w.sp);
    ResampleFramesIdentity(w.ap);
  }

  /** Slowing down by a whole factor f (tempo t = 1/f) gives f times the
      frames: output frame j of every stream is input frame j / f, so each
      input frame is repeated f times. */
  lemma TempoSlowdown(w: Parameters, f: nat, t: real, j: nat)
    requires f > 0 && t == 1.0 / f as real && j < f * Frames(w)
    ensures Frames(w) <= TargetFrames(Frames(w), t) == f * Frames(w)
    ensures j / f < Frames(w)
    ensures ModifyTempo(w.f0, w.sp, w.ap, t).f0[j] == w.f0[j / f]
    ensures forall b :: 0 <= b < Bins(w) ==>
      ModifyTempo(w.f0, w.sp, w.ap, t).sp[b][j] == w.sp[b][j / f]
      && ModifyTempo(w.f0, w.sp, w.ap, t).ap[b][j] == w.ap[b][j / f]
  {
    var n := Frames(w);
    TargetFramesSlow(f, n, t);
    MulMono(1, f, n);
    assert Cols(w.sp) == Cols(w.ap) == n;
    SourceIndexStretch(n, f, j);
  }

  /** Speeding up by a whole factor f over f * n frames gives n frames:
      output frame j of every stream is input frame f * j. */
  lemma TempoSpeedup(w: Parameters, f: nat, n: nat, j: nat)
    requires f > 0 && n > 0 && Frames(w) == f * n && j < n
    ensures TargetFrames(Frames(w), f as real) == n
    ensures f * j < Frames(w)
    ensures ModifyTempo(w.f0, w.sp, w.ap, f as real).f0[j] == w.f0[f * j]
    ensures forall b :: 0 <= b < Bins(w) ==>
      ModifyTempo(w.f0, w.sp, w.ap, f as real).sp[b][j] == w.sp[b][f * j]
      && ModifyTempo(w.f0, w.sp, w.ap, f as real).ap[b][j] == w.ap[b][f * j]
  {
    TargetFramesFast(f, n);
    assert Cols(w.sp) == Cols(w.ap) == f * n;
    SourceIndexSquash(n, f, j);
  }

  /** Halving the tempo of 100 frames gives 200 frames. */
  lemma TempoHalving(w: Parameters)
    requires Frames(w) == 100
    ensures TargetFrames(Frames(w), 0.5) == 200
    ensures WellFormed(ModifyTempo(w.f0, w.sp, w.ap, 0.5))
    ensures |ModifyTempo(w.f0, w.sp, w.ap, 0.5).f0| == 200
  {
    TempoLockstep(w, 0.5);
  }

  /** Slowing down (0 < tempo <= 1) drops no frame: every input pitch value,
      voiced or unvoiced, still occurs in the output. */
  lemma TempoSlowdownKeepsFrames(w: Parameters, tempoMultiplier: real, k: nat)
    requires 0.0 < tempoMultiplier <= 1.0 && k < Frames(w)
    ensures TargetFrames(Frames(w), tempoMultiplier) >= Frames(w)
    ensures w.f0[k] in ModifyTempo(w.f0, w.sp, w.ap, tempoMultiplier).f0
  {
    var n := Frames(w) as real;
    assert 1.0 / tempoMultiplier >= 1.0;
    assert n * (1.0 / tempoMultiplier) >= n;
    assert Cols(w.sp) == Cols(w.ap) == Frames(w);
    ResampleKeepsEverySample(w.f0, TargetFrames(Frames(w), tempoMultiplier), k);
  }

  /** The tempo change only copies pitch values: each output frame holds
      the pitch of some input frame, so no frame becomes voiced or unvoiced
      that was not so in the input. */
  lemma TempoPitchValuesFromInput(w: Parameters, tempoMultiplier: real, j: nat)
    requires tempoMultiplier != 0.0 && TargetFrames(Frames(w), tempoMultiplier) >= 1
    requires j < TargetFrames(Frames(w), tempoMultiplier)
    ensures ModifyTempo(w.f0, w.sp, w.ap, tempoMultiplier).f0[j] in w.f0
  {
    assert Cols(w.sp) == Cols(w.ap) == Frames(w);
  }
}
