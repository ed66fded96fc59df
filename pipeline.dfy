/** `modify_audio`: analysis, the three transforms in a fixed order, and
    synthesis, skipped altogether when every multiplier is close to 1. The
    WORLD analyzer and synthesizer (`audio_to_world`, `world_to_audio`) are
    function parameters: the model knows of them only that the analyzer
    yields well-formed parameters and that the synthesizer is handed them. */
module Pipeline {
  import opened Grids
  import opened Nearest
  import opened World
  import opened Transforms

  /** The exceptions the transforms raise: `F.interpolate` asked for an
      output size below 1, and `1.0 / tempo_multiplier` with a zero tempo. */
  datatype Error = InvalidSize(requested: int) | ZeroDivision

  datatype Result<+T> = Success(value: T) | Failure(error: Error)

  /** Formant warp, then pitch scaling, then tempo change, as in
      `modify_audio`. The first exception raised ends the pipeline. A
      successful run yields parameters whose pitch, envelope and aperiodicity
      share one frame count, with the aperiodicity shaped like the envelope
      (WellFormed, so the synthesizer accepts them), with the original bin count and
      int(frames / tempo) frames. */
  function Transform(w: Parameters, formantMultiplier: real, pitchMultiplier: real, tempoMultiplier: real): (r: Result<Parameters>)
    ensures r.Success? <==>
      FormantRows(Bins(w), formantMultiplier) >= 1 && tempoMultiplier != 0.0 && TargetFrames(Frames(w), tempoMultiplier) >= 1
    ensures FormantRows(Bins(w), formantMultiplier) < 1 ==>
      r == Failure(InvalidSize(FormantRows(Bins(w), formantMultiplier)))
    ensures FormantRows(Bins(w), formantMultiplier) >= 1 && tempoMultiplier == 0.0 ==>
      r == Failure(ZeroDivision)
    ensures FormantRows(Bins(w), formantMultiplier) >= 1 && tempoMultiplier != 0.0 && TargetFrames(Frames(w), tempoMultiplier) < 1 ==>
      r == Failure(InvalidSize(TargetFrames(Frames(w), tempoMultiplier)))
    ensures r.Success? ==> Bins(r.value) == Bins(w) && Frames(r.value) == TargetFrames(Frames(w), tempoMultiplier)
  {
    var rows := FormantRows(Bins(w), formantMultiplier);
    if rows < 1 then Failure(InvalidSize(rows))
    else
      var sp := ModifyFormants(w.sp, formantMultiplier);
      var f0 := ModifyPitch(w.f0, pitchMultiplier);
      if tempoMultiplier == 0.0 then Failure(ZeroDivision)
      else
        var frames := TargetFrames(|f0|, tempoMultiplier);
        if frames < 1 then Failure(InvalidSize(frames))
        else
          assert Cols(w.sp) == Cols(w.ap) == |f0|;
          var out: Parameters := ModifyTempo(f0, sp, w.ap, tempoMultiplier);
          Success(out)
  }

  /** `modify_audio`: the input waveform itself when all three multipliers
      are `np.isclose` to 1; otherwise the synthesis of the transformed
      analysis of the waveform, or the exception a transform raised. */
  function ModifyAudio(
    audio: seq<real>, sampleRate: int,
    formantMultiplier: real, pitchMultiplier: real, tempoMultiplier: real,
    analyze: (seq<real>, int) -> Parameters,
    synthesize: (Parameters, int) -> seq<real>): (r: Result<seq<real>>)
    ensures IsIdentityConfig(formantMultiplier, pitchMultiplier, tempoMultiplier) ==> r == Success(audio)
    ensures !IsIdentityConfig(formantMultiplier, pitchMultiplier, tempoMultiplier) ==>
      (r.Success? <==> Transform(analyze(audio, sampleRate), formantMultiplier, pitchMultiplier, tempoMultiplier).Success?)
    ensures !IsIdentityConfig(formantMultiplier, pitchMultiplier, tempoMultiplier) && r.Success? ==>
      r.value == synthesize(Transform(analyze(audio, sampleRate), formantMultiplier, pitchMultiplier, tempoMultiplier).value, sampleRate)
    ensures !IsIdentityConfig(formantMultiplier, pitchMultiplier, tempoMultiplier) && r.Failure? ==>
      r.error == Transform(analyze(audio, sampleRate), formantMultiplier, pitchMultiplier, tempoMultiplier).error
  {
    if IsIdentityConfig(formantMultiplier, pitchMultiplier, tempoMultiplier) then
      Success(audio)
    else
      match Transform(analyze(audio, sampleRate), formantMultiplier, pitchMultiplier, tempoMultiplier)
      case Success(w) => Success(synthesize(w, sampleRate))
      case Failure(e) => Failure(e)
  }

  // ---------------------------------------------------------------------
  // Properties of the pipeline

  /** In the identity case neither the analyzer nor the synthesizer has any
      say in the result: the waveform is returned as it came in. */
  lemma IdentitySkipsVocoder(
    audio: seq<real>, sampleRate: int,
    formantMultiplier: real, pitchMultiplier: real, tempoMultiplier: real,
    analyze1: (seq<real>, int) -> Parameters, synthesize1: (Parameters, int) -> seq<real>,
    analyze2: (seq<real>, int) -> Parameters, synthesize2: (Parameters, int) -> seq<real>)
    requires IsIdentityConfig(formantMultiplier, pitchMultiplier, tempoMultiplier)
    ensures ModifyAudio(audio, sampleRate, formantMultiplier, pitchMultiplier, tempoMultiplier, analyze1, synthesize1)
         == ModifyAudio(audio, sampleRate, formantMultiplier, pitchMultiplier, tempoMultiplier, analyze2, synthesize2)
         == Success(audio)
  {
  }

  /** The default multipliers (1.0, 1.0, 1.0) return the input waveform. */
  lemma DefaultsReturnInput(
    audio: seq<real>, sampleRate: int,
    analyze: (seq<real>, int) -> Parameters, synthesize: (Parameters, int) -> seq<real>)
    ensures ModifyAudio(audio, sampleRate, 1.0, 1.0, 1.0, analyze, synthesize) == Success(audio)
  {
  }

  /** A successful run is the tempo change of the formant-warped envelope,
      the pitch-scaled contour and the untouched aperiodicity: the formant
      warp sees the original time resolution, and the aperiodicity enters the
      tempo change with the shape of the envelope. */
  lemma TransformStages(w: Parameters, formantMultiplier: real, pitchMultiplier: real, tempoMultiplier: real)
    requires Transform(w, formantMultiplier, pitchMultiplier, tempoMultiplier).Success?
    ensures FormantRows(Bins(w), formantMultiplier) >= 1 && tempoMultiplier != 0.0
    ensures IsGrid(ModifyFormants(w.sp, formantMultiplier), Bins(w), Frames(w))
    ensures IsGrid(w.ap, Bins(w), Frames(w))
    ensures TargetFrames(Frames(w), tempoMultiplier) >= 1
    ensures Transform(w, formantMultiplier, pitchMultiplier, tempoMultiplier).value
         == ModifyTempo(ModifyPitch(w.f0, pitchMultiplier), ModifyFormants(w.sp, formantMultiplier), w.ap, tempoMultiplier)
  {
    assert Cols(w.sp) == Cols(w.ap) == Frames(w);
  }

  /** Output frame j of a successful run holds the scaled pitch of input
      frame SourceIndex(frames, new_frames, j). */
  lemma TransformPitchFrame(w: Parameters, formantMultiplier: real, pitchMultiplier: real, tempoMultiplier: real, j: nat)
    requires Transform(w, formantMultiplier, pitchMultiplier, tempoMultiplier).Success?
    requires j < TargetFrames(Frames(w), tempoMultiplier)
    ensures Transform(w, formantMultiplier, pitchMultiplier, tempoMultiplier).value.f0[j]
         == ModifyPitch(w.f0, pitchMultiplier)[SourceIndex(Frames(w), TargetFrames(Frames(w), tempoMultiplier), j)]
  {
    TransformStages(w, formantMultiplier, pitchMultiplier, tempoMultiplier);
    var f0 := ModifyPitch(w.f0, pitchMultiplier);
    var out := ModifyTempo(f0, ModifyFormants(w.sp, formantMultiplier), w.ap, tempoMultiplier);
    var k := SourceIndex(Frames(w), TargetFrames(Frames(w), tempoMultiplier), j);
    assert out.f0[j] == f0[k];
  }

  /** Bin b of output frame j of a successful run is bin b of the
      formant-warped envelope at the same source frame as the pitch, and the
      aperiodicity there is the input's own. */
  lemma TransformEnvelopeFrame(w: Parameters, formantMultiplier: real, pitchMultiplier: real, tempoMultiplier: real, b: nat, j: nat)
    requires Transform(w, formantMultiplier, pitchMultiplier, tempoMultiplier).Success?
    requires b < Bins(w) && j < TargetFrames(Frames(w), tempoMultiplier)
    ensures FormantRows(Bins(w), formantMultiplier) >= 1
    ensures Transform(w, formantMultiplier, pitchMultiplier, tempoMultiplier).value.sp[b][j]
         == ModifyFormants(w.sp, formantMultiplier)[b][SourceIndex(Frames(w), TargetFrames(Frames(w), tempoMultiplier), j)]
    ensures Transform(w, formantMultiplier, pitchMultiplier, tempoMultiplier).value.ap[b][j]
         == w.ap[b][SourceIndex(Frames(w), TargetFrames(Frames(w), tempoMultiplier), j)]
  {
    TransformStages(w, formantMultiplier, pitchMultiplier, tempoMultiplier);
    var sp := ModifyFormants(w.sp, formantMultiplier);
    assert Cols(sp) == Cols(w.ap) == Frames(w);
  }

  /** With a non-zero pitch multiplier the pipeline never turns a voiced
      frame into an unvoiced one or the reverse: output frame j is unvoiced
      exactly when its source frame is. */
  lemma TransformKeepsVoicing(w: Parameters, formantMultiplier: real, pitchMultiplier: real, tempoMultiplier: real, j: nat)
    requires pitchMultiplier != 0.0
    requires Transform(w, formantMultiplier, pitchMultiplier, tempoMultiplier).Success?
    requires j < TargetFrames(Frames(w), tempoMultiplier)
    ensures Transform(w, formantMultiplier, pitchMultiplier, tempoMultiplier).value.f0[j] == 0.0
        <==> w.f0[SourceIndex(Frames(w), TargetFrames(Frames(w), tempoMultiplier), j)] == 0.0
  {
    TransformPitchFrame(w, formantMultiplier, pitchMultiplier, tempoMultiplier, j);
    var k := SourceIndex(Frames(w), TargetFrames(Frames(w), tempoMultiplier), j);
    PitchKeepsVoicing(w.f0, pitchMultiplier, k);
  }

  /** When the formant warp needs no padding (the warped bin count reaches
      the original one), warping the bins and resampling the frames commute:
      the order of the two steps does not matter. */
  lemma WarpCommutesWithTempo(sp: seq<seq<real>>, formantMultiplier: real, frames: nat)
    requires IsMatrix(sp) && frames > 0 && FormantRows(|sp|, formantMultiplier) >= |sp|
    ensures IsMatrix(ResampleFrames(sp, frames)) && IsMatrix(ModifyFormants(sp, formantMultiplier))
    ensures ModifyFormants(ResampleFrames(sp, frames), formantMultiplier)
         == ResampleFrames(ModifyFormants(sp, formantMultiplier), frames)
  {
    var rows := FormantRows(|sp|, formantMultiplier);
    var a := ModifyFormants(ResampleFrames(sp, frames), formantMultiplier);
    var b := ResampleFrames(ModifyFormants(sp, formantMultiplier), frames);
    forall i | 0 <= i < |sp| ensures a[i] == b[i] {
      var src := SourceIndex(|sp|, rows, i);
      forall t | 0 <= t < frames ensures a[i][t] == b[i][t] {
        assert a[i][t] == sp[src][SourceIndex(Cols(sp), frames, t)];
      }
    }
  }

  /** A two-bin, two-frame envelope whose smallest value sits in the
      second frame. */
  function OrderExample(): (sp: seq<seq<real>>)
    ensures IsMatrix(sp) && |sp| == 2 && Cols(sp) == 2
  {
    [[5.0, 1.0], [2.0, 3.0]]
  }

  /** The example's envelope warped to one bin has minimum 1. */
  lemma OrderExamplePad()
    ensures PadValue(OrderExample(), 1) == 1.0
  {
    var sp := OrderExample();
    var warped := Resample2D(sp, 1, 2);
    assert SourceIndex(2, 1, 0) == 0;
    assert SourceIndex(2, 2, 0) == 0 && SourceIndex(2, 2, 1) == 1;
    assert warped[0] == [5.0, 1.0];
    assert warped == [[5.0, 1.0]];
    assert GridMin(warped) == SeqMin([5.0, 1.0]) == 1.0;
  }

  /** Warping the example to one bin keeps bin 0 and pads bin 1 with 1. */
  lemma OrderExampleWarpBins()
    ensures WarpBins(OrderExample(), 1) == [[5.0, 1.0], [1.0, 1.0]]
  {
    var sp := OrderExample();
    OrderExamplePad();
    var r := WarpBins(sp, 1);
    assert SourceIndex(2, 1, 0) == 0;
    forall t | 0 <= t < 2 ensures r[0][t] == sp[0][t] && r[1][t] == 1.0 {
      WarpLow(sp, 1, 0, t);
      WarpPad(sp, 1, 1, t);
    }
    assert r[0] == [5.0, 1.0];
    assert r[1] == [1.0, 1.0];
  }

  /** Halving the example's two bins asks for one bin. */
  lemma OrderExampleWarp()
    ensures FormantRows(2, 0.5) == 1
    ensures ModifyFormants(OrderExample(), 0.5) == [[5.0, 1.0], [1.0, 1.0]]
  {
    assert FormantRows(2, 0.5) == 1;
    OrderExampleWarpBins();
  }

  /** Halving its bins, then halving its frames: the pad is 1, the minimum
      of the full-length envelope. */
  lemma WarpThenTempoExample()
    ensures FormantRows(2, 0.5) == 1
    ensures ResampleFrames(ModifyFormants(OrderExample(), 0.5), 1) == [[5.0], [1.0]]
  {
    OrderExampleWarp();
    OrderExampleSqueeze();
  }

  /** The warped example with its two frames resampled to one. */
  lemma OrderExampleSqueeze()
    ensures IsMatrix([[5.0, 1.0], [1.0, 1.0]])
    ensures ResampleFrames([[5.0, 1.0], [1.0, 1.0]], 1) == [[5.0], [1.0]]
  {
    var r: seq<seq<real>> := [[5.0, 1.0], [1.0, 1.0]];
    assert IsMatrix(r);
    var q := ResampleFrames(r, 1);
    assert SourceIndex(2, 1, 0) == 0;
    assert q[0] == [5.0] && q[1] == [1.0];
  }

  /** Halving its frames, then halving its bins: the pad is 5, because the
      frame holding the minimum was dropped first. */
  lemma TempoThenWarpExample()
    ensures ModifyFormants(ResampleFrames(OrderExample(), 1), 0.5) == [[5.0], [5.0]]
  {
    var sp := OrderExample();
    assert SourceIndex(2, 1, 0) == 0;
    var squeezed := ResampleFrames(sp, 1);
    assert squeezed[0] == [5.0] && squeezed[1] == [2.0];
    assert FormantRows(2, 0.5) == 1;
    var warped := Resample2D(squeezed, 1, 1);
    assert SourceIndex(1, 1, 0) == 0;
    assert warped[0] == [5.0];
    assert warped == [[5.0]];
    assert GridMin(warped) == SeqMin([5.0]) == 5.0;
    var r := ModifyFormants(squeezed, 0.5);
    assert r[0] == [5.0] && r[1] == [5.0];
  }

  /** With padding the order of formant warp and tempo change matters: the
      pad value is the minimum of the envelope at the time resolution the
      warp sees, and a tempo change made first can drop the frame holding
      that minimum. */
  lemma WarpBeforeTempoMatters()
    ensures ResampleFrames(ModifyFormants(OrderExample(), 0.5), 1)
         != ModifyFormants(ResampleFrames(OrderExample(), 1), 0.5)
  {
    WarpThenTempoExample();
    TempoThenWarpExample();
    assert [[5.0], [1.0]][1] != [[5.0], [5.0]][1];
  }
}
