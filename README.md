# Helium speech effect: WORLD parameter transforms in Dafny

This project models the parameter-domain core of the Helium speech effect
(`Code/OrginalFunction.py`). An utterance is analysed by the WORLD vocoder into three
streams:

- `f0`, the pitch contour, one value per frame, with 0 marking an unvoiced frame;
- `sp`, the spectral envelope, indexed `[bin][frame]`, which carries the formants;
- `ap`, the aperiodicity, with the shape of `sp`.

Three transforms change these streams, and `modify_audio` chains them between
analysis and synthesis:

- `modify_formants` warps the envelope along the bin axis to `int(bins * m)` bins with
  `F.interpolate`. It then cuts the result back to the original bin count, or pads it up
  to that count. The pad value is the minimum of the whole warped envelope.
- `modify_pitch` multiplies every pitch value by the multiplier.
- `modify_tempo` resamples all three streams along the frame axis to
  `int(frames * (1.0 / tempo))` frames.
- `modify_audio` returns the waveform untouched when all three multipliers are
  `np.isclose` to 1. Otherwise it runs analysis, then formants, pitch and tempo in that
  order, then synthesis.

Modules:

- `Arith`: small lemmas about products and quotients that the index proofs use.
- `Grids`: rectangular grids of reals, their minimum (`torch.min`) and constant grids
  (`torch.ones * v`).
- `Nearest`: PyTorch's default `'nearest'` interpolation. Output position `j` of `n_out`
  reads input position `min(j * n_in / n_out, n_in - 1)` (floor division). There is a
  one-axis version (`Resample`), a per-row version along the frame axis
  (`ResampleFrames`) and the two-axis version (`Resample2D`).
- `World`: the parameter triple `WorldParams`, and the subset type `Parameters` of well-formed
  triples. In a well-formed triple `f0` has as many frames as `sp`, and `ap` has exactly
  the shape of `sp`. The module also holds Python's `int()` on a float (`Trunc`, which
  truncates toward zero), the two size computations and `np.isclose` with its default
  tolerances.
- `Transforms`: `ModifyFormants`, `ModifyPitch` and `ModifyTempo`, with their
  properties.
- `Pipeline`: `Transform`, the three transforms in order with the exceptions they raise
  as `Failure` values, and `ModifyAudio`. The WORLD analyzer and synthesizer are
  function parameters of `ModifyAudio`.

## Model

| member | source | states |
|---|---|---|
| Nearest.SourceIndex | Code/OrginalFunction.py:87-89 | the nearest-neighbour source position lies inside the input, and it is the input cell that holds `j * n_in / n_out` |
| Nearest.Resample | Code/OrginalFunction.py:87 | a resampled sequence has the requested length, and position `j` holds input position `SourceIndex(n_in, n_out, j)` |
| Nearest.ResampleFrames | Code/OrginalFunction.py:88-89 | one-axis interpolation of a bins-by-frames tensor keeps the bin count; bin `b`, frame `j` is bin `b` at source frame `SourceIndex` |
| Nearest.Resample2D | Code/OrginalFunction.py:66 | two-axis interpolation has the requested shape, and picks the source row and the source column independently |
| Nearest.SourceIndexIdentity | Code/OrginalFunction.py:66 | resampling to the same length reads every position in place |
| Nearest.SourceIndexMonotone | Code/OrginalFunction.py:87-89 | later output positions never read earlier input positions, so frame order is kept |
| Nearest.SourceIndexStretch | Code/OrginalFunction.py:87-89 | stretching by a whole factor `f` reads input position `j / f` |
| Nearest.SourceIndexSquash | Code/OrginalFunction.py:87-89 | squashing by a whole factor `f` reads input position `f * j` |
| Nearest.SourceIndexCovers | Code/OrginalFunction.py:87-89 | when the output is at least as long as the input, every input position is read by some output position |
| Nearest.ResampleIdentity | Code/OrginalFunction.py:87 | resampling to the input's own length gives the input back |
| Nearest.ResampleValuesFromInput | Code/OrginalFunction.py:87 | every resampled value is a value of the input |
| Nearest.ResampleKeepsEverySample | Code/OrginalFunction.py:87 | resampling to at least the input's length drops no value |
| Nearest.ResampleStretch | Code/OrginalFunction.py:87 | stretching by a whole factor `f` repeats every sample `f` times |
| Nearest.ResampleSquash | Code/OrginalFunction.py:87 | squashing by a whole factor `f` keeps every `f`-th sample |
| Nearest.ResampleFramesIdentity | Code/OrginalFunction.py:88-89 | resampling every row to its own length gives the grid back |
| Grids.SeqMin | Code/OrginalFunction.py:72 | the minimum is an element of the sequence and no element is smaller |
| Grids.GridMin | Code/OrginalFunction.py:72 | `torch.min` over the whole grid: an entry of the grid that no entry is below |
| Grids.Fill | Code/OrginalFunction.py:72 | the constant pad block has the requested shape and holds `v` everywhere |
| World.Trunc | Code/OrginalFunction.py:66 | Python `int()` on a float truncates toward zero: the floor for non-negative values, the ceiling for negative ones |
| World.FormantRows | Code/OrginalFunction.py:66 | `int(n_rows * formant_multiplier)`: at most 0 for a multiplier at most 0, at least the bin count for a multiplier at least 1, below the bin count for a multiplier below 1 |
| World.TargetFrames | Code/OrginalFunction.py:86-89 | `int(frames * (1.0 / tempo_multiplier))`: at most 0 for a negative tempo, at least the frame count for a tempo in (0, 1], below the frame count for a tempo above 1 |
| World.IsClose | Code/OrginalFunction.py:104 | `np.isclose(a, b)` with the default tolerances: `abs(a - b) <= 1e-8 + 1e-5 * abs(b)` |
| World.IsIdentityConfig | Code/OrginalFunction.py:104 | `all(...)` over the three multipliers: each is `np.isclose` to 1.0 |
| World.IsCloseToOne | Code/OrginalFunction.py:104 | `np.isclose(x, 1.0)` holds exactly when `0.99998999 <= x <= 1.00001001`, in both directions |
| World.FormantRowsSquash | Code/OrginalFunction.py:66 | a formant multiplier of `1/f` over `f * n` bins asks for `n` bins |
| World.FormantRowsStretch | Code/OrginalFunction.py:66 | a whole formant multiplier `f` over `b` bins asks for `f * b` bins |
| World.TargetFramesSlow | Code/OrginalFunction.py:86-89 | a tempo of `1/f` over `n` frames asks for `f * n` frames |
| World.TargetFramesFast | Code/OrginalFunction.py:86-89 | a tempo of `f` over `f * n` frames asks for `n` frames |
| World.UnitMultipliersKeepSizes | Code/OrginalFunction.py:66-89 | a multiplier of exactly 1 asks both interpolations for the size the tensor already has |
| Transforms.PadValue | Code/OrginalFunction.py:72 | `torch.min` of the warped tensor: an entry of the envelope warped to `rows` bins that no entry of it is below |
| Transforms.WarpBins | Code/OrginalFunction.py:66-73 | the warped envelope, cut back or padded, has the input's bin count and frame count |
| Transforms.WarpLow | Code/OrginalFunction.py:66-69 | an output bin below the warped count is its source bin `SourceIndex(bins, rows, i)`, frame for frame; when the warp has more bins, the higher ones are dropped |
| Transforms.WarpPad | Code/OrginalFunction.py:70-72 | every output bin from the warped count up holds the pad value, in every frame |
| Transforms.WarpBinsSpec | Code/OrginalFunction.py:64-73 | both facts above, for all bins and frames at once |
| Transforms.ModifyFormants | Code/OrginalFunction.py:60-74 | `modify_formants` keeps the bin count and the frame count; bins below `int(bins * m)` are their source bins, and the bins above hold the pad value |
| Transforms.WarpKeepsFrames | Code/OrginalFunction.py:66 | the two-axis interpolation with the frame count kept only moves bins |
| Transforms.WarpIdentity | Code/OrginalFunction.py:66-73 | warping to the envelope's own bin count gives the envelope back |
| Transforms.PadFromEnvelope | Code/OrginalFunction.py:72 | the pad value is an entry of the input envelope and is not below its minimum: a value taken from the envelope, not a constant zero (it is positive whenever the envelope is, see `WarpKeepsPositive`) |
| Transforms.WarpPadIsMinimum | Code/OrginalFunction.py:72 | the pad value is not above any entry of the output envelope |
| Transforms.WarpValuesFromEnvelope | Code/OrginalFunction.py:66-72 | every entry of the output envelope is an entry of the input envelope |
| Transforms.WarpKeepsPositive | Code/OrginalFunction.py:71-72 | a strictly positive envelope stays strictly positive, padding included |
| Transforms.WarpSquash | Code/OrginalFunction.py:66-72 | squashing `f * n` bins down to `n` bins: output bin `i` below `n` is input bin `f * i` |
| Transforms.WarpStretch | Code/OrginalFunction.py:68-69 | stretching to `f` times the bins and cutting back: output bin `i` is input bin `i / f` |
| Transforms.FormantsIdentity | Code/OrginalFunction.py:60-74 | a multiplier whose bin count is the original one, 1.0 among them, leaves the envelope unchanged |
| Transforms.FormantsHalve | Code/OrginalFunction.py:60-74 | multiplier 0.5 over 512 bins: bins 0 to 255 are the even input bins, and bins 256 to 511 hold the pad value |
| Transforms.ModifyPitch | Code/OrginalFunction.py:76-80 | the length is kept, entry `i` is `f0[i] * m`, and an unvoiced 0 stays 0 |
| Transforms.PitchKeepsVoicing | Code/OrginalFunction.py:80 | with a non-zero multiplier, an output frame is unvoiced exactly when its input frame is |
| Transforms.PitchRoundTrip | Code/OrginalFunction.py:80 | scaling by `m` and then by `1/m` gives the contour back |
| Transforms.PitchCompose | Code/OrginalFunction.py:80 | two scalings are one scaling by the product of the multipliers |
| Transforms.PitchDoubling | Code/OrginalFunction.py:80 | doubling `[100, 120, 0, 140]` gives `[200, 240, 0, 280]` |
| Transforms.ModifyTempo | Code/OrginalFunction.py:82-91 | each stream gets `int(its frames / t)` frames, reading its input frame `SourceIndex`; the bin counts of `sp` and `ap` are kept |
| Transforms.TempoLockstep | Code/OrginalFunction.py:86-91 | on well-formed parameters the three streams end up with one common frame count and the result is well-formed |
| Transforms.TempoIdentity | Code/OrginalFunction.py:86-89 | a tempo of 1 leaves all three streams unchanged |
| Transforms.TempoSlowdown | Code/OrginalFunction.py:86-89 | a tempo of `1/f` gives `f` times the frames, and frame `j` of every stream is input frame `j / f` |
| Transforms.TempoSpeedup | Code/OrginalFunction.py:86-89 | a tempo of `f` over `f * n` frames gives `n` frames, and frame `j` of every stream is input frame `f * j` |
| Transforms.TempoHalving | Code/OrginalFunction.py:86-89 | a tempo of 0.5 over 100 frames gives 200 frames of well-formed parameters |
| Transforms.TempoSlowdownKeepsFrames | Code/OrginalFunction.py:87 | slowing down drops no pitch value, voiced or unvoiced |
| Transforms.TempoPitchValuesFromInput | Code/OrginalFunction.py:87 | every output pitch value is an input pitch value |
| Pipeline.Transform | Code/OrginalFunction.py:108-112 | the run succeeds exactly when `int(bins * fm) >= 1`, the tempo is non-zero and `int(frames / t) >= 1`; each failure has its own error; success keeps the bin count and yields `int(frames / t)` frames of well-formed parameters |
| Pipeline.ModifyAudio | Code/OrginalFunction.py:93-116 | the identity configuration returns the input waveform; otherwise the result succeeds exactly when the transforms do, is the synthesis of their output, and otherwise carries their error |
| Pipeline.IdentitySkipsVocoder | Code/OrginalFunction.py:104-106 | in the identity case the result does not depend on the analyzer or the synthesizer |
| Pipeline.DefaultsReturnInput | Code/OrginalFunction.py:96-98 | the default multipliers (1.0, 1.0, 1.0) return the input waveform |
| Pipeline.TransformStages | Code/OrginalFunction.py:108-112 | a successful run is the tempo change of the warped envelope, the scaled contour and the untouched aperiodicity; the aperiodicity enters the tempo change with the shape of the envelope |
| Pipeline.TransformPitchFrame | Code/OrginalFunction.py:111-112 | output frame `j` holds the scaled pitch of input frame `SourceIndex(frames, new frames, j)` |
| Pipeline.TransformEnvelopeFrame | Code/OrginalFunction.py:110-112 | output frame `j` of `sp` is the warped envelope at that same source frame, and output frame `j` of `ap` is the input's own |
| Pipeline.TransformKeepsVoicing | Code/OrginalFunction.py:111-112 | with a non-zero pitch multiplier, an output frame is unvoiced exactly when its source frame is |
| Pipeline.WarpCommutesWithTempo | Code/OrginalFunction.py:110-112 | when the warp needs no padding, warping the bins and resampling the frames commute |
| Pipeline.WarpThenTempoExample | Code/OrginalFunction.py:110-112 | in the code's order, the pad of a two-by-two example is the minimum over both frames |
| Pipeline.TempoThenWarpExample | Code/OrginalFunction.py:110-112 | in the opposite order, the pad of the same example is the minimum over the kept frame only |
| Pipeline.WarpBeforeTempoMatters | Code/OrginalFunction.py:110-112 | with padding, the two orders give different envelopes, so the code's order is observable |

## Left out

- `audio_to_world` and `world_to_audio` (`Code/OrginalFunction.py:11-58`) are function parameters of `ModifyAudio`. The model assumes only that the analyzer returns well-formed parameters with at least one frame and one bin. The pyworld calls, float64/float32 casts and transposes are not modelled.
- The batch dimension, which is always 1, is dropped. `sp` and `ap` are grids indexed `[bin][frame]`.
- Samples are exact reals. The model leaves out float rounding of `n_rows * formant_multiplier` and of `1.0 / tempo_multiplier`, and NaN and infinite values. It also leaves out the float scale that `F.interpolate` uses for its source index. For some sizes that scale can round differently from the exact floor division modelled here.
- The individual transforms take the sizes they need as preconditions (`int(...) >= 1`, tempo non-zero), because PyTorch and Python raise there. `Pipeline.Transform` models these exceptions as `Failure(InvalidSize(n))` and `Failure(ZeroDivision)`. Exception types and messages are not modelled.
- Target sizes use `int()` truncation (`Code/OrginalFunction.py:66`, `:87-89`), and the model does the same. No multiplier is validated, and nothing is checked after synthesis; the model adds no such checks.
- `analyze.py`, `main.py`, `Real_time.py` and `Samogloski/YPIN.py` are not part of this model. They are file, audio-device and plotting scripts around the core.
- Pipeline.TransformPitchFrame: states the output pitch as an entry of `ModifyPitch(f0, m)` rather than as the product `f0[k] * m`. The contract of `Transforms.ModifyPitch` gives the product.
- Pipeline.ModifyAudio: returns the same waveform value, not the same Python object.
