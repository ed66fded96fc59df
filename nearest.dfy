/** Nearest-neighbour resampling, the rule `F.interpolate` applies when it is
    called without a `mode`: output position j of n_out takes input position
    floor(j * n_in / n_out), clamped to n_in - 1. Scales are exact here (see
    the README for the floating-point scale this leaves out). */
module Nearest {
  import opened Arith
  import opened Grids

  /** Source position of output position j when n_in samples are resampled
      to n_out: the input cell [k, k+1) that contains j * n_in / n_out. */
  function SourceIndex(nIn: nat, nOut: nat, j: nat): (k: nat)
    requires nIn > 0 && nOut > 0 && j < nOut
    ensures k < nIn
    ensures k * nOut <= j * nIn < k * nOut + nOut
  {
    var q := (j * nIn) / nOut;
    DivBounds(j * nIn, nOut);
    assert q < nIn by {
      MulStrict(j, nOut, nIn);
      MulComm(nOut, nIn);
      if q >= nIn {
        MulMono(nIn, q, nOut);
      }
    }
    if q < nIn - 1 then q else nIn - 1
  }

  /** `s` resampled to `nOut` positions (one axis of `F.interpolate`). */
  function Resample<T>(s: seq<T>, nOut: nat): (r: seq<T>)
    requires |s| > 0 && nOut > 0
    ensures |r| == nOut
    ensures forall j :: 0 <= j < nOut ==> r[j] == s[SourceIndex(|s|, nOut, j)]
  {
    seq(nOut, j requires 0 <= j < nOut => s[SourceIndex(|s|, nOut, j)])
  }

  /** Every row of `g` resampled along the frame axis to `nOut` frames: a
      one-dimensional `F.interpolate` of a (batch, bins, frames) tensor. */
  function ResampleFrames(g: seq<seq<real>>, nOut: nat): (r: seq<seq<real>>)
    requires IsMatrix(g) && nOut > 0
    ensures IsGrid(r, |g|, nOut)
    ensures forall b, j :: 0 <= b < |g| && 0 <= j < nOut ==> r[b][j] == g[b][SourceIndex(Cols(g), nOut, j)]
  {
    seq(|g|, b requires 0 <= b < |g| => Resample(g[b], nOut))
  }

  /** `g` resampled to `rows` x `cols`: a two-dimensional `F.interpolate`,
      which picks the nearest source row and the nearest source column
      independently. */
  function Resample2D(g: seq<seq<real>>, rows: nat, cols: nat): (r: seq<seq<real>>)
    requires IsMatrix(g) && rows > 0 && cols > 0
    ensures IsGrid(r, rows, cols)
    ensures forall i, j :: 0 <= i < rows && 0 <= j < cols ==>
      r[i][j] == g[SourceIndex(|g|, rows, i)][SourceIndex(Cols(g), cols, j)]
  {
    Resample(ResampleFrames(g, cols), rows)
  }

  // ---------------------------------------------------------------------
  // Properties of the index map

  /** Resampling to the same length picks every position in place. */
  lemma SourceIndexIdentity(n: nat, j: nat)
    requires n > 0 && j < n
    ensures SourceIndex(n, n, j) == j
  {
    CellUnique(SourceIndex(n, n, j), j, n, j * n);
  }

  /** Later output positions never read earlier input positions: resampling
      keeps the order of frames (and of bins). */
  lemma SourceIndexMonotone(nIn: nat, nOut: nat, i: nat, j: nat)
    requires nIn > 0 && nOut > 0 && i <= j < nOut
    ensures SourceIndex(nIn, nOut, i) <= SourceIndex(nIn, nOut, j)
  {
    var a, b := SourceIndex(nIn, nOut, i), SourceIndex(nIn, nOut, j);
    MulMono(i, j, nIn);
    if a > b {
      MulMono(b + 1, a, nOut);
      MulSucc(b, nOut);
    }
  }

  /** Stretching by a whole factor f repeats each input position f times. */
  lemma SourceIndexStretch(n: nat, f: nat, j: nat)
    requires n > 0 && f > 0 && j < f * n
    ensures SourceIndex(n, f * n, j) == j / f
  {
    var k := SourceIndex(n, f * n, j);
    // k * (f * n) <= j * n < k * (f * n) + f * n, so k * f <= j < k * f + f
    MulAssoc(k, f, n);
    MulAddLeft(k * f, f, n);
    MulCancel(k * f, j, n);
    MulCancelStrict(j, k * f + f, n);
    DivUnique(j, f, k);
  }

  /** Squashing by a whole factor f keeps every f-th input position. */
  lemma SourceIndexSquash(n: nat, f: nat, j: nat)
    requires n > 0 && f > 0 && j < n
    ensures SourceIndex(f * n, n, j) == f * j
  {
    var k := SourceIndex(f * n, n, j);
    // k * n <= j * (f * n) == (f * j) * n < k * n + n
    MulAssoc(j, f, n);
    MulComm(j, f);
    MulSucc(f * j, n);
    CellUnique(k, f * j, n, j * (f * n));
  }

  /** When the output is at least as long as the input, every input
      position is read by some output position: nothing is dropped. */
  lemma SourceIndexCovers(nIn: nat, nOut: nat, k: nat) returns (j: nat)
    requires 0 < nIn <= nOut && k < nIn
    ensures j < nOut && SourceIndex(nIn, nOut, j) == k
  {
    // the first output position whose scaled position reaches k
    var a := k * nOut + nIn - 1;
    j := a / nIn;
    DivBounds(a, nIn);
    assert k * nOut <= j * nIn < k * nOut + nOut;
    assert j < nOut by {
      MulSucc(k, nOut);
      MulMono(k + 1, nIn, nOut);
      MulComm(nIn, nOut);
      MulCancelStrict(j, nOut, nIn);
    }
    CellUnique(SourceIndex(nIn, nOut, j), k, nOut, j * nIn);
  }

  // ---------------------------------------------------------------------
  // Properties of resampling

  /** Resampling to the input's own length changes nothing. */
  lemma ResampleIdentity<T>(s: seq<T>)
    requires |s| > 0
    ensures Resample(s, |s|) == s
  {
    forall j | 0 <= j < |s| ensures Resample(s, |s|)[j] == s[j] {
      SourceIndexIdentity(|s|, j);
    }
  }

  /** Resampling only copies values: every output value is an input value. */
  lemma ResampleValuesFromInput<T>(s: seq<T>, nOut: nat, j: nat)
    requires |s| > 0 && nOut > 0 && j < nOut
    ensures Resample(s, nOut)[j] in s
  {
  }

  /** Resampling to at least the input's length keeps every input value. */
  lemma ResampleKeepsEverySample<T>(s: seq<T>, nOut: nat, k: nat)
    requires 0 < |s| <= nOut && k < |s|
    ensures s[k] in Resample(s, nOut)
  {
    var j := SourceIndexCovers(|s|, nOut, k);
    assert Resample(s, nOut)[j] == s[k];
  }

  /** Stretching by a whole factor f repeats every sample f times. */
  lemma ResampleStretch<T>(s: seq<T>, f: nat, j: nat)
    requires |s| > 0 && f > 0 && j < f * |s|
    ensures Resample(s, f * |s|)[j] == s[j / f]
  {
    SourceIndexStretch(|s|, f, j);
  }

  /** Squashing by a whole factor f keeps every f-th sample. */
  lemma ResampleSquash<T>(s: seq<T>, f: nat, n: nat, j: nat)
    requires n > 0 && f > 0 && |s| == f * n && j < n
    ensures Resample(s, n)[j] == s[f * j]
  {
    SourceIndexSquash(n, f, j);
  }

  /** Resampling every row to the rows' own length changes nothing. */
  lemma ResampleFramesIdentity(g: seq<seq<real>>)
    requires IsMatrix(g)
    ensures ResampleFrames(g, Cols(g)) == g
  {
    forall b | 0 <= b < |g| ensures ResampleFrames(g, Cols(g))[b] == g[b] {
      ResampleIdentity(g[b]);
    }
  }
}
