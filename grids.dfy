/** Two-dimensional grids of samples, as the spectral envelope and the
    aperiodicity are held: g[bin][frame]. The batch dimension of the tensors
    (always 1) is dropped. */
module Grids {

  /** g has exactly `rows` rows, each of exactly `cols` entries. */
  ghost predicate IsGrid(g: seq<seq<real>>, rows: nat, cols: nat) {
    |g| == rows && forall r :: 0 <= r < |g| ==> |g[r]| == cols
  }

  /** A grid with at least one row and one column, every row as long as the first. */
  ghost predicate IsMatrix(g: seq<seq<real>>) {
    |g| > 0 && |g[0]| > 0 && IsGrid(g, |g|, |g[0]|)
  }

  /** Number of columns (frames) of a non-empty grid. */
  function Cols(g: seq<seq<real>>): nat
    requires |g| > 0
  {
    |g[0]|
  }

  /** `v` is one of the entries of `g`. */
  ghost predicate InGrid(v: real, g: seq<seq<real>>) {
    exists r, c :: 0 <= r < |g| && 0 <= c < |g[r]| && g[r][c] == v
  }

  /** The smallest entry of a non-empty sequence. */
  function SeqMin(s: seq<real>): (m: real)
    requires |s| > 0
    ensures m in s
    ensures forall i :: 0 <= i < |s| ==> m <= s[i]
  {
    if |s| == 1 then s[0]
    else
      var rest := SeqMin(s[1..]);
      if s[0] <= rest then s[0] else rest
  }

  /** The smallest entry of a grid whose rows are all non-empty: the value
      `torch.min` returns for the whole tensor. */
  function GridMin(g: seq<seq<real>>): (m: real)
    requires |g| > 0
    requires forall r :: 0 <= r < |g| ==> |g[r]| > 0
    ensures InGrid(m, g)
    ensures forall r, c :: 0 <= r < |g| && 0 <= c < |g[r]| ==> m <= g[r][c]
  {
    var head := SeqMin(g[0]);
    if |g| == 1 then head
    else
      var rest := GridMin(g[1..]);
      if head <= rest then head else rest
  }

  /** A `rows` x `cols` grid every entry of which is `v`. */
  function Fill(rows: nat, cols: nat, v: real): (g: seq<seq<real>>)
    ensures IsGrid(g, rows, cols)
    ensures forall r, c :: 0 <= r < rows && 0 <= c < cols ==> g[r][c] == v
  {
    seq(rows, _ => seq(cols, _ => v))
  }
}
