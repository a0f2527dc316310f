/**
 * The emission matrix of CTC: one row per vocabulary symbol, one column per
 * timestep, `probs[v][t]` being the probability that the acoustic model emits
 * vocabulary entry `v` at timestep `t`.  Probabilities are exact reals.
 */
module Emission {

  type Matrix = seq<seq<real>>

  /** At least one row, at least one column, and every row of the same length. */
  predicate Rectangular(probs: Matrix) {
    && |probs| > 0
    && |probs[0]| > 0
    && forall v :: 0 <= v < |probs| ==> |probs[v]| == |probs[0]|
  }

  /** The number of timesteps T, i.e. the number of columns. */
  function Steps(probs: Matrix): (n: nat)
    requires Rectangular(probs)
    ensures n >= 1
  {
    |probs[0]|
  }

  /** Every entry is a probability mass, hence not negative. */
  predicate NonNegative(probs: Matrix) {
    forall v, t :: 0 <= v < |probs| && 0 <= t < |probs[v]| ==> probs[v][t] >= 0.0
  }

  /** Column `t` of the matrix, one entry per vocabulary symbol. */
  function Column(probs: Matrix, t: nat): (col: seq<real>)
    requires Rectangular(probs) && t < Steps(probs)
    ensures |col| == |probs|
    ensures forall v :: 0 <= v < |col| ==> col[v] == probs[v][t]
  {
    seq(|probs|, v requires 0 <= v < |probs| => probs[v][t])
  }

  /** The sum of the first `n` entries of `xs`. */
  function Sum(xs: seq<real>, n: nat): real
    requires n <= |xs|
  {
    if n == 0 then 0.0 else Sum(xs, n - 1) + xs[n - 1]
  }

  /** The total mass of column `t` (a column of a distribution sums to 1). */
  function ColumnSum(probs: Matrix, t: nat): real
    requires Rectangular(probs) && t < Steps(probs)
  {
    Sum(Column(probs, t), |probs|)
  }

  function Abs(x: real): (r: real)
    ensures r >= 0.0 && (r == x || r == -x)
  {
    if x < 0.0 then -x else x
  }
}
