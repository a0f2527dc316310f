/**
 * The sanity check on the emission matrix: every column of a distribution
 * over the vocabulary should sum to 1; a column off by more than 0.01 draws a
 * warning, and the computation goes on regardless.
 */
module ColumnCheck {
  import opened Emission

  /** Column `t` is flagged: its sum is more than 0.01 away from 1. */
  predicate Warns(probs: Matrix, t: nat)
    requires Rectangular(probs) && t < Steps(probs)
  {
    Abs(ColumnSum(probs, t) - 1.0) > 0.01
  }

  /**
   * The loop over the columns: the timesteps whose column would be reported,
   * in increasing order.  It has no error path: every rectangular matrix is
   * accepted.
   */
  method ColumnWarnings(probs: Matrix) returns (warned: seq<nat>)
    requires Rectangular(probs)
    ensures forall t: nat :: t in warned <==> t < Steps(probs) && Warns(probs, t)
    ensures forall i, j :: 0 <= i < j < |warned| ==> warned[i] < warned[j]
  {
    warned := [];
    var t := 0;
    while t < Steps(probs)
      invariant t <= Steps(probs)
      invariant forall u: nat :: u in warned <==> u < t && Warns(probs, u)
      invariant forall i, j :: 0 <= i < j < |warned| ==> warned[i] < warned[j]
      invariant forall i :: 0 <= i < |warned| ==> warned[i] < t
    {
      if Abs(ColumnSum(probs, t) - 1.0) > 0.01 {
        warned := warned + [t];
      }
      t := t + 1;
    }
  }
}
