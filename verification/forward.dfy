/**
 * The CTC forward (alpha) recursion of Graves et al. (2006), section 4.1.
 *
 * `Alpha(L, s, t)` is the specification: the forward variable of state `s`
 * of the extended sequence at timestep `t`, defined by recursion on `t`.
 * `ForwardAlgorithm` is the table-filling loop over a zero-initialised
 * S x T array, proved to produce exactly `Alpha` in every cell.
 */
module Forward {
  import opened Emission
  import opened ExtendedSequence

  /**
   * The inputs of one forward computation: the emission matrix, the extended
   * sequence Z, the symbol-to-row map of the vocabulary and the blank symbol.
   */
  datatype Lattice<Sym(==)> = Lattice(probs: Matrix, z: seq<Sym>, index: map<Sym, nat>, blank: Sym)
  {
    /**
     * What the recursion reads without checking: a rectangular matrix with
     * T >= 1, at least two states (Z[1] is read at initialisation) and every
     * state symbol mapped to a row of the matrix.
     */
    predicate Valid() {
      && Rectangular(probs)
      && |z| >= 2
      && forall s :: 0 <= s < |z| ==> z[s] in index && index[z[s]] < |probs|
    }

    /** The number of timesteps T. */
    function T(): nat
      requires Valid()
    {
      Steps(probs)
    }

    /** The emission probability of state `s` at timestep `t`: P[idx(Z[s]), t]. */
    function Emit(s: nat, t: nat): real
      requires Valid() && s < |z| && t < T()
    {
      probs[index[z[s]]][t]
    }
  }

  /**
   * State `s` may be entered directly from `s - 2` (skipping `s - 1`) unless
   * Z[s] is the blank or repeats Z[s - 2].
   */
  predicate SkipAllowed<Sym(==)>(z: seq<Sym>, blank: Sym, s: nat)
    requires 2 <= s < |z|
  {
    z[s] != blank && z[s] != z[s - 2]
  }

  /** The forward variable alpha[s, t]: the incoming mass times the emission of Z[s] at t. */
  function Alpha<Sym>(L: Lattice<Sym>, s: nat, t: nat): real
    requires L.Valid() && s < |L.z| && t < L.T()
    decreases t, 1
  {
    if t == 0 then
      if s <= 1 then L.Emit(s, 0) else 0.0
    else
      Incoming(L, s, t) * L.Emit(s, t)
  }

  /**
   * The mass that reaches state `s` at timestep `t >= 1` from column t-1:
   * from `s` itself, from `s - 1`, and from `s - 2` when the skip is allowed.
   */
  function Incoming<Sym>(L: Lattice<Sym>, s: nat, t: nat): real
    requires L.Valid() && s < |L.z| && 1 <= t < L.T()
    decreases t, 0
  {
    if s == 0 then
      Alpha(L, 0, t - 1)
    else if s == 1 then
      Alpha(L, 0, t - 1) + Alpha(L, 1, t - 1)
    else if !SkipAllowed(L.z, L.blank, s) then
      Alpha(L, s - 1, t - 1) + Alpha(L, s, t - 1)
    else
      Alpha(L, s - 2, t - 1) + Alpha(L, s - 1, t - 1) + Alpha(L, s, t - 1)
  }

  /** State 0 at t >= 1 only persists: alpha[0, t] = alpha[0, t-1] * P[Z[0], t]. */
  lemma StepFirstState<Sym>(L: Lattice<Sym>, t: nat, c: real, e: real)
    requires L.Valid() && 1 <= t < L.T()
    requires Alpha(L, 0, t - 1) == c && L.Emit(0, t) == e
    ensures Alpha(L, 0, t) == c * e
  {
  }

  /** State 1 at t >= 1 is entered from states 0 and 1. */
  lemma StepSecondState<Sym>(L: Lattice<Sym>, t: nat, b: real, c: real, e: real)
    requires L.Valid() && 1 <= t < L.T()
    requires Alpha(L, 0, t - 1) == b && Alpha(L, 1, t - 1) == c && L.Emit(1, t) == e
    ensures Alpha(L, 1, t) == (b + c) * e
  {
  }

  /**
   * A state s >= 2 holding the blank or repeating Z[s-2] is entered from
   * s - 1 and s only: alpha[s-2, t-1] does not take part.
   */
  lemma StepNoSkip<Sym>(L: Lattice<Sym>, s: nat, t: nat, b: real, c: real, e: real)
    requires L.Valid() && 2 <= s < |L.z| && 1 <= t < L.T()
    requires !SkipAllowed(L.z, L.blank, s)
    requires Alpha(L, s - 1, t - 1) == b && Alpha(L, s, t - 1) == c && L.Emit(s, t) == e
    ensures Alpha(L, s, t) == (b + c) * e
  {
  }

  /** Any other state s >= 2 is entered from s - 2, s - 1 and s. */
  lemma StepSkip<Sym>(L: Lattice<Sym>, s: nat, t: nat, a: real, b: real, c: real, e: real)
    requires L.Valid() && 2 <= s < |L.z| && 1 <= t < L.T()
    requires SkipAllowed(L.z, L.blank, s)
    requires Alpha(L, s - 2, t - 1) == a && Alpha(L, s - 1, t - 1) == b && Alpha(L, s, t - 1) == c
    requires L.Emit(s, t) == e
    ensures Alpha(L, s, t) == (a + b + c) * e
  {
  }

  /** The total probability P(Y|X): paths must end on the last label or the last blank. */
  function Probability<Sym>(L: Lattice<Sym>): real
    requires L.Valid()
  {
    Alpha(L, |L.z| - 2, L.T() - 1) + Alpha(L, |L.z| - 1, L.T() - 1)
  }

  /**
   * The scripts' forward_algorithm: a zero table, column 0 set from the first
   * two states, then every later column computed from the previous one.
   */
  method ForwardAlgorithm<Sym>(L: Lattice<Sym>) returns (alpha: array2<real>)
    requires L.Valid()
    ensures fresh(alpha)
    ensures alpha.Length0 == |L.z| && alpha.Length1 == L.T()
    ensures alpha[0, 0] == L.Emit(0, 0) && alpha[1, 0] == L.Emit(1, 0)
    ensures forall s :: 2 <= s < alpha.Length0 ==> alpha[s, 0] == 0.0
    ensures forall s, t :: 0 <= s < alpha.Length0 && 0 <= t < alpha.Length1 ==>
      alpha[s, t] == Alpha(L, s, t)
  {
    var S, T := |L.z|, L.T();
    alpha := new real[S, T]((s, t) => 0.0);
    alpha[0, 0] := L.probs[L.index[L.z[0]]][0];
    alpha[1, 0] := L.probs[L.index[L.z[1]]][0];
    var t := 1;
    while t < T
      invariant 1 <= t <= T
      invariant forall s, t' {:trigger alpha[s, t']} :: 0 <= s < S && 0 <= t' < t ==> alpha[s, t'] == Alpha(L, s, t')
    {
      FillColumn(L, alpha, t);
      t := t + 1;
    }
  }

  /** The inner loop over the states: fills column `t` from column `t - 1`. */
  method FillColumn<Sym>(L: Lattice<Sym>, alpha: array2<real>, t: nat)
    requires L.Valid() && alpha.Length0 == |L.z| && alpha.Length1 == L.T() && 1 <= t < L.T()
    requires forall s {:trigger alpha[s, t - 1]} :: 0 <= s < alpha.Length0 ==> alpha[s, t - 1] == Alpha(L, s, t - 1)
    modifies alpha
    ensures forall s :: 0 <= s < alpha.Length0 ==> alpha[s, t] == Alpha(L, s, t)
    ensures forall s, u :: 0 <= s < alpha.Length0 && 0 <= u < alpha.Length1 && u != t ==>
      alpha[s, u] == old(alpha[s, u])
  {
    var s := 0;
    while s < alpha.Length0
      invariant 0 <= s <= alpha.Length0
      invariant forall s' {:trigger alpha[s', t]} :: 0 <= s' < s ==> alpha[s', t] == Alpha(L, s', t)
      invariant forall s', u :: 0 <= s' < alpha.Length0 && 0 <= u < alpha.Length1 && u != t ==>
        alpha[s', u] == old(alpha[s', u])
    {
      var v := CellValue(L, alpha, s, t);
      alpha[s, t] := v;
      s := s + 1;
    }
  }

  /**
   * The body of the inner loop: the value of cell (s, t).  It reads column
   * t-1 only, and only at rows s-1 and s, plus row s-2 when the skip is
   * allowed: those are the only cells its precondition asks to be right.
   */
  method CellValue<Sym>(L: Lattice<Sym>, alpha: array2<real>, s: nat, t: nat) returns (v: real)
    requires L.Valid() && alpha.Length0 == |L.z| && alpha.Length1 == L.T()
    requires s < |L.z| && 1 <= t < L.T()
    requires alpha[s, t - 1] == Alpha(L, s, t - 1)
    requires s >= 1 ==> alpha[s - 1, t - 1] == Alpha(L, s - 1, t - 1)
    requires s >= 2 && SkipAllowed(L.z, L.blank, s) ==> alpha[s - 2, t - 1] == Alpha(L, s - 2, t - 1)
    ensures v == Alpha(L, s, t)
  {
    var zs := L.z[s];
    var e := L.probs[L.index[zs]][t];
    var incoming;
    if s == 0 {
      incoming := alpha[s, t - 1];
    } else if s == 1 {
      incoming := alpha[s - 1, t - 1] + alpha[s, t - 1];
    } else if zs == L.blank || L.z[s] == L.z[s - 2] {
      incoming := alpha[s - 1, t - 1] + alpha[s, t - 1];
    } else {
      incoming := alpha[s - 2, t - 1] + alpha[s - 1, t - 1] + alpha[s, t - 1];
    }
    assert incoming == Incoming(L, s, t);
    v := incoming * e;
  }

  /** Run the recursion and read P(Y|X) off the last column of the table. */
  method SequenceProbability<Sym>(L: Lattice<Sym>) returns (p: real)
    requires L.Valid()
    ensures p == Alpha(L, |L.z| - 2, L.T() - 1) + Alpha(L, |L.z| - 1, L.T() - 1)
    ensures NonNegative(L.probs) ==> p >= 0.0
  {
    var alpha := ForwardAlgorithm(L);
    var S, T := alpha.Length0, alpha.Length1;
    p := alpha[S - 2, T - 1] + alpha[S - 1, T - 1];
    if NonNegative(L.probs) {
      AlphaNonNegative(L, S - 2, T - 1);
      AlphaNonNegative(L, S - 1, T - 1);
    }
  }

  /** With non-negative emissions every forward variable is non-negative. */
  lemma {:induction false} AlphaNonNegative<Sym>(L: Lattice<Sym>, s: nat, t: nat)
    requires L.Valid() && s < |L.z| && t < L.T()
    requires NonNegative(L.probs)
    ensures Alpha(L, s, t) >= 0.0
    decreases t
  {
    assert L.Emit(s, t) >= 0.0;
    if t > 0 {
      AlphaNonNegative(L, s, t - 1);
      if s >= 1 { AlphaNonNegative(L, s - 1, t - 1); }
      if s >= 2 { AlphaNonNegative(L, s - 2, t - 1); }
      var inc, e := Incoming(L, s, t), L.Emit(s, t);
      assert inc >= 0.0;
      assert inc * e >= 0.0;
    }
  }

  /** A path advances by at most two states per step, so states past 2t+1 are unreachable. */
  lemma {:induction false} AlphaUnreachable<Sym>(L: Lattice<Sym>, s: nat, t: nat)
    requires L.Valid() && s < |L.z| && t < L.T()
    requires s > 2 * t + 1
    ensures Alpha(L, s, t) == 0.0
    decreases t
  {
    if t > 0 {
      AlphaUnreachable(L, s, t - 1);
      AlphaUnreachable(L, s - 1, t - 1);
      AlphaUnreachable(L, s - 2, t - 1);
      assert Incoming(L, s, t) == 0.0;
    }
  }

  /** The product of the first `n` entries of `xs`. */
  function Product(xs: seq<real>, n: nat): real
    requires n <= |xs|
  {
    if n == 0 then 1.0 else Product(xs, n - 1) * xs[n - 1]
  }

  /** State 0 only persists: alpha[0, t] is the product of the blank's emissions at 0..t. */
  lemma {:induction false} AlphaFirstState<Sym>(L: Lattice<Sym>, t: nat)
    requires L.Valid() && t < L.T()
    requires L.z[0] == L.blank
    ensures Alpha(L, 0, t) == Product(L.probs[L.index[L.blank]], t + 1)
  {
    if t > 0 {
      AlphaFirstState(L, t - 1);
    }
  }

  /**
   * On the extended sequence of a blank-free y the skip rule is about the
   * labels: state s >= 2 may skip exactly when it holds a label that differs
   * from the previous label, and the state it skips is then a blank.
   */
  lemma SkipRuleOnLabels<Sym>(z: seq<Sym>, y: seq<Sym>, blank: Sym, s: nat)
    requires Interleaves(z, y, blank) && blank !in y
    requires 2 <= s < |z|
    ensures SkipAllowed(z, blank, s) <==> s % 2 == 1 && y[s / 2] != y[s / 2 - 1]
    ensures SkipAllowed(z, blank, s) ==> z[s - 1] == blank
  {
    var k := s / 2;
    InterleavesAt(z, y, blank, k);
    if s % 2 == 1 {
      assert s == 2 * k + 1;
      InterleavesAt(z, y, blank, k - 1);
      assert y[k] in y;
    } else {
      assert s == 2 * k;
    }
  }

  /**
   * No lookahead: alpha[s, t] is determined by Z[0..s], the blank and the
   * emissions of states 0..s at timesteps 0..t; no later state and no later
   * timestep takes part.
   */
  lemma {:induction false} AlphaCausal<Sym>(L1: Lattice<Sym>, L2: Lattice<Sym>, s: nat, t: nat)
    requires L1.Valid() && L2.Valid()
    requires s < |L1.z| && s < |L2.z| && t < L1.T() && t < L2.T()
    requires L1.blank == L2.blank
    requires forall k :: 0 <= k <= s ==> L1.z[k] == L2.z[k]
    requires forall k, u :: 0 <= k <= s && 0 <= u <= t ==> L1.Emit(k, u) == L2.Emit(k, u)
    ensures Alpha(L1, s, t) == Alpha(L2, s, t)
    decreases t
  {
    assert L1.Emit(s, t) == L2.Emit(s, t);
    if t > 0 {
      AlphaCausal(L1, L2, s, t - 1);
      if s >= 1 {
        AlphaCausal(L1, L2, s - 1, t - 1);
      }
      if s >= 2 {
        assert SkipAllowed(L1.z, L1.blank, s) == SkipAllowed(L2.z, L2.blank, s);
        if SkipAllowed(L1.z, L1.blank, s) {
          AlphaCausal(L1, L2, s - 2, t - 1);
        }
      }
      IncomingAgrees(L1, L2, s, t);
    }
    AlphaAgrees(L1, L2, s, t);
  }

  /** Equal emissions and, past the first timestep, equal incoming sums give equal forward variables. */
  lemma AlphaAgrees<Sym>(L1: Lattice<Sym>, L2: Lattice<Sym>, s: nat, t: nat)
    requires L1.Valid() && L2.Valid()
    requires s < |L1.z| && s < |L2.z| && t < L1.T() && t < L2.T()
    requires L1.Emit(s, t) == L2.Emit(s, t)
    requires t >= 1 ==> Incoming(L1, s, t) == Incoming(L2, s, t)
    ensures Alpha(L1, s, t) == Alpha(L2, s, t)
  {
    if t >= 1 {
      ProductsAgree(Incoming(L1, s, t), L1.Emit(s, t), Incoming(L2, s, t), L2.Emit(s, t));
    }
  }

  /** Equal factors give equal products. */
  lemma ProductsAgree(a: real, b: real, c: real, d: real)
    requires a == c && b == d
    ensures a * b == c * d
  {
  }

  /** Equal forward variables at the predecessors give equal incoming sums. */
  lemma IncomingAgrees<Sym>(L1: Lattice<Sym>, L2: Lattice<Sym>, s: nat, t: nat)
    requires L1.Valid() && L2.Valid()
    requires s < |L1.z| && s < |L2.z| && 1 <= t < L1.T() && t < L2.T()
    requires Alpha(L1, s, t - 1) == Alpha(L2, s, t - 1)
    requires s >= 1 ==> Alpha(L1, s - 1, t - 1) == Alpha(L2, s - 1, t - 1)
    requires s >= 2 ==> SkipAllowed(L1.z, L1.blank, s) == SkipAllowed(L2.z, L2.blank, s)
    requires s >= 2 && SkipAllowed(L1.z, L1.blank, s) ==> Alpha(L1, s - 2, t - 1) == Alpha(L2, s - 2, t - 1)
    ensures Incoming(L1, s, t) == Incoming(L2, s, t)
  {
  }
}
