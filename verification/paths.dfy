/**
 * The alignments behind the forward variables.  A path is the state of the
 * extended sequence occupied at every timestep: it starts in state 0 or 1 and
 * at every step stays, advances by one, or skips one state where the skip
 * rule allows it.  These are exactly the moves the recursion sums over:
 * `PathMass.AlphaIsPathMass` proves every forward variable the total
 * probability of the paths ending in its cell.
 */
module Paths {
  import opened Emission
  import opened ExtendedSequence
  import opened Forward
  import opened Greedy

  /** One move of a path: stay, advance by one, or skip where allowed. */
  predicate Move<Sym(==)>(z: seq<Sym>, blank: Sym, from: nat, to: nat)
    requires to < |z|
  {
    || to == from
    || to == from + 1
    || (to == from + 2 && SkipAllowed(z, blank, to))
  }

  /** `p[i]` is the state at timestep `i`; the path starts in state 0 or 1. */
  predicate IsPath<Sym(==)>(z: seq<Sym>, blank: Sym, p: seq<nat>) {
    && |p| >= 1
    && p[0] <= 1
    && (forall i :: 0 <= i < |p| ==> p[i] < |z|)
    && (forall i :: 1 <= i < |p| ==> Move(z, blank, p[i - 1], p[i]))
  }

  /** The symbols a path reads off the extended sequence. */
  function Symbols<Sym>(z: seq<Sym>, p: seq<nat>): (out: seq<Sym>)
    requires forall i :: 0 <= i < |p| ==> p[i] < |z|
    ensures |out| == |p|
    ensures forall i :: 0 <= i < |p| ==> out[i] == z[p[i]]
  {
    seq(|p|, i requires 0 <= i < |p| => z[p[i]])
  }

  /**
   * One move on the extended sequence of blank-free labels: if the symbols read
   * so far, ending with Z[from], collapse to the labels before state `from`,
   * then with Z[to] appended they collapse to the labels before state `to`.
   */
  lemma CollapseMove<Sym>(z: seq<Sym>, y: seq<Sym>, blank: Sym, read: seq<Sym>, from: nat, to: nat)
    requires Interleaves(z, y, blank) && blank !in y
    requires from < |z| && to < |z|
    requires Move(z, blank, from, to)
    requires |read| > 0 && read[|read| - 1] == z[from]
    requires Collapse(read, blank) == y[..(from + 1) / 2]
    ensures Collapse(read + [z[to]], blank) == y[..(to + 1) / 2]
  {
    MoveReads(z, y, blank, from, to);
    CollapseStep(y, blank, read, z[to], (from + 1) / 2, (to + 1) / 2);
  }

  /**
   * What a move reads: the blank or the symbol just read, without passing a
   * label, or the next label, which differs from the symbol just read.
   */
  lemma MoveReads<Sym>(z: seq<Sym>, y: seq<Sym>, blank: Sym, from: nat, to: nat)
    requires Interleaves(z, y, blank) && blank !in y
    requires from < |z| && to < |z|
    requires Move(z, blank, from, to)
    ensures var i, j := (from + 1) / 2, (to + 1) / 2;
      || ((z[to] == blank || z[to] == z[from]) && j == i)
      || (i < |y| && z[to] == y[i] && z[to] != z[from] && j == i + 1)
  {
    var k := to / 2;
    Halves(to, k);
    InterleavesAt(z, y, blank, k);
    if to == from {
    } else if to == 2 * k {
      assert from + 1 == 2 * k by {
        assert !SkipAllowed(z, blank, to);
      }
      Halves(from + 1, k);
    } else {
      assert z[from] != z[to] by {
        assert y[k] in y;
        if to == from + 1 {
          assert z[from] == blank;
        } else {
          assert SkipAllowed(z, blank, to);
        }
      }
      assert from + 1 == 2 * k || from + 1 == 2 * k + 1;
      Halves(from + 1, k);
      Halves(to + 1, k + 1);
    }
  }

  /**
   * One symbol more: a symbol that is skipped leaves the output as it was, and
   * a new label that differs from the previous raw symbol extends it by one.
   */
  lemma CollapseStep<Sym>(y: seq<Sym>, blank: Sym, read: seq<Sym>, c: Sym, i: nat, j: nat)
    requires blank !in y && |read| > 0 && i <= |y|
    requires Collapse(read, blank) == y[..i]
    requires || ((c == blank || c == read[|read| - 1]) && j == i)
             || (i < |y| && c == y[i] && c != read[|read| - 1] && j == i + 1)
    ensures j <= |y| && Collapse(read + [c], blank) == y[..j]
  {
    if j == i {
      CollapseSkipsSymbol(read, c, blank);
    } else {
      assert y[i] in y;
      CollapseKeepsSymbol(read, c, blank);
      PrefixSnoc(y, i);
    }
  }

  /** A prefix one longer is the shorter prefix and one more element. */
  lemma PrefixSnoc<T>(y: seq<T>, i: nat)
    requires i < |y|
    ensures y[..i + 1] == y[..i] + [y[i]]
  {
  }

  /** Halving by Euclidean division: n is 2k or 2k + 1 exactly when n / 2 == k. */
  lemma Halves(n: nat, k: nat)
    requires n == 2 * k || n == 2 * k + 1
    ensures n / 2 == k
  {
  }

  /**
   * Every path through the extended sequence of a blank-free label sequence
   * collapses to the labels passed so far: a path ending in state s collapses
   * to y[..(s+1)/2].
   */
  lemma {:induction false} PathCollapse<Sym>(z: seq<Sym>, y: seq<Sym>, blank: Sym, p: seq<nat>)
    requires Interleaves(z, y, blank) && blank !in y
    requires IsPath(z, blank, p)
    ensures Collapse(Symbols(z, p), blank) == y[..(p[|p| - 1] + 1) / 2]
    decreases |p|
  {
    var n := |p| - 1;
    if n == 0 {
      assert Symbols(z, p) == [z[p[0]]];
      PathStart(z, y, blank, p[0]);
    } else {
      var q, from, to := p[..n], p[n - 1], p[n];
      PathPrefix(z, blank, p);
      PathCollapse(z, y, blank, q);
      var read := Symbols(z, q);
      assert q[|q| - 1] == from && read[|read| - 1] == z[from];
      CollapseMove(z, y, blank, read, from, to);
    }
  }

  /** A path without its last state is a path, and reads one symbol less. */
  lemma PathPrefix<Sym>(z: seq<Sym>, blank: Sym, p: seq<nat>)
    requires IsPath(z, blank, p) && |p| >= 2
    ensures IsPath(z, blank, p[..|p| - 1])
    ensures p[..|p| - 1][|p| - 2] == p[|p| - 2]
    ensures Move(z, blank, p[|p| - 2], p[|p| - 1])
    ensures Symbols(z, p) == Symbols(z, p[..|p| - 1]) + [z[p[|p| - 1]]]
    ensures Symbols(z, p[..|p| - 1])[|p| - 2] == z[p[|p| - 2]]
  {
    var n := |p| - 1;
    assert Symbols(z, p) == Symbols(z, p[..n]) + [z[p[n]]];
  }

  /** A path of one state reads the leading blank, or the first label. */
  lemma PathStart<Sym>(z: seq<Sym>, y: seq<Sym>, blank: Sym, s: nat)
    requires Interleaves(z, y, blank) && blank !in y
    requires s <= 1 && s < |z|
    ensures Collapse([z[s]], blank) == y[..(s + 1) / 2]
  {
    InterleavesAt(z, y, blank, 0);
    CollapseAppend([], z[s], blank);
    assert [z[s]] == [] + [z[s]];
    if s == 1 {
      assert y[0] in y;
      assert y[..1] == [y[0]];
    }
  }

  /**
   * The paths that P(Y|X) adds up, those ending in one of the last two
   * states, collapse to exactly the labels.
   */
  lemma CompletePathCollapse<Sym>(y: seq<Sym>, blank: Sym, p: seq<nat>)
    requires blank !in y && |y| >= 1
    requires IsPath(Extended(y, blank), blank, p)
    requires p[|p| - 1] >= 2 * |y| - 1
    ensures Collapse(Symbols(Extended(y, blank), p), blank) == y
  {
    ExtendedInterleaves(y, blank);
    PathCollapse(Extended(y, blank), y, blank, p);
    Halves(p[|p| - 1] + 1, |y|);
    assert y[..|y|] == y;
  }

  /**
   * Conversely, a path through the extended sequence collapses to all of the
   * labels exactly when it ends in one of the last two states.
   */
  lemma CollapsesToLabels<Sym>(y: seq<Sym>, blank: Sym, p: seq<nat>)
    requires blank !in y && |y| >= 1
    requires IsPath(Extended(y, blank), blank, p)
    ensures Collapse(Symbols(Extended(y, blank), p), blank) == y <==> p[|p| - 1] >= 2 * |y| - 1
  {
    var z, last := Extended(y, blank), p[|p| - 1];
    ExtendedInterleaves(y, blank);
    PathCollapse(z, y, blank, p);
    if last >= 2 * |y| - 1 {
      CompletePathCollapse(y, blank, p);
    } else {
      assert |y[..(last + 1) / 2]| < |y|;
    }
  }

  /** Every emission is strictly positive. */
  predicate Positive(probs: Matrix) {
    forall v, t :: 0 <= v < |probs| && 0 <= t < |probs[v]| ==> probs[v][t] > 0.0
  }

  /** A non-zero forward variable is the end of some path of t + 1 states. */
  lemma {:induction false} NonZeroHasPath<Sym>(L: Lattice<Sym>, s: nat, t: nat)
    requires L.Valid() && s < |L.z| && t < L.T()
    requires Alpha(L, s, t) != 0.0
    ensures exists p :: IsPath(L.z, L.blank, p) && |p| == t + 1 && p[t] == s
    decreases t
  {
    if t == 0 {
      assert IsPath(L.z, L.blank, [s]);
    } else {
      var inc := Incoming(L, s, t);
      assert Alpha(L, s, t) == inc * L.Emit(s, t);
      assert inc != 0.0;
      var from: nat;
      if Alpha(L, s, t - 1) != 0.0 {
        from := s;
      } else if s >= 1 && Alpha(L, s - 1, t - 1) != 0.0 {
        from := s - 1;
      } else {
        from := s - 2;
      }
      assert Move(L.z, L.blank, from, s);
      NonZeroHasPath(L, from, t - 1);
      var q :| IsPath(L.z, L.blank, q) && |q| == t && q[t - 1] == from;
      ExtendPath(L.z, L.blank, q, s);
    }
  }

  /** A path followed by a move is a path. */
  lemma ExtendPath<Sym>(z: seq<Sym>, blank: Sym, q: seq<nat>, s: nat)
    requires IsPath(z, blank, q) && s < |z|
    requires Move(z, blank, q[|q| - 1], s)
    ensures IsPath(z, blank, q + [s])
  {
  }

  /**
   * With strictly positive emissions the converse holds too: the end of every
   * path of t + 1 states has a positive forward variable.  So alpha[s, t] is
   * non-zero exactly when state s is reachable at timestep t.
   */
  lemma {:induction false} PathHasPositiveAlpha<Sym>(L: Lattice<Sym>, p: seq<nat>)
    requires L.Valid() && Positive(L.probs)
    requires IsPath(L.z, L.blank, p) && |p| <= L.T()
    ensures Alpha(L, p[|p| - 1], |p| - 1) > 0.0
    decreases |p|
  {
    var t := |p| - 1;
    var s := p[t];
    assert L.Emit(s, t) > 0.0;
    if t > 0 {
      var q := p[..t];
      assert IsPath(L.z, L.blank, q);
      PathHasPositiveAlpha(L, q);
      assert Move(L.z, L.blank, p[t - 1], s);
      NonNegativeOfPositive(L.probs);
      AlphaNonNegative(L, s, t - 1);
      if s >= 1 { AlphaNonNegative(L, s - 1, t - 1); }
      if s >= 2 { AlphaNonNegative(L, s - 2, t - 1); }
      var inc, e := Incoming(L, s, t), L.Emit(s, t);
      assert inc > 0.0;
      assert inc * e > 0.0;
    }
  }

  lemma NonNegativeOfPositive(probs: Matrix)
    requires Positive(probs)
    ensures NonNegative(probs)
  {
  }
}
