/**
 * Greedy (best-path) decoding of CTC: the most probable vocabulary entry at
 * every timestep, then the collapse that drops blanks and merges repeats.
 */
module Greedy {
  import opened Emission
  import opened ExtendedSequence

  datatype Option<T> = None | Some(value: T)

  /**
   * The index of the largest entry, the first one among equal maxima, as
   * NumPy's argmax returns it.
   */
  function ArgMax(col: seq<real>): (r: nat)
    requires |col| > 0
    ensures r < |col|
    ensures forall j :: 0 <= j < |col| ==> col[j] <= col[r]
    ensures forall j :: 0 <= j < r ==> col[j] < col[r]
  {
    if |col| == 1 then 0
    else
      var r := ArgMax(col[..|col| - 1]);
      if col[|col| - 1] > col[r] then |col| - 1 else r
  }

  /** The argmax is the only index that is maximal and beats every earlier entry. */
  lemma ArgMaxUnique(col: seq<real>, k: nat)
    requires k < |col|
    requires forall j :: 0 <= j < |col| ==> col[j] <= col[k]
    requires forall j :: 0 <= j < k ==> col[j] < col[k]
    ensures ArgMax(col) == k
  {
  }

  /** The best path: the argmax of every column of the emission matrix. */
  function GreedyIndices(probs: Matrix): (path: seq<nat>)
    requires Rectangular(probs)
    ensures |path| == Steps(probs)
    ensures forall t :: 0 <= t < |path| ==>
      && path[t] < |probs|
      && (forall v :: 0 <= v < |probs| ==> probs[v][t] <= probs[path[t]][t])
      && (forall v :: 0 <= v < path[t] ==> probs[v][t] < probs[path[t]][t])
  {
    seq(Steps(probs), t requires 0 <= t < Steps(probs) => ArgMax(Column(probs, t)))
  }

  /**
   * Row `v` holds the first largest entry of column `t`: no row beats it and
   * every row before it is strictly smaller.
   */
  predicate FirstMaximum(probs: Matrix, t: nat, v: nat)
    requires Rectangular(probs) && t < Steps(probs) && v < |probs|
  {
    && (forall w :: 0 <= w < |probs| ==> probs[w][t] <= probs[v][t])
    && (forall w :: 0 <= w < v ==> probs[w][t] < probs[v][t])
  }

  /** The symbols of the best path, read off the vocabulary. */
  function GreedySymbols<Sym>(probs: Matrix, vocab: seq<Sym>): (path: seq<Sym>)
    requires Rectangular(probs) && |vocab| == |probs|
    ensures |path| == Steps(probs)
    ensures forall t :: 0 <= t < |path| ==>
      path[t] == vocab[GreedyIndices(probs)[t]] && FirstMaximum(probs, t, GreedyIndices(probs)[t])
  {
    var indices := GreedyIndices(probs);
    seq(|indices|, t requires 0 <= t < |indices| => vocab[indices[t]])
  }

  /**
   * Position `i` of a path contributes its symbol to the collapsed output
   * exactly when the symbol is not the blank and differs from the raw symbol
   * just before it (whether or not that one was kept).
   */
  predicate Emits<Sym(==)>(path: seq<Sym>, blank: Sym, i: nat)
    requires i < |path|
  {
    path[i] != blank && (i == 0 || path[i] != path[i - 1])
  }

  /** The collapse of a path, defined by the positions that emit. */
  function Collapse<Sym(==)>(path: seq<Sym>, blank: Sym): (out: seq<Sym>)
    ensures |out| <= |path|
    ensures blank !in out
  {
    if path == [] then []
    else
      var i := |path| - 1;
      Collapse(path[..i], blank) + (if Emits(path, blank, i) then [path[i]] else [])
  }

  /**
   * The scripts' collapse loop: append a symbol when it is not the blank and
   * differs from `prev`, then remember it in `prev` in every case.
   */
  method CollapseLoop<Sym(==)>(path: seq<Sym>, blank: Sym) returns (collapsed: seq<Sym>)
    ensures collapsed == Collapse(path, blank)
  {
    collapsed := [];
    var prev: Option<Sym> := None;
    for i := 0 to |path|
      invariant collapsed == Collapse(path[..i], blank)
      invariant prev == if i == 0 then None else Some(path[i - 1])
    {
      var c := path[i];
      if c != blank && prev != Some(c) {
        collapsed := collapsed + [c];
      }
      prev := Some(c);
      assert path[..i + 1][..i] == path[..i];
    }
    assert path[..|path|] == path;
  }

  /** Collapse only depends on a path through the prefix it has read. */
  lemma {:induction false} CollapseAppend<Sym>(x: seq<Sym>, c: Sym, blank: Sym)
    ensures Collapse(x + [c], blank) ==
      Collapse(x, blank) + (if c != blank && (x == [] || c != x[|x| - 1]) then [c] else [])
  {
    assert (x + [c])[..|x|] == x;
  }

  /** A blank, or a repeat of the raw previous symbol, adds nothing. */
  lemma CollapseSkipsSymbol<Sym>(x: seq<Sym>, c: Sym, blank: Sym)
    requires |x| > 0 && (c == blank || c == x[|x| - 1])
    ensures Collapse(x + [c], blank) == Collapse(x, blank)
  {
    CollapseAppend(x, c, blank);
  }

  /** Any other symbol is appended to the output. */
  lemma CollapseKeepsSymbol<Sym>(x: seq<Sym>, c: Sym, blank: Sym)
    requires c != blank && (x == [] || c != x[|x| - 1])
    ensures Collapse(x + [c], blank) == Collapse(x, blank) + [c]
  {
    CollapseAppend(x, c, blank);
  }

  /** A path with no blank and no two equal neighbours collapses to itself. */
  lemma {:induction false} CollapseIdentity<Sym>(path: seq<Sym>, blank: Sym)
    requires blank !in path
    requires forall i :: 1 <= i < |path| ==> path[i] != path[i - 1]
    ensures Collapse(path, blank) == path
  {
    if path != [] {
      var i := |path| - 1;
      CollapseIdentity(path[..i], blank);
      assert Emits(path, blank, i);
      assert path[..i] + [path[i]] == path;
    }
  }

  /** Equal neighbours merge: repeating the last symbol changes nothing. */
  lemma {:induction false} CollapseRepeat<Sym>(x: seq<Sym>, c: Sym, blank: Sym)
    ensures Collapse(x + [c, c], blank) == Collapse(x + [c], blank)
  {
    var xc := x + [c];
    assert x + [c, c] == xc + [c];
    CollapseAppend(xc, c, blank);
  }

  /**
   * A blank separates: the collapse of x, a blank, then y is the collapse of
   * x followed by the collapse of y.  So a blank between two equal symbols
   * keeps both of them.
   */
  lemma {:induction false} CollapseBlankSeparates<Sym>(x: seq<Sym>, y: seq<Sym>, blank: Sym)
    ensures Collapse(x + [blank] + y, blank) == Collapse(x, blank) + Collapse(y, blank)
    decreases |y|
  {
    if y == [] {
      CollapseAppend(x, blank, blank);
      assert x + [blank] + y == x + [blank];
    } else {
      var i := |y| - 1;
      var c, w, v := y[i], x + [blank] + y[..i], y[..i];
      var last := if i == 0 then blank else y[i - 1];
      CollapseBlankSeparates(x, v, blank);
      SnocAfterSeparator(x, blank, y);
      CollapseAfter(w, c, blank, last);
      CollapseAfter(v, c, blank, last);
      AppendAssoc(Collapse(x, blank), Collapse(v, blank), if c != blank && c != last then [c] else []);
    }
  }

  /** Concatenation is associative. */
  lemma AppendAssoc<T>(a: seq<T>, b: seq<T>, c: seq<T>)
    ensures a + b + c == a + (b + c)
  {
  }

  /** x + [b] + y, split before the last element of y, which is not empty. */
  lemma SnocAfterSeparator<T>(x: seq<T>, b: T, y: seq<T>)
    requires y != []
    ensures x + [b] + y == (x + [b] + y[..|y| - 1]) + [y[|y| - 1]]
    ensures y == y[..|y| - 1] + [y[|y| - 1]]
  {
    var i := |y| - 1;
    assert y == y[..i] + [y[i]];
    assert x + [b] + y == (x + [b] + y[..i]) + [y[i]];
  }

  /**
   * Appending c after a raw symbol `last` (the blank standing in for "nothing
   * before") adds c exactly when c is neither the blank nor `last`.
   */
  lemma CollapseAfter<Sym>(x: seq<Sym>, c: Sym, blank: Sym, last: Sym)
    requires if x == [] then last == blank else x[|x| - 1] == last
    ensures Collapse(x + [c], blank) ==
      Collapse(x, blank) + (if c != blank && c != last then [c] else [])
  {
    CollapseAppend(x, c, blank);
  }

  /** A blank followed by a label collapses to the label. */
  lemma CollapseBlankLabel<Sym>(blank: Sym, a: Sym)
    requires a != blank
    ensures Collapse([blank, a], blank) == [a]
  {
    CollapseAppend([], blank, blank);
    CollapseAppend([blank], a, blank);
    assert [blank, a] == [blank] + [a];
    assert [blank] == [] + [blank];
  }

  /** The extension of any label sequence is a blank followed by the rest. */
  lemma ExtendedHead<Sym>(y: seq<Sym>, blank: Sym)
    ensures Extended(y, blank) == [] + [blank] + Extended(y, blank)[1..]
  {
    SplitHead([], Extended(y, blank));
  }

  /** Z = [blank, y0] + [blank] + W, where [blank] + W is the extension of y[1..]. */
  lemma ExtendedSplit<Sym>(y: seq<Sym>, blank: Sym)
    requires y != []
    ensures Extended(y, blank) == [blank, y[0]] + [blank] + Extended(y[1..], blank)[1..]
  {
    var rest := Extended(y[1..], blank);
    assert Extended(y, blank) == [blank, y[0]] + rest;
    SplitHead([blank, y[0]], rest);
  }

  /** Splitting off the head of the second operand of a concatenation. */
  lemma SplitHead<T>(a: seq<T>, r: seq<T>)
    requires |r| > 0
    ensures a + r == a + [r[0]] + r[1..]
  {
    assert r == [r[0]] + r[1..];
  }

  /**
   * Reading the extended sequence itself as a path gives back the labels:
   * its blanks separate every pair of neighbouring labels, equal or not.
   */
  lemma {:induction false} CollapseExtended<Sym>(y: seq<Sym>, blank: Sym)
    requires blank !in y
    ensures Collapse(Extended(y, blank), blank) == y
  {
    if y != [] {
      ExtendedHead(y[1..], blank);
      ExtendedSplit(y, blank);
      var w := Extended(y[1..], blank)[1..];
      CollapseExtended(y[1..], blank);
      CollapseBlankSeparates([], w, blank);
      CollapseBlankSeparates([blank, y[0]], w, blank);
      CollapseBlankLabel(blank, y[0]);
      assert y == [y[0]] + y[1..];
    }
  }
}
