/**
 * The extended state sequence Z of CTC: the label sequence Y with a blank
 * before every label and one more at the end,
 *   Z = [blank, Y[0], blank, Y[1], ..., blank, Y[L-1], blank].
 */
module ExtendedSequence {
  /** Z as a recursive definition: the reference for the append loops below. */
  function Extended<Sym>(y: seq<Sym>, blank: Sym): (z: seq<Sym>)
    ensures |z| == 2 * |y| + 1
    ensures z[0] == blank
  {
    if y == [] then [blank] else [blank, y[0]] + Extended(y[1..], blank)
  }

  /** Position-wise description of Z: blanks at even positions, `y[i]` at `2i+1`. */
  predicate Interleaves<Sym(==)>(z: seq<Sym>, y: seq<Sym>, blank: Sym) {
    && |z| == 2 * |y| + 1
    && forall k :: 0 <= k < |z| ==> z[k] == if k % 2 == 0 then blank else y[k / 2]
  }

  /** The recursive definition has the position-wise shape. */
  lemma {:induction false} ExtendedInterleaves<Sym>(y: seq<Sym>, blank: Sym)
    ensures Interleaves(Extended(y, blank), y, blank)
  {
    if y != [] {
      ExtendedInterleaves(y[1..], blank);
      var z, rest := Extended(y, blank), Extended(y[1..], blank);
      forall k | 0 <= k < |z|
        ensures z[k] == if k % 2 == 0 then blank else y[k / 2]
      {
        if k >= 2 {
          assert z[k] == rest[k - 2];
        }
      }
    }
  }

  /** The shape read at one position: the blank at 2k, label k at 2k+1. */
  lemma InterleavesAt<Sym>(z: seq<Sym>, y: seq<Sym>, blank: Sym, k: nat)
    requires Interleaves(z, y, blank) && k <= |y|
    ensures z[2 * k] == blank
    ensures k < |y| ==> z[2 * k + 1] == y[k]
  {
    assert (2 * k) % 2 == 0;
    if k < |y| {
      assert (2 * k + 1) % 2 == 1 && (2 * k + 1) / 2 == k;
    }
  }

  /** Z holds the blank at every even position 2k and label k at position 2k+1. */
  lemma ExtendedAt<Sym>(y: seq<Sym>, blank: Sym, k: nat)
    requires k <= |y|
    ensures Extended(y, blank)[2 * k] == blank
    ensures k < |y| ==> Extended(y, blank)[2 * k + 1] == y[k]
  {
    ExtendedInterleaves(y, blank);
    InterleavesAt(Extended(y, blank), y, blank, k);
  }

  /** Only Extended(y, blank) has that shape. */
  lemma InterleavesUnique<Sym>(z: seq<Sym>, y: seq<Sym>, blank: Sym)
    requires Interleaves(z, y, blank)
    ensures z == Extended(y, blank)
  {
    ExtendedInterleaves(y, blank);
  }

  /**
   * When the blank does not occur among the labels, Z alternates blank and
   * non-blank, and it starts and ends with the blank.
   */
  lemma ExtendedAlternates<Sym>(y: seq<Sym>, blank: Sym)
    requires blank !in y
    ensures var z := Extended(y, blank);
      && z[0] == blank && z[|z| - 1] == blank
      && forall k :: 0 <= k < |z| ==> (z[k] == blank <==> k % 2 == 0)
  {
    ExtendedInterleaves(y, blank);
    var z := Extended(y, blank);
    forall k | 0 <= k < |z| && k % 2 == 1
      ensures z[k] != blank
    {
      assert z[k] == y[k / 2];
    }
  }

  /**
   * The append loop of the scripts: for every label append the blank and
   * the label, then append a final blank.
   */
  method BuildExtended<Sym>(y: seq<Sym>, blank: Sym) returns (z: seq<Sym>)
    ensures Interleaves(z, y, blank)
    ensures z == Extended(y, blank)
  {
    z := [];
    for i := 0 to |y|
      invariant |z| == 2 * i
      invariant forall k :: 0 <= k < |z| ==> z[k] == if k % 2 == 0 then blank else y[k / 2]
    {
      z := z + [blank];
      z := z + [y[i]];
    }
    z := z + [blank];
    InterleavesUnique(z, y, blank);
  }

  /**
   * The variant of the loop with a separate branch for the space label; the
   * branch appends the very same label, so the result is the same Z.
   */
  method BuildExtendedWithSpaceBranch(y: seq<string>, blank: string) returns (z: seq<string>)
    ensures Interleaves(z, y, blank)
    ensures z == Extended(y, blank)
  {
    z := [];
    for i := 0 to |y|
      invariant |z| == 2 * i
      invariant forall k :: 0 <= k < |z| ==> z[k] == if k % 2 == 0 then blank else y[k / 2]
    {
      z := z + [blank];
      if y[i] == " " {
        z := z + [" "];
      } else {
        z := z + [y[i]];
      }
    }
    z := z + [blank];
    InterleavesUnique(z, y, blank);
  }
}
