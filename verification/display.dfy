/**
 * The display names of the extended-sequence states in the printed alpha
 * tables: the blank (spelled "blank" in these scripts) shows as "eps", the
 * space label as "sp", and every other symbol as itself.
 */
module Display {
  import opened ExtendedSequence

  const Blank: string := "blank"

  /** The name of one state; only the blank and the space are renamed. */
  function DisplayName(z: string): (name: string)
    ensures name == "eps" <==> z == Blank || z == "eps"
    ensures name == "sp" <==> z == " " || z == "sp"
    ensures name != z ==> z == Blank || z == " "
  {
    if z == Blank then "eps" else if z == " " then "sp" else z
  }

  /** The append loop that builds Z_display, one name per state. */
  method DisplayNames(zs: seq<string>) returns (names: seq<string>)
    ensures |names| == |zs|
    ensures forall k :: 0 <= k < |zs| ==> names[k] == DisplayName(zs[k])
  {
    names := [];
    for i := 0 to |zs|
      invariant |names| == i
      invariant forall k :: 0 <= k < i ==> names[k] == DisplayName(zs[k])
    {
      if zs[i] == Blank {
        names := names + ["eps"];
      } else if zs[i] == " " {
        names := names + ["sp"];
      } else {
        names := names + [zs[i]];
      }
    }
  }

  /**
   * On an extended sequence the names alternate: "eps" at every even state,
   * and the name of label y[i] at state 2i+1, which is never "eps" when the
   * labels avoid the blank and the name "eps".
   */
  lemma DisplayOfExtended(y: seq<string>, k: nat)
    requires Blank !in y && "eps" !in y
    requires k < 2 * |y| + 1
    ensures var names := seq(2 * |y| + 1, j requires 0 <= j < 2 * |y| + 1 => DisplayName(Extended(y, Blank)[j]));
      (names[k] == "eps" <==> k % 2 == 0)
      && (k % 2 == 1 ==> names[k] == DisplayName(y[k / 2]))
  {
    ExtendedInterleaves(y, Blank);
  }
}
