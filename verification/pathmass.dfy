/**
 * What the forward variables add up.  `AllSeqs(n, len)` lists every sequence
 * of `len` states below `n` exactly once, independently of the recursion; the
 * path mass of state `s` at timestep `t` sums, over that listing, the product
 * of the emissions along each legal path of t + 1 states that ends in `s`.
 * The forward variable is proved equal to it, and P(Y|X) to the mass of all
 * paths of T states whose symbols collapse to Y.
 */
module PathMass {
  import opened Emission
  import opened ExtendedSequence
  import opened Forward
  import opened Greedy
  import opened Paths

  /** At most T states, each a state of the extended sequence. */
  predicate InLattice<Sym>(L: Lattice<Sym>, q: seq<nat>)
    requires L.Valid()
  {
    |q| <= L.T() && forall i :: 0 <= i < |q| ==> q[i] < |L.z|
  }

  /** The probability of a path: the product of the emissions along it. */
  function Mass<Sym>(L: Lattice<Sym>, q: seq<nat>): real
    requires L.Valid() && InLattice(L, q)
  {
    if q == [] then 1.0 else Mass(L, q[..|q| - 1]) * L.Emit(q[|q| - 1], |q| - 1)
  }

  /** `IsPath`, checked one move at a time from the end. */
  predicate Legal<Sym(==)>(z: seq<Sym>, blank: Sym, q: seq<nat>)
    ensures Legal(z, blank, q) ==> |q| >= 1 && forall i :: 0 <= i < |q| ==> q[i] < |z|
  {
    if |q| <= 1 then
      |q| == 1 && q[0] <= 1 && q[0] < |z|
    else
      Legal(z, blank, q[..|q| - 1]) && q[|q| - 1] < |z| && Move(z, blank, q[|q| - 2], q[|q| - 1])
  }

  /** The two formulations of a legal path agree. */
  lemma {:induction false} LegalIsPath<Sym>(z: seq<Sym>, blank: Sym, q: seq<nat>)
    ensures Legal(z, blank, q) <==> IsPath(z, blank, q)
  {
    if |q| > 1 {
      var front, last := q[..|q| - 1], q[|q| - 1];
      LegalIsPath(z, blank, front);
      assert q == front + [last];
      if IsPath(z, blank, q) {
        PathPrefix(z, blank, q);
      }
      if IsPath(z, blank, front) && last < |z| && Move(z, blank, q[|q| - 2], last) {
        ExtendPath(z, blank, front, last);
      }
    }
  }

  /** The mass of `q` when it is a legal path ending in state `s`, and 0 otherwise. */
  function Weight<Sym>(L: Lattice<Sym>, s: nat, q: seq<nat>): real
    requires L.Valid()
  {
    if Legal(L.z, L.blank, q) && |q| <= L.T() && q[|q| - 1] == s then Mass(L, q) else 0.0
  }

  /** The total weight of a list of sequences. */
  function SumWeight<Sym>(L: Lattice<Sym>, s: nat, qs: seq<seq<nat>>): real
    requires L.Valid()
  {
    if qs == [] then 0.0 else SumWeight(L, s, qs[..|qs| - 1]) + Weight(L, s, qs[|qs| - 1])
  }

  /** The sequences q + [v] for v = 0, ..., m - 1. */
  function Extensions(q: seq<nat>, m: nat): (qs: seq<seq<nat>>)
    ensures |qs| == m
    ensures forall i :: 0 <= i < m ==> qs[i] == q + [i]
  {
    if m == 0 then [] else Extensions(q, m - 1) + [q + [m - 1]]
  }

  /** Every sequence of `qs` extended by every state below `n`. */
  function ExtendAll(qs: seq<seq<nat>>, n: nat): seq<seq<nat>>
  {
    if qs == [] then [] else ExtendAll(qs[..|qs| - 1], n) + Extensions(qs[|qs| - 1], n)
  }

  /** All sequences of `len` states below `n`, in lexicographic order. */
  function AllSeqs(n: nat, len: nat): seq<seq<nat>>
  {
    if len == 0 then [[]] else ExtendAll(AllSeqs(n, len - 1), n)
  }

  /** The total mass of the legal paths of t + 1 states that end in state `s`. */
  function PathMass<Sym>(L: Lattice<Sym>, s: nat, t: nat): real
    requires L.Valid()
  {
    SumWeight(L, s, AllSeqs(|L.z|, t + 1))
  }

  /** No element occurs twice. */
  predicate Distinct<T(==)>(xs: seq<T>) {
    forall i, j :: 0 <= i < j < |xs| ==> xs[i] != xs[j]
  }

  /** Every state of `q` is below `n`. */
  predicate AllBelow(q: seq<nat>, n: nat) {
    forall i :: 0 <= i < |q| ==> q[i] < n
  }

  /** The listing holds exactly the sequences of `len` states below `n`. */
  lemma AllSeqsMembers(n: nat, len: nat)
    ensures forall q :: q in AllSeqs(n, len) <==> |q| == len && AllBelow(q, n)
  {
    forall q: seq<nat>
      ensures q in AllSeqs(n, len) <==> |q| == len && AllBelow(q, n)
    {
      AllSeqsMember(n, len, q);
    }
  }

  lemma {:induction false} AllSeqsMember(n: nat, len: nat, q: seq<nat>)
    ensures q in AllSeqs(n, len) <==> |q| == len && AllBelow(q, n)
  {
    if len == 0 {
      assert q in AllSeqs(n, 0) <==> q == [];
    } else {
      ExtendAllMember(AllSeqs(n, len - 1), n, q);
      if |q| >= 1 {
        var front := q[..|q| - 1];
        AllSeqsMember(n, len - 1, front);
        BelowFront(q, n);
      }
    }
  }

  /** All states are below n exactly when those before the last are and the last is. */
  lemma BelowFront(q: seq<nat>, n: nat)
    requires |q| >= 1
    ensures AllBelow(q, n) <==> AllBelow(q[..|q| - 1], n) && q[|q| - 1] < n
  {
    var front := q[..|q| - 1];
    assert forall i :: 0 <= i < |front| ==> front[i] == q[i];
  }

  /** A sequence is listed by ExtendAll exactly when its last state is below n and the rest is in qs. */
  lemma {:induction false} ExtendAllMember(qs: seq<seq<nat>>, n: nat, x: seq<nat>)
    ensures x in ExtendAll(qs, n) <==> |x| >= 1 && x[..|x| - 1] in qs && x[|x| - 1] < n
  {
    if qs != [] {
      var rest, q := qs[..|qs| - 1], qs[|qs| - 1];
      ExtendAllMember(rest, n, x);
      ExtensionsMember(q, n, x);
      assert qs == rest + [q];
    }
  }

  /** A sequence is among the extensions of q exactly when it is q and one more state below m. */
  lemma ExtensionsMember(q: seq<nat>, m: nat, x: seq<nat>)
    ensures x in Extensions(q, m) <==> |x| >= 1 && x[..|x| - 1] == q && x[|x| - 1] < m
  {
    if |x| >= 1 && x[..|x| - 1] == q && x[|x| - 1] < m {
      assert x == q + [x[|x| - 1]];
      assert Extensions(q, m)[x[|x| - 1]] == x;
    }
    if x in Extensions(q, m) {
      var i :| 0 <= i < m && Extensions(q, m)[i] == x;
      assert x == q + [i];
      assert x[..|x| - 1] == q;
    }
  }

  /** The listing lists no sequence twice. */
  lemma {:induction false} AllSeqsDistinct(n: nat, len: nat)
    ensures Distinct(AllSeqs(n, len))
  {
    if len > 0 {
      AllSeqsDistinct(n, len - 1);
      ExtendAllDistinct(AllSeqs(n, len - 1), n);
    }
  }

  /** Extending distinct sequences gives distinct sequences. */
  lemma {:induction false} ExtendAllDistinct(qs: seq<seq<nat>>, n: nat)
    requires Distinct(qs)
    ensures Distinct(ExtendAll(qs, n))
  {
    if qs != [] {
      var rest, q := qs[..|qs| - 1], qs[|qs| - 1];
      ExtendAllDistinct(rest, n);
      var a, b := ExtendAll(rest, n), Extensions(q, n);
      assert q !in rest;
      forall x | x in b
        ensures x !in a
      {
        ExtensionsMember(q, n, x);
        ExtendAllMember(rest, n, x);
      }
      forall i, j | 0 <= i < j < n
        ensures b[i] != b[j]
      {
        assert b[i][|q|] != b[j][|q|];
      }
      DistinctConcat(a, b);
    }
  }

  /** Two distinct lists with no element in common concatenate to a distinct list. */
  lemma DistinctConcat<T>(a: seq<T>, b: seq<T>)
    requires Distinct(a) && Distinct(b)
    requires forall x :: x in b ==> x !in a
    ensures Distinct(a + b)
  {
    forall i, j | 0 <= i < j < |a + b|
      ensures (a + b)[i] != (a + b)[j]
    {
      if j >= |a| && i < |a| {
        assert b[j - |a|] in b;
        assert (a + b)[i] in a;
      }
    }
  }

  /** Every listed sequence has `len` states. */
  lemma AllSeqsLength(n: nat, len: nat)
    ensures Lengths(AllSeqs(n, len), len)
  {
    var qs := AllSeqs(n, len);
    forall i | 0 <= i < |qs|
      ensures |qs[i]| == len
    {
      AllSeqsMember(n, len, qs[i]);
    }
  }

  /** Summing a concatenation. */
  lemma {:induction false} SumWeightConcat<Sym>(L: Lattice<Sym>, s: nat, a: seq<seq<nat>>, b: seq<seq<nat>>)
    requires L.Valid()
    ensures SumWeight(L, s, a + b) == SumWeight(L, s, a) + SumWeight(L, s, b)
    decreases |b|
  {
    if b == [] {
      assert a + b == a;
    } else {
      var b', x := b[..|b| - 1], b[|b| - 1];
      SumWeightConcat(L, s, a, b');
      assert (a + b)[..|a + b| - 1] == a + b';
    }
  }

  /** Of the extensions q + [v], only q + [s] can end in state s. */
  lemma {:induction false} ExtensionsWeight<Sym>(L: Lattice<Sym>, s: nat, q: seq<nat>, m: nat)
    requires L.Valid()
    ensures SumWeight(L, s, Extensions(q, m)) == if s < m then Weight(L, s, q + [s]) else 0.0
  {
    if m > 0 {
      ExtensionsWeight(L, s, q, m - 1);
      var e := Extensions(q, m);
      assert e[..m - 1] == Extensions(q, m - 1);
      assert (q + [m - 1])[|q|] == m - 1;
    }
  }

  /**
   * The weight that a path of t states passes on to state s: its weight as a
   * path ending in a predecessor of s, with the same cases as the recursion.
   */
  function Into<Sym>(L: Lattice<Sym>, s: nat, q: seq<nat>): real
    requires L.Valid() && s < |L.z|
  {
    if s == 0 then
      Weight(L, 0, q)
    else if s == 1 then
      Weight(L, 0, q) + Weight(L, 1, q)
    else if !SkipAllowed(L.z, L.blank, s) then
      Weight(L, s - 1, q) + Weight(L, s, q)
    else
      Weight(L, s - 2, q) + Weight(L, s - 1, q) + Weight(L, s, q)
  }

  /** The same combination of total weights. */
  function IntoAll<Sym>(L: Lattice<Sym>, s: nat, qs: seq<seq<nat>>): real
    requires L.Valid() && s < |L.z|
  {
    if s == 0 then
      SumWeight(L, 0, qs)
    else if s == 1 then
      SumWeight(L, 0, qs) + SumWeight(L, 1, qs)
    else if !SkipAllowed(L.z, L.blank, s) then
      SumWeight(L, s - 1, qs) + SumWeight(L, s, qs)
    else
      SumWeight(L, s - 2, qs) + SumWeight(L, s - 1, qs) + SumWeight(L, s, qs)
  }

  /** One legal move more: q + [s] weighs the emission of s times what q passes on to s. */
  lemma WeightStep<Sym>(L: Lattice<Sym>, s: nat, t: nat, q: seq<nat>)
    requires L.Valid() && s < |L.z| && 1 <= t < L.T() && |q| == t
    ensures Weight(L, s, q + [s]) == Scale(L.Emit(s, t), Into(L, s, q))
  {
    var p := q + [s];
    assert p[..t] == q && p[t - 1] == q[t - 1] && p[t] == s;
    if Legal(L.z, L.blank, p) {
      assert Mass(L, p) == Mass(L, q) * L.Emit(s, t);
    }
  }

  /** e times x, as a named product. */
  function Scale(e: real, x: real): real
  {
    e * x
  }

  /** Every sequence of `qs` has `len` states. */
  predicate Lengths(qs: seq<seq<nat>>, len: nat) {
    forall i :: 0 <= i < |qs| ==> |qs[i]| == len
  }

  /** The sum of a list of reals. */
  function Total(xs: seq<real>): real
  {
    if xs == [] then 0.0 else Total(xs[..|xs| - 1]) + xs[|xs| - 1]
  }

  /** The weights of the sequences of `qs`, each extended by state s. */
  function Nexts<Sym>(L: Lattice<Sym>, s: nat, qs: seq<seq<nat>>): (ws: seq<real>)
    requires L.Valid()
    ensures |ws| == |qs|
  {
    seq(|qs|, i requires 0 <= i < |qs| => Weight(L, s, qs[i] + [s]))
  }

  /** What each sequence of `qs` passes on to state s. */
  function Intos<Sym>(L: Lattice<Sym>, s: nat, qs: seq<seq<nat>>): (ws: seq<real>)
    requires L.Valid() && s < |L.z|
    ensures |ws| == |qs|
  {
    seq(|qs|, i requires 0 <= i < |qs| => Into(L, s, qs[i]))
  }

  /** Of all one-state extensions of `qs`, only those by state s can end in s. */
  lemma {:induction false} ExtendAllWeight<Sym>(L: Lattice<Sym>, s: nat, qs: seq<seq<nat>>)
    requires L.Valid() && s < |L.z|
    ensures SumWeight(L, s, ExtendAll(qs, |L.z|)) == Total(Nexts(L, s, qs))
  {
    var n := |L.z|;
    if qs != [] {
      var rest, q := qs[..|qs| - 1], qs[|qs| - 1];
      ExtendAllWeight(L, s, rest);
      SumWeightConcat(L, s, ExtendAll(rest, n), Extensions(q, n));
      ExtensionsWeight(L, s, q, n);
      NextsPrefix(L, s, qs);
    }
  }

  /** The weights of all but the last sequence are the first weights. */
  lemma NextsPrefix<Sym>(L: Lattice<Sym>, s: nat, qs: seq<seq<nat>>)
    requires L.Valid() && qs != []
    ensures Nexts(L, s, qs)[..|qs| - 1] == Nexts(L, s, qs[..|qs| - 1])
  {
  }

  /** The same for what each sequence passes on. */
  lemma IntosPrefix<Sym>(L: Lattice<Sym>, s: nat, qs: seq<seq<nat>>)
    requires L.Valid() && s < |L.z| && qs != []
    ensures Intos(L, s, qs)[..|qs| - 1] == Intos(L, s, qs[..|qs| - 1])
  {
  }

  /** The combination of totals is the total of the combinations. */
  lemma {:induction false} IntoAllTotal<Sym>(L: Lattice<Sym>, s: nat, qs: seq<seq<nat>>)
    requires L.Valid() && s < |L.z|
    ensures IntoAll(L, s, qs) == Total(Intos(L, s, qs))
  {
    if qs == [] {
      IntoAllEmpty(L, s);
    } else {
      var rest, q := qs[..|qs| - 1], qs[|qs| - 1];
      IntoAllTotal(L, s, rest);
      assert qs == rest + [q];
      IntoAllSnoc(L, s, rest, q);
      IntosPrefix(L, s, qs);
    }
  }

  /** Each term of `xs` is the matching term of `ys` scaled by e. */
  predicate ScaledBy(xs: seq<real>, ys: seq<real>, e: real) {
    |xs| == |ys| && forall i :: 0 <= i < |xs| ==> xs[i] == Scale(e, ys[i])
  }

  /** Scaling every term scales the sum. */
  lemma {:induction false} TotalScaled(xs: seq<real>, ys: seq<real>, e: real)
    requires ScaledBy(xs, ys, e)
    ensures Total(xs) == Scale(e, Total(ys))
  {
    if xs != [] {
      var n := |xs| - 1;
      assert ScaledBy(xs[..n], ys[..n], e);
      TotalScaled(xs[..n], ys[..n], e);
      Distribute(e, Total(xs[..n]), xs[n], Total(ys[..n]), ys[n], Total(ys));
    }
  }

  /** Over a list of sequences of t states, the step scales by the emission of s. */
  lemma StepSum<Sym>(L: Lattice<Sym>, s: nat, t: nat, qs: seq<seq<nat>>)
    requires L.Valid() && s < |L.z| && 1 <= t < L.T()
    requires Lengths(qs, t)
    ensures Total(Nexts(L, s, qs)) == Scale(L.Emit(s, t), Total(Intos(L, s, qs)))
  {
    StepEach(L, s, t, qs);
    TotalScaled(Nexts(L, s, qs), Intos(L, s, qs), L.Emit(s, t));
  }

  /** Every sequence of `qs` on its own. */
  lemma StepEach<Sym>(L: Lattice<Sym>, s: nat, t: nat, qs: seq<seq<nat>>)
    requires L.Valid() && s < |L.z| && 1 <= t < L.T()
    requires Lengths(qs, t)
    ensures ScaledBy(Nexts(L, s, qs), Intos(L, s, qs), L.Emit(s, t))
  {
    var xs, ys := Nexts(L, s, qs), Intos(L, s, qs);
    forall i | 0 <= i < |qs|
      ensures xs[i] == Scale(L.Emit(s, t), ys[i])
    {
      WeightStep(L, s, t, qs[i]);
    }
  }

  /** Summing one more sequence. */
  lemma SumWeightSnoc<Sym>(L: Lattice<Sym>, s: nat, rest: seq<seq<nat>>, q: seq<nat>)
    requires L.Valid()
    ensures SumWeight(L, s, rest + [q]) == SumWeight(L, s, rest) + Weight(L, s, q)
  {
    assert (rest + [q])[..|rest|] == rest;
  }

  /** Over no sequences the combination is 0. */
  lemma IntoAllEmpty<Sym>(L: Lattice<Sym>, s: nat)
    requires L.Valid() && s < |L.z|
    ensures IntoAll(L, s, []) == 0.0
  {
  }

  /** The combination of totals grows by the combination of weights. */
  lemma IntoAllSnoc<Sym>(L: Lattice<Sym>, s: nat, rest: seq<seq<nat>>, q: seq<nat>)
    requires L.Valid() && s < |L.z|
    ensures IntoAll(L, s, rest + [q]) == IntoAll(L, s, rest) + Into(L, s, q)
  {
    SumWeightSnoc(L, s, rest, q);
    if s >= 1 {
      SumWeightSnoc(L, s - 1, rest, q);
    }
    if s >= 2 {
      SumWeightSnoc(L, s - 2, rest, q);
    }
    SumWeightSnoc(L, 0, rest, q);
  }

  /** Two scaled terms add up to the scaled sum. */
  lemma Distribute(e: real, a: real, b: real, x: real, y: real, z: real)
    requires a == Scale(e, x) && b == Scale(e, y) && z == x + y
    ensures a + b == Scale(e, z)
  {
  }

  /**
   * The forward variable is the path mass: alpha[s, t] is the total
   * probability of the legal paths of t + 1 states that end in state s.
   */
  lemma {:induction false} AlphaIsPathMass<Sym>(L: Lattice<Sym>, s: nat, t: nat)
    requires L.Valid() && s < |L.z| && t < L.T()
    ensures Alpha(L, s, t) == PathMass(L, s, t)
    decreases t, 1
  {
    if t == 0 {
      PathMassStart(L, s);
    } else {
      var qs := AllSeqs(|L.z|, t);
      var c := Total(Intos(L, s, qs));
      PathMassStep(L, s, t, qs);
      if s == 0 {
        FirstStateFromBelow(L, t, c);
      } else if s == 1 {
        SecondStateFromBelow(L, t, c);
      } else if !SkipAllowed(L.z, L.blank, s) {
        NoSkipFromBelow(L, s, t, c);
      } else {
        SkipFromBelow(L, s, t, c);
      }
    }
  }

  /** A path of one state is legal when it starts in state 0 or 1. */
  lemma PathMassStart<Sym>(L: Lattice<Sym>, s: nat)
    requires L.Valid() && s < |L.z|
    ensures PathMass(L, s, 0) == if s <= 1 then L.Emit(s, 0) else 0.0
  {
    AllSeqsOne(|L.z|);
    ExtensionsWeight(L, s, [], |L.z|);
    WeightSingle(L, s);
  }

  /** The listing of len + 1 states extends that of len states. */
  lemma AllSeqsNext(n: nat, len: nat)
    ensures AllSeqs(n, len + 1) == ExtendAll(AllSeqs(n, len), n)
  {
  }

  /** The sequences of one state are [0], ..., [n - 1]. */
  lemma AllSeqsOne(n: nat)
    ensures AllSeqs(n, 1) == Extensions([], n)
  {
    var one: seq<seq<nat>> := [[]];
    assert one[..0] == [];
    assert AllSeqs(n, 1) == ExtendAll(one, n);
  }

  /** The one-state path [s] weighs the first emission of s when s is 0 or 1. */
  lemma WeightSingle<Sym>(L: Lattice<Sym>, s: nat)
    requires L.Valid() && s < |L.z|
    ensures Weight(L, s, [] + [s]) == if s <= 1 then L.Emit(s, 0) else 0.0
  {
    var p := [] + [s];
    assert |p| == 1 && p[0] == s && p[..0] == [];
    assert Mass(L, p) == Mass(L, []) * L.Emit(s, 0);
  }

  /**
   * The path mass of s at t > 0 is the emission of s times the same
   * combination of path masses at t - 1 as the recursion takes.
   */
  lemma PathMassStep<Sym>(L: Lattice<Sym>, s: nat, t: nat, qs: seq<seq<nat>>)
    requires L.Valid() && s < |L.z| && 1 <= t < L.T()
    requires qs == AllSeqs(|L.z|, t)
    ensures PathMass(L, s, t) == Scale(L.Emit(s, t), Total(Intos(L, s, qs)))
    ensures Total(Intos(L, s, qs)) == IntoAll(L, s, qs)
  {
    AllSeqsNext(|L.z|, t);
    ExtendAllWeight(L, s, qs);
    AllSeqsLength(|L.z|, t);
    StepSum(L, s, t, qs);
    IntoAllTotal(L, s, qs);
  }

  /** The path mass at t - 1 sums over the listing of t states. */
  lemma PathMassBelow<Sym>(L: Lattice<Sym>, r: nat, t: nat, u: nat, qs: seq<seq<nat>>)
    requires L.Valid() && u == t - 1 && 1 <= t && qs == AllSeqs(|L.z|, t)
    ensures PathMass(L, r, u) == SumWeight(L, r, qs)
  {
    AllSeqsShift(|L.z|, t, u);
  }

  /** The listing of u + 1 states is the listing of t states when u = t - 1. */
  lemma AllSeqsShift(n: nat, t: nat, u: nat)
    requires u == t - 1 && 1 <= t
    ensures AllSeqs(n, u + 1) == AllSeqs(n, t)
  {
  }

  /**
   * The recursion at t > 0 for state 0, with the forward variable at t - 1
   * replaced by the path mass there (the induction hypothesis).
   */
  lemma {:induction false} FirstStateFromBelow<Sym>(L: Lattice<Sym>, t: nat, c: real)
    requires L.Valid() && 1 <= t < L.T()
    requires c == IntoAll(L, 0, AllSeqs(|L.z|, t))
    ensures Alpha(L, 0, t) == Scale(L.Emit(0, t), c)
    decreases t, 0
  {
    var u := t - 1;
    AlphaIsPathMass(L, 0, u);
    FirstStateMasses(L, t, u, c);
    FirstStateScaled(L, t, u, PathMass(L, 0, u), c);
  }

  /** The same for state 1. */
  lemma {:induction false} SecondStateFromBelow<Sym>(L: Lattice<Sym>, t: nat, c: real)
    requires L.Valid() && 1 <= t < L.T()
    requires c == IntoAll(L, 1, AllSeqs(|L.z|, t))
    ensures Alpha(L, 1, t) == Scale(L.Emit(1, t), c)
    decreases t, 0
  {
    var u := t - 1;
    AlphaIsPathMass(L, 0, u);
    AlphaIsPathMass(L, 1, u);
    SecondStateMasses(L, t, u, c);
    SecondStateScaled(L, t, u, PathMass(L, 0, u), PathMass(L, 1, u), c);
  }

  /** The same for a state s >= 2 that may not skip. */
  lemma {:induction false} NoSkipFromBelow<Sym>(L: Lattice<Sym>, s: nat, t: nat, c: real)
    requires L.Valid() && 2 <= s < |L.z| && 1 <= t < L.T()
    requires !SkipAllowed(L.z, L.blank, s)
    requires c == IntoAll(L, s, AllSeqs(|L.z|, t))
    ensures Alpha(L, s, t) == Scale(L.Emit(s, t), c)
    decreases t, 0
  {
    var u := t - 1;
    AlphaIsPathMass(L, s - 1, u);
    AlphaIsPathMass(L, s, u);
    NoSkipMasses(L, s, t, u, c);
    NoSkipScaled(L, s, t, u, PathMass(L, s - 1, u), PathMass(L, s, u), c);
  }

  /** The same for a state s >= 2 that may skip. */
  lemma {:induction false} SkipFromBelow<Sym>(L: Lattice<Sym>, s: nat, t: nat, c: real)
    requires L.Valid() && 2 <= s < |L.z| && 1 <= t < L.T()
    requires SkipAllowed(L.z, L.blank, s)
    requires c == IntoAll(L, s, AllSeqs(|L.z|, t))
    ensures Alpha(L, s, t) == Scale(L.Emit(s, t), c)
    decreases t, 0
  {
    var u := t - 1;
    AlphaIsPathMass(L, s - 2, u);
    AlphaIsPathMass(L, s - 1, u);
    AlphaIsPathMass(L, s, u);
    SkipMasses(L, s, t, u, c);
    SkipScaled(L, s, t, u, PathMass(L, s - 2, u), PathMass(L, s - 1, u), PathMass(L, s, u), c);
  }

  /** What the paths of t states pass on to state 0: the path mass of state 0 at t - 1. */
  lemma FirstStateMasses<Sym>(L: Lattice<Sym>, t: nat, u: nat, c: real)
    requires L.Valid() && 1 <= t < L.T() && u == t - 1
    requires c == IntoAll(L, 0, AllSeqs(|L.z|, t))
    ensures c == PathMass(L, 0, u)
  {
    var qs := AllSeqs(|L.z|, t);
    PathMassBelow(L, 0, t, u, qs);
  }

  /** What the paths of t states pass on to state 1. */
  lemma SecondStateMasses<Sym>(L: Lattice<Sym>, t: nat, u: nat, c: real)
    requires L.Valid() && 1 <= t < L.T() && u == t - 1
    requires c == IntoAll(L, 1, AllSeqs(|L.z|, t))
    ensures c == PathMass(L, 0, u) + PathMass(L, 1, u)
  {
    var qs := AllSeqs(|L.z|, t);
    PathMassBelow(L, 0, t, u, qs);
    PathMassBelow(L, 1, t, u, qs);
  }

  /** What the paths of t states pass on to a state s >= 2 that may not skip. */
  lemma NoSkipMasses<Sym>(L: Lattice<Sym>, s: nat, t: nat, u: nat, c: real)
    requires L.Valid() && 2 <= s < |L.z| && 1 <= t < L.T() && u == t - 1
    requires !SkipAllowed(L.z, L.blank, s)
    requires c == IntoAll(L, s, AllSeqs(|L.z|, t))
    ensures c == PathMass(L, s - 1, u) + PathMass(L, s, u)
  {
    var qs := AllSeqs(|L.z|, t);
    PathMassBelow(L, s - 1, t, u, qs);
    PathMassBelow(L, s, t, u, qs);
  }

  /** What the paths of t states pass on to a state s >= 2 that may skip. */
  lemma SkipMasses<Sym>(L: Lattice<Sym>, s: nat, t: nat, u: nat, c: real)
    requires L.Valid() && 2 <= s < |L.z| && 1 <= t < L.T() && u == t - 1
    requires SkipAllowed(L.z, L.blank, s)
    requires c == IntoAll(L, s, AllSeqs(|L.z|, t))
    ensures c == PathMass(L, s - 2, u) + PathMass(L, s - 1, u) + PathMass(L, s, u)
  {
    var qs := AllSeqs(|L.z|, t);
    PathMassBelow(L, s - 2, t, u, qs);
    PathMassBelow(L, s - 1, t, u, qs);
    PathMassBelow(L, s, t, u, qs);
  }

  /** `StepFirstState` with the emission as the scaling factor. */
  lemma FirstStateScaled<Sym>(L: Lattice<Sym>, t: nat, u: nat, a: real, c: real)
    requires L.Valid() && 1 <= t < L.T() && u == t - 1
    requires Alpha(L, 0, u) == a && c == a
    ensures Alpha(L, 0, t) == Scale(L.Emit(0, t), c)
  {
    var e := L.Emit(0, t);
    StepFirstState(L, t, a, e);
    ScaleSwap(Alpha(L, 0, t), a, c, e);
  }

  /** `StepSecondState` with the emission as the scaling factor. */
  lemma SecondStateScaled<Sym>(L: Lattice<Sym>, t: nat, u: nat, a: real, b: real, c: real)
    requires L.Valid() && 1 <= t < L.T() && u == t - 1
    requires Alpha(L, 0, u) == a && Alpha(L, 1, u) == b && c == a + b
    ensures Alpha(L, 1, t) == Scale(L.Emit(1, t), c)
  {
    var e := L.Emit(1, t);
    StepSecondState(L, t, a, b, e);
    ScaleSwap(Alpha(L, 1, t), a + b, c, e);
  }

  /** `StepNoSkip` with the emission as the scaling factor. */
  lemma NoSkipScaled<Sym>(L: Lattice<Sym>, s: nat, t: nat, u: nat, a: real, b: real, c: real)
    requires L.Valid() && 2 <= s < |L.z| && 1 <= t < L.T() && u == t - 1
    requires !SkipAllowed(L.z, L.blank, s)
    requires Alpha(L, s - 1, u) == a && Alpha(L, s, u) == b && c == a + b
    ensures Alpha(L, s, t) == Scale(L.Emit(s, t), c)
  {
    var e := L.Emit(s, t);
    StepNoSkip(L, s, t, a, b, e);
    ScaleSwap(Alpha(L, s, t), a + b, c, e);
  }

  /** `StepSkip` with the emission as the scaling factor. */
  lemma SkipScaled<Sym>(L: Lattice<Sym>, s: nat, t: nat, u: nat, a: real, b: real, d: real, c: real)
    requires L.Valid() && 2 <= s < |L.z| && 1 <= t < L.T() && u == t - 1
    requires SkipAllowed(L.z, L.blank, s)
    requires Alpha(L, s - 2, u) == a && Alpha(L, s - 1, u) == b && Alpha(L, s, u) == d
    requires c == a + b + d
    ensures Alpha(L, s, t) == Scale(L.Emit(s, t), c)
  {
    var e := L.Emit(s, t);
    StepSkip(L, s, t, a, b, d, e);
    ScaleSwap(Alpha(L, s, t), a + b + d, c, e);
  }

  /** A product of equal factors, swapped, is the same scaling. */
  lemma ScaleSwap(a: real, x: real, c: real, e: real)
    requires a == x * e && x == c
    ensures a == Scale(e, c)
  {
  }

  /** The mass of `q` when it is a legal path whose symbols collapse to y, and 0 otherwise. */
  function CollapseWeight<Sym>(L: Lattice<Sym>, y: seq<Sym>, q: seq<nat>): real
    requires L.Valid()
  {
    if IsPath(L.z, L.blank, q) && |q| <= L.T() && Collapse(Symbols(L.z, q), L.blank) == y
    then Mass(L, q) else 0.0
  }

  /** The total collapsing weight of a list of sequences. */
  function SumCollapseWeight<Sym>(L: Lattice<Sym>, y: seq<Sym>, qs: seq<seq<nat>>): real
    requires L.Valid()
  {
    if qs == [] then 0.0
    else SumCollapseWeight(L, y, qs[..|qs| - 1]) + CollapseWeight(L, y, qs[|qs| - 1])
  }

  /**
   * P(Y|X) sums the probabilities of all paths of T states whose symbols
   * collapse to Y: the paths counted by the last two forward variables are
   * exactly those.
   */
  lemma ProbabilityIsCollapsingMass<Sym>(L: Lattice<Sym>, y: seq<Sym>)
    requires L.Valid() && L.z == Extended(y, L.blank)
    requires L.blank !in y && |y| >= 1
    ensures Probability(L) == SumCollapseWeight(L, y, AllSeqs(|L.z|, L.T()))
  {
    var n, T := |L.z|, L.T();
    ProbabilityIsPathMass(L);
    PathMassLast(L, n - 2);
    PathMassLast(L, n - 1);
    AllSeqsLength(n, T);
    CollapsingSum(L, y, AllSeqs(n, T));
  }

  /** P(Y|X) is the path mass of the last two states at the last timestep. */
  lemma ProbabilityIsPathMass<Sym>(L: Lattice<Sym>)
    requires L.Valid()
    ensures Probability(L) == PathMass(L, |L.z| - 2, L.T() - 1) + PathMass(L, |L.z| - 1, L.T() - 1)
  {
    AlphaIsPathMass(L, |L.z| - 2, L.T() - 1);
    AlphaIsPathMass(L, |L.z| - 1, L.T() - 1);
  }

  /** The path mass at the last timestep sums over the paths of T states. */
  lemma PathMassLast<Sym>(L: Lattice<Sym>, s: nat)
    requires L.Valid() && s < |L.z|
    ensures PathMass(L, s, L.T() - 1) == SumWeight(L, s, AllSeqs(|L.z|, L.T()))
  {
  }

  /** Over paths of T states, collapsing to y is ending in one of the last two states. */
  lemma {:induction false} CollapsingSum<Sym>(L: Lattice<Sym>, y: seq<Sym>, qs: seq<seq<nat>>)
    requires L.Valid() && L.z == Extended(y, L.blank)
    requires L.blank !in y && |y| >= 1
    requires Lengths(qs, L.T())
    ensures SumCollapseWeight(L, y, qs) ==
      SumWeight(L, |L.z| - 2, qs) + SumWeight(L, |L.z| - 1, qs)
  {
    if qs != [] {
      var rest, q := qs[..|qs| - 1], qs[|qs| - 1];
      assert Lengths(rest, L.T());
      CollapsingSum(L, y, rest);
      LegalIsPath(L.z, L.blank, q);
      if IsPath(L.z, L.blank, q) {
        CollapsesToLabels(y, L.blank, q);
      }
    }
  }
}
