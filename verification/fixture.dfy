/**
 * The literal fixture of the step-by-step verification script: the 9 x 12
 * emission matrix for the vocabulary n, a, space, g, r, o, u, p, eps and the
 * label "na group".  Every emission has three decimals, so every forward
 * variable is an exact decimal, and the table is checked here column by
 * column against those exact values.
 */
module Fixture {
  import opened Emission
  import opened ExtendedSequence
  import opened Forward
  import opened Greedy
  import opened ColumnCheck

  /** Rows in vocabulary order n, a, space, g, r, o, u, p, eps; one column per timestep. */
  const Probs: Matrix := [
    [0.700, 0.500, 0.037, 0.059, 0.002, 0.007, 0.022, 0.011, 0.020, 0.000, 0.091, 0.127],  // n
    [0.017, 0.057, 0.600, 0.149, 0.101, 0.036, 0.006, 0.026, 0.048, 0.106, 0.045, 0.037],  // a
    [0.111, 0.076, 0.076, 0.022, 0.650, 0.002, 0.096, 0.006, 0.009, 0.077, 0.018, 0.007],  // space
    [0.049, 0.001, 0.058, 0.070, 0.115, 0.700, 0.041, 0.047, 0.099, 0.082, 0.003, 0.073],  // g
    [0.034, 0.216, 0.035, 0.087, 0.056, 0.125, 0.600, 0.059, 0.005, 0.093, 0.017, 0.083],  // r
    [0.006, 0.110, 0.097, 0.005, 0.012, 0.016, 0.077, 0.550, 0.265, 0.005, 0.018, 0.048],  // o
    [0.006, 0.015, 0.015, 0.091, 0.004, 0.057, 0.062, 0.038, 0.090, 0.600, 0.060, 0.086],  // u
    [0.002, 0.012, 0.035, 0.018, 0.039, 0.020, 0.025, 0.211, 0.014, 0.028, 0.700, 0.040],  // p
    [0.074, 0.013, 0.047, 0.500, 0.020, 0.038, 0.070, 0.053, 0.450, 0.008, 0.047, 0.500]  // eps
  ]

  const Vocab: seq<string> := ["n", "a", " ", "g", "r", "o", "u", "p", "eps"]

  const Index: map<string, nat> := map["n" := 0, "a" := 1, " " := 2, "g" := 3, "r" := 4, "o" := 5, "u" := 6, "p" := 7, "eps" := 8]

  const Labels: seq<string> := ["n", "a", " ", "g", "r", "o", "u", "p"]

  const Z: seq<string> := ["eps", "n", "eps", "a", "eps", " ", "eps", "g", "eps", "r", "eps", "o", "eps", "u", "eps", "p", "eps"]

  const Fx: Lattice<string> := Lattice(Probs, Z, Index, "eps")

  /** The extended sequence of "na group" has 17 states, and it is the interleaving. */
  lemma FixtureExtended()
    ensures |Z| == 17
    ensures Interleaves(Z, Labels, "eps")
    ensures Z == Extended(Labels, "eps")
  {
    assert Interleaves(Z, Labels, "eps");
    InterleavesUnique(Z, Labels, "eps");
  }

  /** The row of the matrix that every state reads. */
  lemma StateRows()
    ensures forall s :: 0 <= s < |Z| ==> Z[s] in Index

    ensures Index[Z[0]] == 8
    ensures Index[Z[1]] == 0
    ensures Index[Z[2]] == 8
    ensures Index[Z[3]] == 1
    ensures Index[Z[4]] == 8
    ensures Index[Z[5]] == 2
    ensures Index[Z[6]] == 8
    ensures Index[Z[7]] == 3
    ensures Index[Z[8]] == 8
    ensures Index[Z[9]] == 4
    ensures Index[Z[10]] == 8
    ensures Index[Z[11]] == 5
    ensures Index[Z[12]] == 8
    ensures Index[Z[13]] == 6
    ensures Index[Z[14]] == 8
    ensures Index[Z[15]] == 7
    ensures Index[Z[16]] == 8
  {
  }

  /** The fixture satisfies what the recursion relies on, with T = 12. */
  lemma FixtureValid()
    ensures Fx.Valid() && Fx.T() == 12
  {
    MatrixShape();
    StatesMapped();
  }

  /** The matrix has 9 rows of 12 columns each. */
  lemma MatrixShape()
    ensures Rectangular(Probs) && |Probs| == 9 && Steps(Probs) == 12
  {
  }

  /** Every state reads one of the 9 rows. */
  lemma StatesMapped()
    ensures forall s :: 0 <= s < |Z| ==> Z[s] in Index && Index[Z[s]] < 9
  {
    StateRows();
  }

  /**
   * "na group" has no two equal neighbouring labels, so every label state
   * s >= 2 takes the three-predecessor branch and every blank state the
   * two-predecessor one.
   */
  lemma FixtureSkips()
    ensures forall s :: 2 <= s < |Z| ==> (SkipAllowed(Z, "eps", s) <==> s % 2 == 1)
  {
    FixtureExtended();
    forall s | 2 <= s < |Z|
      ensures SkipAllowed(Z, "eps", s) <==> s % 2 == 1
    {
      SkipRuleOnLabels(Z, Labels, "eps", s);
    }
  }

  /** The skip rule at every state of the fixture, one state at a time. */
  lemma SkipFacts()
    ensures !SkipAllowed(Z, "eps", 2)
    ensures SkipAllowed(Z, "eps", 3)
    ensures !SkipAllowed(Z, "eps", 4)
    ensures SkipAllowed(Z, "eps", 5)
    ensures !SkipAllowed(Z, "eps", 6)
    ensures SkipAllowed(Z, "eps", 7)
    ensures !SkipAllowed(Z, "eps", 8)
    ensures SkipAllowed(Z, "eps", 9)
    ensures !SkipAllowed(Z, "eps", 10)
    ensures SkipAllowed(Z, "eps", 11)
    ensures !SkipAllowed(Z, "eps", 12)
    ensures SkipAllowed(Z, "eps", 13)
    ensures !SkipAllowed(Z, "eps", 14)
    ensures SkipAllowed(Z, "eps", 15)
    ensures !SkipAllowed(Z, "eps", 16)
  {
    FixtureSkips();
  }

  /** The emissions that states 0 to 5 read at timestep 0. */
  lemma Emit0a()
    requires Fx.Valid() && Fx.T() == 12
    ensures Fx.Emit(0, 0) == 0.074
    ensures Fx.Emit(1, 0) == 0.700
    ensures Fx.Emit(2, 0) == 0.074
    ensures Fx.Emit(3, 0) == 0.017
    ensures Fx.Emit(4, 0) == 0.074
    ensures Fx.Emit(5, 0) == 0.111
  {
    StateRows();
  }

  /** The emissions that states 6 to 11 read at timestep 0. */
  lemma Emit0b()
    requires Fx.Valid() && Fx.T() == 12
    ensures Fx.Emit(6, 0) == 0.074
    ensures Fx.Emit(7, 0) == 0.049
    ensures Fx.Emit(8, 0) == 0.074
    ensures Fx.Emit(9, 0) == 0.034
    ensures Fx.Emit(10, 0) == 0.074
    ensures Fx.Emit(11, 0) == 0.006
  {
    StateRows();
  }

  /** The emissions that states 12 to 16 read at timestep 0. */
  lemma Emit0c()
    requires Fx.Valid() && Fx.T() == 12
    ensures Fx.Emit(12, 0) == 0.074
    ensures Fx.Emit(13, 0) == 0.006
    ensures Fx.Emit(14, 0) == 0.074
    ensures Fx.Emit(15, 0) == 0.002
    ensures Fx.Emit(16, 0) == 0.074
  {
    StateRows();
  }

  /** States 0 to 5 of column 0 of the forward table. */
  lemma Column0a()
    requires Fx.Valid() && Fx.T() == 12
    ensures Alpha(Fx, 0, 0) == 0.074
    ensures Alpha(Fx, 1, 0) == 0.7
    ensures Alpha(Fx, 2, 0) == 0.0
    ensures Alpha(Fx, 3, 0) == 0.0
    ensures Alpha(Fx, 4, 0) == 0.0
    ensures Alpha(Fx, 5, 0) == 0.0
  {
    Emit0a();
  }

  /** States 6 to 11 of column 0 of the forward table. */
  lemma Column0b()
    requires Fx.Valid() && Fx.T() == 12
    ensures Alpha(Fx, 6, 0) == 0.0
    ensures Alpha(Fx, 7, 0) == 0.0
    ensures Alpha(Fx, 8, 0) == 0.0
    ensures Alpha(Fx, 9, 0) == 0.0
    ensures Alpha(Fx, 10, 0) == 0.0
    ensures Alpha(Fx, 11, 0) == 0.0
  {
    Emit0b();
  }

  /** States 12 to 16 of column 0 of the forward table. */
  lemma Column0c()
    requires Fx.Valid() && Fx.T() == 12
    ensures Alpha(Fx, 12, 0) == 0.0
    ensures Alpha(Fx, 13, 0) == 0.0
    ensures Alpha(Fx, 14, 0) == 0.0
    ensures Alpha(Fx, 15, 0) == 0.0
    ensures Alpha(Fx, 16, 0) == 0.0
  {
    Emit0c();
  }

  /** The emissions that states 0 to 5 read at timestep 1. */
  lemma Emit1a()
    requires Fx.Valid() && Fx.T() == 12
    ensures Fx.Emit(0, 1) == 0.013
    ensures Fx.Emit(1, 1) == 0.500
    ensures Fx.Emit(2, 1) == 0.013
    ensures Fx.Emit(3, 1) == 0.057
    ensures Fx.Emit(4, 1) == 0.013
    ensures Fx.Emit(5, 1) == 0.076
  {
    StateRows();
  }

  /** The emissions that states 6 to 11 read at timestep 1. */
  lemma Emit1b()
    requires Fx.Valid() && Fx.T() == 12
    ensures Fx.Emit(6, 1) == 0.013
    ensures Fx.Emit(7, 1) == 0.001
    ensures Fx.Emit(8, 1) == 0.013
    ensures Fx.Emit(9, 1) == 0.216
    ensures Fx.Emit(10, 1) == 0.013
    ensures Fx.Emit(11, 1) == 0.110
  {
    StateRows();
  }

  /** The emissions that states 12 to 16 read at timestep 1. */
  lemma Emit1c()
    requires Fx.Valid() && Fx.T() == 12
    ensures Fx.Emit(12, 1) == 0.013
    ensures Fx.Emit(13, 1) == 0.015
    ensures Fx.Emit(14, 1) == 0.013
    ensures Fx.Emit(15, 1) == 0.012
    ensures Fx.Emit(16, 1) == 0.013
  {
    StateRows();
  }

  /** States 0 to 5 of column 1 of the forward table. */
  lemma Column1a()
    requires Fx.Valid() && Fx.T() == 12
    ensures Alpha(Fx, 0, 1) == 0.000962
    ensures Alpha(Fx, 1, 1) == 0.387
    ensures Alpha(Fx, 2, 1) == 0.0091
    ensures Alpha(Fx, 3, 1) == 0.0399
    ensures Alpha(Fx, 4, 1) == 0.0
    ensures Alpha(Fx, 5, 1) == 0.0
  {
    Column0a();
    Emit1a();
    SkipFacts();
    StepFirstState(Fx, 1, 0.074, 0.013);
    StepSecondState(Fx, 1, 0.074, 0.7, 0.500);
    StepNoSkip(Fx, 2, 1, 0.7, 0.0, 0.013);
    StepSkip(Fx, 3, 1, 0.7, 0.0, 0.0, 0.057);
    StepNoSkip(Fx, 4, 1, 0.0, 0.0, 0.013);
    StepSkip(Fx, 5, 1, 0.0, 0.0, 0.0, 0.076);
  }

  /** States 6 to 11 of column 1 of the forward table. */
  lemma Column1b()
    requires Fx.Valid() && Fx.T() == 12
    ensures Alpha(Fx, 6, 1) == 0.0
    ensures Alpha(Fx, 7, 1) == 0.0
    ensures Alpha(Fx, 8, 1) == 0.0
    ensures Alpha(Fx, 9, 1) == 0.0
    ensures Alpha(Fx, 10, 1) == 0.0
    ensures Alpha(Fx, 11, 1) == 0.0
  {
    Column0a();
    Column0b();
    Emit1b();
    SkipFacts();
    StepNoSkip(Fx, 6, 1, 0.0, 0.0, 0.013);
    StepSkip(Fx, 7, 1, 0.0, 0.0, 0.0, 0.001);
    StepNoSkip(Fx, 8, 1, 0.0, 0.0, 0.013);
    StepSkip(Fx, 9, 1, 0.0, 0.0, 0.0, 0.216);
    StepNoSkip(Fx, 10, 1, 0.0, 0.0, 0.013);
    StepSkip(Fx, 11, 1, 0.0, 0.0, 0.0, 0.110);
  }

  /** States 12 to 16 of column 1 of the forward table. */
  lemma Column1c()
    requires Fx.Valid() && Fx.T() == 12
    ensures Alpha(Fx, 12, 1) == 0.0
    ensures Alpha(Fx, 13, 1) == 0.0
    ensures Alpha(Fx, 14, 1) == 0.0
    ensures Alpha(Fx, 15, 1) == 0.0
    ensures Alpha(Fx, 16, 1) == 0.0
  {
    Column0b();
    Column0c();
    Emit1c();
    SkipFacts();
    StepNoSkip(Fx, 12, 1, 0.0, 0.0, 0.013);
    StepSkip(Fx, 13, 1, 0.0, 0.0, 0.0, 0.015);
    StepNoSkip(Fx, 14, 1, 0.0, 0.0, 0.013);
    StepSkip(Fx, 15, 1, 0.0, 0.0, 0.0, 0.012);
    StepNoSkip(Fx, 16, 1, 0.0, 0.0, 0.013);
  }

  /** The emissions that states 0 to 5 read at timestep 2. */
  lemma Emit2a()
    requires Fx.Valid() && Fx.T() == 12
    ensures Fx.Emit(0, 2) == 0.047
    ensures Fx.Emit(1, 2) == 0.037
    ensures Fx.Emit(2, 2) == 0.047
    ensures Fx.Emit(3, 2) == 0.600
    ensures Fx.Emit(4, 2) == 0.047
    ensures Fx.Emit(5, 2) == 0.076
  {
    StateRows();
  }

  /** The emissions that states 6 to 11 read at timestep 2. */
  lemma Emit2b()
    requires Fx.Valid() && Fx.T() == 12
    ensures Fx.Emit(6, 2) == 0.047
    ensures Fx.Emit(7, 2) == 0.058
    ensures Fx.Emit(8, 2) == 0.047
    ensures Fx.Emit(9, 2) == 0.035
    ensures Fx.Emit(10, 2) == 0.047
    ensures Fx.Emit(11, 2) == 0.097
  {
    StateRows();
  }

  /** The emissions that states 12 to 16 read at timestep 2. */
  lemma Emit2c()
    requires Fx.Valid() && Fx.T() == 12
    ensures Fx.Emit(12, 2) == 0.047
    ensures Fx.Emit(13, 2) == 0.015
    ensures Fx.Emit(14, 2) == 0.047
    ensures Fx.Emit(15, 2) == 0.035
    ensures Fx.Emit(16, 2) == 0.047
  {
    StateRows();
  }

  /** States 0 to 5 of column 2 of the forward table. */
  lemma Column2a()
    requires Fx.Valid() && Fx.T() == 12
    ensures Alpha(Fx, 0, 2) == 0.000045214
    ensures Alpha(Fx, 1, 2) == 0.014354594
    ensures Alpha(Fx, 2, 2) == 0.0186167
    ensures Alpha(Fx, 3, 2) == 0.2616
    ensures Alpha(Fx, 4, 2) == 0.0018753
    ensures Alpha(Fx, 5, 2) == 0.0030324
  {
    Column1a();
    Emit2a();
    SkipFacts();
    StepFirstState(Fx, 2, 0.000962, 0.047);
    StepSecondState(Fx, 2, 0.000962, 0.387, 0.037);
    StepNoSkip(Fx, 2, 2, 0.387, 0.0091, 0.047);
    StepSkip(Fx, 3, 2, 0.387, 0.0091, 0.0399, 0.600);
    StepNoSkip(Fx, 4, 2, 0.0399, 0.0, 0.047);
    StepSkip(Fx, 5, 2, 0.0399, 0.0, 0.0, 0.076);
  }

  /** States 6 to 11 of column 2 of the forward table. */
  lemma Column2b()
    requires Fx.Valid() && Fx.T() == 12
    ensures Alpha(Fx, 6, 2) == 0.0
    ensures Alpha(Fx, 7, 2) == 0.0
    ensures Alpha(Fx, 8, 2) == 0.0
    ensures Alpha(Fx, 9, 2) == 0.0
    ensures Alpha(Fx, 10, 2) == 0.0
    ensures Alpha(Fx, 11, 2) == 0.0
  {
    Column1a();
    Column1b();
    Emit2b();
    SkipFacts();
    StepNoSkip(Fx, 6, 2, 0.0, 0.0, 0.047);
    StepSkip(Fx, 7, 2, 0.0, 0.0, 0.0, 0.058);
    StepNoSkip(Fx, 8, 2, 0.0, 0.0, 0.047);
    StepSkip(Fx, 9, 2, 0.0, 0.0, 0.0, 0.035);
    StepNoSkip(Fx, 10, 2, 0.0, 0.0, 0.047);
    StepSkip(Fx, 11, 2, 0.0, 0.0, 0.0, 0.097);
  }

  /** States 12 to 16 of column 2 of the forward table. */
  lemma Column2c()
    requires Fx.Valid() && Fx.T() == 12
    ensures Alpha(Fx, 12, 2) == 0.0
    ensures Alpha(Fx, 13, 2) == 0.0
    ensures Alpha(Fx, 14, 2) == 0.0
    ensures Alpha(Fx, 15, 2) == 0.0
    ensures Alpha(Fx, 16, 2) == 0.0
  {
    Column1b();
    Column1c();
    Emit2c();
    SkipFacts();
    StepNoSkip(Fx, 12, 2, 0.0, 0.0, 0.047);
    StepSkip(Fx, 13, 2, 0.0, 0.0, 0.0, 0.015);
    StepNoSkip(Fx, 14, 2, 0.0, 0.0, 0.047);
    StepSkip(Fx, 15, 2, 0.0, 0.0, 0.0, 0.035);
    StepNoSkip(Fx, 16, 2, 0.0, 0.0, 0.047);
  }

  /** The emissions that states 0 to 5 read at timestep 3. */
  lemma Emit3a()
    requires Fx.Valid() && Fx.T() == 12
    ensures Fx.Emit(0, 3) == 0.500
    ensures Fx.Emit(1, 3) == 0.059
    ensures Fx.Emit(2, 3) == 0.500
    ensures Fx.Emit(3, 3) == 0.149
    ensures Fx.Emit(4, 3) == 0.500
    ensures Fx.Emit(5, 3) == 0.022
  {
    StateRows();
  }

  /** The emissions that states 6 to 11 read at timestep 3. */
  lemma Emit3b()
    requires Fx.Valid() && Fx.T() == 12
    ensures Fx.Emit(6, 3) == 0.500
    ensures Fx.Emit(7, 3) == 0.070
    ensures Fx.Emit(8, 3) == 0.500
    ensures Fx.Emit(9, 3) == 0.087
    ensures Fx.Emit(10, 3) == 0.500
    ensures Fx.Emit(11, 3) == 0.005
  {
    StateRows();
  }

  /** The emissions that states 12 to 16 read at timestep 3. */
  lemma Emit3c()
    requires Fx.Valid() && Fx.T() == 12
    ensures Fx.Emit(12, 3) == 0.500
    ensures Fx.Emit(13, 3) == 0.091
    ensures Fx.Emit(14, 3) == 0.500
    ensures Fx.Emit(15, 3) == 0.018
    ensures Fx.Emit(16, 3) == 0.500
  {
    StateRows();
  }

  /** States 0 to 5 of column 3 of the forward table. */
  lemma Column3a()
    requires Fx.Valid() && Fx.T() == 12
    ensures Alpha(Fx, 0, 3) == 0.000022607
    ensures Alpha(Fx, 1, 3) == 0.000849588672
    ensures Alpha(Fx, 2, 3) == 0.016485647
    ensures Alpha(Fx, 3, 3) == 0.043891122806
    ensures Alpha(Fx, 4, 3) == 0.13173765
    ensures Alpha(Fx, 5, 3) == 0.0058631694
  {
    Column2a();
    Emit3a();
    SkipFacts();
    StepFirstState(Fx, 3, 0.000045214, 0.500);
    StepSecondState(Fx, 3, 0.000045214, 0.014354594, 0.059);
    StepNoSkip(Fx, 2, 3, 0.014354594, 0.0186167, 0.500);
    StepSkip(Fx, 3, 3, 0.014354594, 0.0186167, 0.2616, 0.149);
    StepNoSkip(Fx, 4, 3, 0.2616, 0.0018753, 0.500);
    StepSkip(Fx, 5, 3, 0.2616, 0.0018753, 0.0030324, 0.022);
  }

  /** States 6 to 11 of column 3 of the forward table. */
  lemma Column3b()
    requires Fx.Valid() && Fx.T() == 12
    ensures Alpha(Fx, 6, 3) == 0.0015162
    ensures Alpha(Fx, 7, 3) == 0.000212268
    ensures Alpha(Fx, 8, 3) == 0.0
    ensures Alpha(Fx, 9, 3) == 0.0
    ensures Alpha(Fx, 10, 3) == 0.0
    ensures Alpha(Fx, 11, 3) == 0.0
  {
    Column2a();
    Column2b();
    Emit3b();
    SkipFacts();
    StepNoSkip(Fx, 6, 3, 0.0030324, 0.0, 0.500);
    StepSkip(Fx, 7, 3, 0.0030324, 0.0, 0.0, 0.070);
    StepNoSkip(Fx, 8, 3, 0.0, 0.0, 0.500);
    StepSkip(Fx, 9, 3, 0.0, 0.0, 0.0, 0.087);
    StepNoSkip(Fx, 10, 3, 0.0, 0.0, 0.500);
    StepSkip(Fx, 11, 3, 0.0, 0.0, 0.0, 0.005);
  }

  /** States 12 to 16 of column 3 of the forward table. */
  lemma Column3c()
    requires Fx.Valid() && Fx.T() == 12
    ensures Alpha(Fx, 12, 3) == 0.0
    ensures Alpha(Fx, 13, 3) == 0.0
    ensures Alpha(Fx, 14, 3) == 0.0
    ensures Alpha(Fx, 15, 3) == 0.0
    ensures Alpha(Fx, 16, 3) == 0.0
  {
    Column2b();
    Column2c();
    Emit3c();
    SkipFacts();
    StepNoSkip(Fx, 12, 3, 0.0, 0.0, 0.500);
    StepSkip(Fx, 13, 3, 0.0, 0.0, 0.0, 0.091);
    StepNoSkip(Fx, 14, 3, 0.0, 0.0, 0.500);
    StepSkip(Fx, 15, 3, 0.0, 0.0, 0.0, 0.018);
    StepNoSkip(Fx, 16, 3, 0.0, 0.0, 0.500);
  }

  /** The emissions that states 0 to 5 read at timestep 4. */
  lemma Emit4a()
    requires Fx.Valid() && Fx.T() == 12
    ensures Fx.Emit(0, 4) == 0.020
    ensures Fx.Emit(1, 4) == 0.002
    ensures Fx.Emit(2, 4) == 0.020
    ensures Fx.Emit(3, 4) == 0.101
    ensures Fx.Emit(4, 4) == 0.020
    ensures Fx.Emit(5, 4) == 0.650
  {
    StateRows();
  }

  /** The emissions that states 6 to 11 read at timestep 4. */
  lemma Emit4b()
    requires Fx.Valid() && Fx.T() == 12
    ensures Fx.Emit(6, 4) == 0.020
    ensures Fx.Emit(7, 4) == 0.115
    ensures Fx.Emit(8, 4) == 0.020
    ensures Fx.Emit(9, 4) == 0.056
    ensures Fx.Emit(10, 4) == 0.020
    ensures Fx.Emit(11, 4) == 0.012
  {
    StateRows();
  }

  /** The emissions that states 12 to 16 read at timestep 4. */
  lemma Emit4c()
    requires Fx.Valid() && Fx.T() == 12
    ensures Fx.Emit(12, 4) == 0.020
    ensures Fx.Emit(13, 4) == 0.004
    ensures Fx.Emit(14, 4) == 0.020
    ensures Fx.Emit(15, 4) == 0.039
    ensures Fx.Emit(16, 4) == 0.020
  {
    StateRows();
  }

  /** States 0 to 5 of column 4 of the forward table. */
  lemma Column4a()
    requires Fx.Valid() && Fx.T() == 12
    ensures Alpha(Fx, 0, 4) == 0.00000045214
    ensures Alpha(Fx, 1, 4) == 0.000001744391344
    ensures Alpha(Fx, 2, 4) == 0.00034670471344
    ensures Alpha(Fx, 3, 4) == 0.006183862206278
    ensures Alpha(Fx, 4, 4) == 0.00351257545612
    ensures Alpha(Fx, 5, 4) == 0.1179697624339
  {
    Column3a();
    Emit4a();
    SkipFacts();
    StepFirstState(Fx, 4, 0.000022607, 0.020);
    StepSecondState(Fx, 4, 0.000022607, 0.000849588672, 0.002);
    StepNoSkip(Fx, 2, 4, 0.000849588672, 0.016485647, 0.020);
    StepSkip(Fx, 3, 4, 0.000849588672, 0.016485647, 0.043891122806, 0.101);
    StepNoSkip(Fx, 4, 4, 0.043891122806, 0.13173765, 0.020);
    StepSkip(Fx, 5, 4, 0.043891122806, 0.13173765, 0.0058631694, 0.650);
  }

  /** States 6 to 11 of column 4 of the forward table. */
  lemma Column4b()
    requires Fx.Valid() && Fx.T() == 12
    ensures Alpha(Fx, 6, 4) == 0.000147587388
    ensures Alpha(Fx, 7, 4) == 0.000873038301
    ensures Alpha(Fx, 8, 4) == 0.00000424536
    ensures Alpha(Fx, 9, 4) == 0.000011887008
    ensures Alpha(Fx, 10, 4) == 0.0
    ensures Alpha(Fx, 11, 4) == 0.0
  {
    Column3a();
    Column3b();
    Emit4b();
    SkipFacts();
    StepNoSkip(Fx, 6, 4, 0.0058631694, 0.0015162, 0.020);
    StepSkip(Fx, 7, 4, 0.0058631694, 0.0015162, 0.000212268, 0.115);
    StepNoSkip(Fx, 8, 4, 0.000212268, 0.0, 0.020);
    StepSkip(Fx, 9, 4, 0.000212268, 0.0, 0.0, 0.056);
    StepNoSkip(Fx, 10, 4, 0.0, 0.0, 0.020);
    StepSkip(Fx, 11, 4, 0.0, 0.0, 0.0, 0.012);
  }

  /** States 12 to 16 of column 4 of the forward table. */
  lemma Column4c()
    requires Fx.Valid() && Fx.T() == 12
    ensures Alpha(Fx, 12, 4) == 0.0
    ensures Alpha(Fx, 13, 4) == 0.0
    ensures Alpha(Fx, 14, 4) == 0.0
    ensures Alpha(Fx, 15, 4) == 0.0
    ensures Alpha(Fx, 16, 4) == 0.0
  {
    Column3b();
    Column3c();
    Emit4c();
    SkipFacts();
    StepNoSkip(Fx, 12, 4, 0.0, 0.0, 0.020);
    StepSkip(Fx, 13, 4, 0.0, 0.0, 0.0, 0.004);
    StepNoSkip(Fx, 14, 4, 0.0, 0.0, 0.020);
    StepSkip(Fx, 15, 4, 0.0, 0.0, 0.0, 0.039);
    StepNoSkip(Fx, 16, 4, 0.0, 0.0, 0.020);
  }

  /** The emissions that states 0 to 5 read at timestep 5. */
  lemma Emit5a()
    requires Fx.Valid() && Fx.T() == 12
    ensures Fx.Emit(0, 5) == 0.038
    ensures Fx.Emit(1, 5) == 0.007
    ensures Fx.Emit(2, 5) == 0.038
    ensures Fx.Emit(3, 5) == 0.036
    ensures Fx.Emit(4, 5) == 0.038
    ensures Fx.Emit(5, 5) == 0.002
  {
    StateRows();
  }

  /** The emissions that states 6 to 11 read at timestep 5. */
  lemma Emit5b()
    requires Fx.Valid() && Fx.T() == 12
    ensures Fx.Emit(6, 5) == 0.038
    ensures Fx.Emit(7, 5) == 0.700
    ensures Fx.Emit(8, 5) == 0.038
    ensures Fx.Emit(9, 5) == 0.125
    ensures Fx.Emit(10, 5) == 0.038
    ensures Fx.Emit(11, 5) == 0.016
  {
    StateRows();
  }

  /** The emissions that states 12 to 16 read at timestep 5. */
  lemma Emit5c()
    requires Fx.Valid() && Fx.T() == 12
    ensures Fx.Emit(12, 5) == 0.038
    ensures Fx.Emit(13, 5) == 0.057
    ensures Fx.Emit(14, 5) == 0.038
    ensures Fx.Emit(15, 5) == 0.020
    ensures Fx.Emit(16, 5) == 0.038
  {
    StateRows();
  }

  /** States 0 to 5 of column 5 of the forward table. */
  lemma Column5a()
    requires Fx.Valid() && Fx.T() == 12
    ensures Alpha(Fx, 0, 5) == 0.00000001718132
    ensures Alpha(Fx, 1, 5) == 0.000000015375719408
    ensures Alpha(Fx, 2, 5) == 0.000013241065981792
    ensures Alpha(Fx, 3, 5) == 0.000235163207198232
    ensures Alpha(Fx, 4, 5) == 0.000368464631171124
    ensures Alpha(Fx, 5, 5) == 0.000255332400192596
  {
    Column4a();
    Emit5a();
    SkipFacts();
    StepFirstState(Fx, 5, 0.00000045214, 0.038);
    StepSecondState(Fx, 5, 0.00000045214, 0.000001744391344, 0.007);
    StepNoSkip(Fx, 2, 5, 0.000001744391344, 0.00034670471344, 0.038);
    StepSkip(Fx, 3, 5, 0.000001744391344, 0.00034670471344, 0.006183862206278, 0.036);
    StepNoSkip(Fx, 4, 5, 0.006183862206278, 0.00351257545612, 0.038);
    StepSkip(Fx, 5, 5, 0.006183862206278, 0.00351257545612, 0.1179697624339, 0.002);
  }

  /** States 6 to 11 of column 5 of the forward table. */
  lemma Column5b()
    requires Fx.Valid() && Fx.T() == 12
    ensures Alpha(Fx, 6, 5) == 0.0044884592932322
    ensures Alpha(Fx, 7, 5) == 0.08329327168603
    ensures Alpha(Fx, 8, 5) == 0.000033336779118
    ensures Alpha(Fx, 9, 5) == 0.000111146333625
    ensures Alpha(Fx, 10, 5) == 0.000000451706304
    ensures Alpha(Fx, 11, 5) == 0.000000190192128
  {
    Column4a();
    Column4b();
    Emit5b();
    SkipFacts();
    StepNoSkip(Fx, 6, 5, 0.1179697624339, 0.000147587388, 0.038);
    StepSkip(Fx, 7, 5, 0.1179697624339, 0.000147587388, 0.000873038301, 0.700);
    StepNoSkip(Fx, 8, 5, 0.000873038301, 0.00000424536, 0.038);
    StepSkip(Fx, 9, 5, 0.000873038301, 0.00000424536, 0.000011887008, 0.125);
    StepNoSkip(Fx, 10, 5, 0.000011887008, 0.0, 0.038);
    StepSkip(Fx, 11, 5, 0.000011887008, 0.0, 0.0, 0.016);
  }

  /** States 12 to 16 of column 5 of the forward table. */
  lemma Column5c()
    requires Fx.Valid() && Fx.T() == 12
    ensures Alpha(Fx, 12, 5) == 0.0
    ensures Alpha(Fx, 13, 5) == 0.0
    ensures Alpha(Fx, 14, 5) == 0.0
    ensures Alpha(Fx, 15, 5) == 0.0
    ensures Alpha(Fx, 16, 5) == 0.0
  {
    Column4b();
    Column4c();
    Emit5c();
    SkipFacts();
    StepNoSkip(Fx, 12, 5, 0.0, 0.0, 0.038);
    StepSkip(Fx, 13, 5, 0.0, 0.0, 0.0, 0.057);
    StepNoSkip(Fx, 14, 5, 0.0, 0.0, 0.038);
    StepSkip(Fx, 15, 5, 0.0, 0.0, 0.0, 0.020);
    StepNoSkip(Fx, 16, 5, 0.0, 0.0, 0.038);
  }

  /** The emissions that states 0 to 5 read at timestep 6. */
  lemma Emit6a()
    requires Fx.Valid() && Fx.T() == 12
    ensures Fx.Emit(0, 6) == 0.070
    ensures Fx.Emit(1, 6) == 0.022
    ensures Fx.Emit(2, 6) == 0.070
    ensures Fx.Emit(3, 6) == 0.006
    ensures Fx.Emit(4, 6) == 0.070
    ensures Fx.Emit(5, 6) == 0.096
  {
    StateRows();
  }

  /** The emissions that states 6 to 11 read at timestep 6. */
  lemma Emit6b()
    requires Fx.Valid() && Fx.T() == 12
    ensures Fx.Emit(6, 6) == 0.070
    ensures Fx.Emit(7, 6) == 0.041
    ensures Fx.Emit(8, 6) == 0.070
    ensures Fx.Emit(9, 6) == 0.600
    ensures Fx.Emit(10, 6) == 0.070
    ensures Fx.Emit(11, 6) == 0.077
  {
    StateRows();
  }

  /** The emissions that states 12 to 16 read at timestep 6. */
  lemma Emit6c()
    requires Fx.Valid() && Fx.T() == 12
    ensures Fx.Emit(12, 6) == 0.070
    ensures Fx.Emit(13, 6) == 0.062
    ensures Fx.Emit(14, 6) == 0.070
    ensures Fx.Emit(15, 6) == 0.025
    ensures Fx.Emit(16, 6) == 0.070
  {
    StateRows();
  }

  /** States 0 to 5 of column 6 of the forward table. */
  lemma Column6a()
    requires Fx.Valid() && Fx.T() == 12
    ensures Alpha(Fx, 0, 6) == 0.0000000012026924
    ensures Alpha(Fx, 1, 6) == 0.000000000716254866976
    ensures Alpha(Fx, 2, 6) == 0.000000927950919084
    ensures Alpha(Fx, 3, 6) == 0.000001490517893396592
    ensures Alpha(Fx, 4, 6) == 0.00004225394868585492
    ensures Alpha(Fx, 5, 6) == 0.000082460182901947392
  {
    Column5a();
    Emit6a();
    SkipFacts();
    StepFirstState(Fx, 6, 0.00000001718132, 0.070);
    StepSecondState(Fx, 6, 0.00000001718132, 0.000000015375719408, 0.022);
    StepNoSkip(Fx, 2, 6, 0.000000015375719408, 0.000013241065981792, 0.070);
    StepSkip(Fx, 3, 6, 0.000000015375719408, 0.000013241065981792, 0.000235163207198232, 0.006);
    StepNoSkip(Fx, 4, 6, 0.000235163207198232, 0.000368464631171124, 0.070);
    StepSkip(Fx, 5, 6, 0.000235163207198232, 0.000368464631171124, 0.000255332400192596, 0.096);
  }

  /** States 6 to 11 of column 6 of the forward table. */
  lemma Column6b()
    requires Fx.Valid() && Fx.T() == 12
    ensures Alpha(Fx, 6, 6) == 0.00033206541853973572
    ensures Alpha(Fx, 7, 6) == 0.003609519598557646636
    ensures Alpha(Fx, 8, 6) == 0.00583286259256036
    ensures Alpha(Fx, 9, 6) == 0.0500626528792638
    ensures Alpha(Fx, 10, 6) == 0.00000781186279503
    ensures Alpha(Fx, 11, 6) == 0.000008607693868389
  {
    Column5a();
    Column5b();
    Emit6b();
    SkipFacts();
    StepNoSkip(Fx, 6, 6, 0.000255332400192596, 0.0044884592932322, 0.070);
    StepSkip(Fx, 7, 6, 0.000255332400192596, 0.0044884592932322, 0.08329327168603, 0.041);
    StepNoSkip(Fx, 8, 6, 0.08329327168603, 0.000033336779118, 0.070);
    StepSkip(Fx, 9, 6, 0.08329327168603, 0.000033336779118, 0.000111146333625, 0.600);
    StepNoSkip(Fx, 10, 6, 0.000111146333625, 0.000000451706304, 0.070);
    StepSkip(Fx, 11, 6, 0.000111146333625, 0.000000451706304, 0.000000190192128, 0.077);
  }

  /** States 12 to 16 of column 6 of the forward table. */
  lemma Column6c()
    requires Fx.Valid() && Fx.T() == 12
    ensures Alpha(Fx, 12, 6) == 0.00000001331344896
    ensures Alpha(Fx, 13, 6) == 0.000000011791911936
    ensures Alpha(Fx, 14, 6) == 0.0
    ensures Alpha(Fx, 15, 6) == 0.0
    ensures Alpha(Fx, 16, 6) == 0.0
  {
    Column5b();
    Column5c();
    Emit6c();
    SkipFacts();
    StepNoSkip(Fx, 12, 6, 0.000000190192128, 0.0, 0.070);
    StepSkip(Fx, 13, 6, 0.000000190192128, 0.0, 0.0, 0.062);
    StepNoSkip(Fx, 14, 6, 0.0, 0.0, 0.070);
    StepSkip(Fx, 15, 6, 0.0, 0.0, 0.0, 0.025);
    StepNoSkip(Fx, 16, 6, 0.0, 0.0, 0.070);
  }

  /** The emissions that states 0 to 5 read at timestep 7. */
  lemma Emit7a()
    requires Fx.Valid() && Fx.T() == 12
    ensures Fx.Emit(0, 7) == 0.053
    ensures Fx.Emit(1, 7) == 0.011
    ensures Fx.Emit(2, 7) == 0.053
    ensures Fx.Emit(3, 7) == 0.026
    ensures Fx.Emit(4, 7) == 0.053
    ensures Fx.Emit(5, 7) == 0.006
  {
    StateRows();
  }

  /** The emissions that states 6 to 11 read at timestep 7. */
  lemma Emit7b()
    requires Fx.Valid() && Fx.T() == 12
    ensures Fx.Emit(6, 7) == 0.053
    ensures Fx.Emit(7, 7) == 0.047
    ensures Fx.Emit(8, 7) == 0.053
    ensures Fx.Emit(9, 7) == 0.059
    ensures Fx.Emit(10, 7) == 0.053
    ensures Fx.Emit(11, 7) == 0.550
  {
    StateRows();
  }

  /** The emissions that states 12 to 16 read at timestep 7. */
  lemma Emit7c()
    requires Fx.Valid() && Fx.T() == 12
    ensures Fx.Emit(12, 7) == 0.053
    ensures Fx.Emit(13, 7) == 0.038
    ensures Fx.Emit(14, 7) == 0.053
    ensures Fx.Emit(15, 7) == 0.211
    ensures Fx.Emit(16, 7) == 0.053
  {
    StateRows();
  }

  /** States 0 to 5 of column 7 of the forward table. */
  lemma Column7a()
    requires Fx.Valid() && Fx.T() == 12
    ensures Alpha(Fx, 0, 7) == 0.0000000000637426972
    ensures Alpha(Fx, 1, 7) == 0.000000000021108419936736
    ensures Alpha(Fx, 2, 7) == 0.000000049219360219401728
    ensures Alpha(Fx, 3, 7) == 0.000000062898811751036768
    ensures Alpha(Fx, 4, 7) == 0.000002318456728700330136
    ensures Alpha(Fx, 5, 7) == 0.000000757227896887193424
  {
    Column6a();
    Emit7a();
    SkipFacts();
    StepFirstState(Fx, 7, 0.0000000012026924, 0.053);
    StepSecondState(Fx, 7, 0.0000000012026924, 0.000000000716254866976, 0.011);
    StepNoSkip(Fx, 2, 7, 0.000000000716254866976, 0.000000927950919084, 0.053);
    StepSkip(Fx, 3, 7, 0.000000000716254866976, 0.000000927950919084, 0.000001490517893396592, 0.026);
    StepNoSkip(Fx, 4, 7, 0.000001490517893396592, 0.00004225394868585492, 0.053);
    StepSkip(Fx, 5, 7, 0.000001490517893396592, 0.00004225394868585492, 0.000082460182901947392, 0.006);
  }

  /** States 6 to 11 of column 7 of the forward table. */
  lemma Column7b()
    requires Fx.Valid() && Fx.T() == 12
    ensures Alpha(Fx, 6, 7) == 0.000021969856876409204936
    ensures Alpha(Fx, 7, 7) == 0.000189130124399968498156
    ensures Alpha(Fx, 8, 7) == 0.000500446256129254351708
    ensures Alpha(Fx, 9, 7) == 0.003510797069152526591524
    ensures Alpha(Fx, 10, 7) == 0.00265373463132911799
    ensures Alpha(Fx, 11, 7) == 0.02754348983975997045
  {
    Column6a();
    Column6b();
    Emit7b();
    SkipFacts();
    StepNoSkip(Fx, 6, 7, 0.000082460182901947392, 0.00033206541853973572, 0.053);
    StepSkip(Fx, 7, 7, 0.000082460182901947392, 0.00033206541853973572, 0.003609519598557646636, 0.047);
    StepNoSkip(Fx, 8, 7, 0.003609519598557646636, 0.00583286259256036, 0.053);
    StepSkip(Fx, 9, 7, 0.003609519598557646636, 0.00583286259256036, 0.0500626528792638, 0.059);
    StepNoSkip(Fx, 10, 7, 0.0500626528792638, 0.00000781186279503, 0.053);
    StepSkip(Fx, 11, 7, 0.0500626528792638, 0.00000781186279503, 0.000008607693868389, 0.550);
  }

  /** States 12 to 16 of column 7 of the forward table. */
  lemma Column7c()
    requires Fx.Valid() && Fx.T() == 12
    ensures Alpha(Fx, 12, 7) == 0.000000456913387819497
    ensures Alpha(Fx, 13, 7) == 0.00000032804637071283
    ensures Alpha(Fx, 14, 7) == 0.000000000624971332608
    ensures Alpha(Fx, 15, 7) == 0.000000002488093418496
    ensures Alpha(Fx, 16, 7) == 0.0
  {
    Column6b();
    Column6c();
    Emit7c();
    SkipFacts();
    StepNoSkip(Fx, 12, 7, 0.000008607693868389, 0.00000001331344896, 0.053);
    StepSkip(Fx, 13, 7, 0.000008607693868389, 0.00000001331344896, 0.000000011791911936, 0.038);
    StepNoSkip(Fx, 14, 7, 0.000000011791911936, 0.0, 0.053);
    StepSkip(Fx, 15, 7, 0.000000011791911936, 0.0, 0.0, 0.211);
    StepNoSkip(Fx, 16, 7, 0.0, 0.0, 0.053);
  }

  /** The emissions that states 0 to 5 read at timestep 8. */
  lemma Emit8a()
    requires Fx.Valid() && Fx.T() == 12
    ensures Fx.Emit(0, 8) == 0.450
    ensures Fx.Emit(1, 8) == 0.020
    ensures Fx.Emit(2, 8) == 0.450
    ensures Fx.Emit(3, 8) == 0.048
    ensures Fx.Emit(4, 8) == 0.450
    ensures Fx.Emit(5, 8) == 0.009
  {
    StateRows();
  }

  /** The emissions that states 6 to 11 read at timestep 8. */
  lemma Emit8b()
    requires Fx.Valid() && Fx.T() == 12
    ensures Fx.Emit(6, 8) == 0.450
    ensures Fx.Emit(7, 8) == 0.099
    ensures Fx.Emit(8, 8) == 0.450
    ensures Fx.Emit(9, 8) == 0.005
    ensures Fx.Emit(10, 8) == 0.450
    ensures Fx.Emit(11, 8) == 0.265
  {
    StateRows();
  }

  /** The emissions that states 12 to 16 read at timestep 8. */
  lemma Emit8c()
    requires Fx.Valid() && Fx.T() == 12
    ensures Fx.Emit(12, 8) == 0.450
    ensures Fx.Emit(13, 8) == 0.090
    ensures Fx.Emit(14, 8) == 0.450
    ensures Fx.Emit(15, 8) == 0.014
    ensures Fx.Emit(16, 8) == 0.450
  {
    StateRows();
  }

  /** States 0 to 5 of column 8 of the forward table. */
  lemma Column8a()
    requires Fx.Valid() && Fx.T() == 12
    ensures Alpha(Fx, 0, 8) == 0.00000000002868421374
    ensures Alpha(Fx, 1, 8) == 0.00000000000169702234273472
    ensures Alpha(Fx, 2, 8) == 0.0000000221582108877023088
    ensures Alpha(Fx, 3, 8) == 0.000000005382685458738011136
    ensures Alpha(Fx, 4, 8) == 0.0000010716099932031151068
    ensures Alpha(Fx, 5, 8) == 0.000000028247250936047042952
  {
    Column7a();
    Emit8a();
    SkipFacts();
    StepFirstState(Fx, 8, 0.0000000000637426972, 0.450);
    StepSecondState(Fx, 8, 0.0000000000637426972, 0.000000000021108419936736, 0.020);
    StepNoSkip(Fx, 2, 8, 0.000000000021108419936736, 0.000000049219360219401728, 0.450);
    StepSkip(Fx, 3, 8, 0.000000000021108419936736, 0.000000049219360219401728, 0.000000062898811751036768, 0.048);
    StepNoSkip(Fx, 4, 8, 0.000000062898811751036768, 0.000002318456728700330136, 0.450);
    StepSkip(Fx, 5, 8, 0.000000062898811751036768, 0.000002318456728700330136, 0.000000757227896887193424, 0.009);
  }

  /** States 6 to 11 of column 8 of the forward table. */
  lemma Column8b()
    requires Fx.Valid() && Fx.T() == 12
    ensures Alpha(Fx, 6, 8) == 0.000010227188147983379262
    ensures Alpha(Fx, 7, 8) == 0.000020973863708153224755084
    ensures Alpha(Fx, 8, 8) == 0.0003103093712381502824388
    ensures Alpha(Fx, 9, 8) == 0.00002100186724840874720694
    ensures Alpha(Fx, 10, 8) == 0.0027740392652167400616858
    ensures Alpha(Fx, 11, 8) == 0.00893262570816402798335386
  {
    Column7a();
    Column7b();
    Emit8b();
    SkipFacts();
    StepNoSkip(Fx, 6, 8, 0.000000757227896887193424, 0.000021969856876409204936, 0.450);
    StepSkip(Fx, 7, 8, 0.000000757227896887193424, 0.000021969856876409204936, 0.000189130124399968498156, 0.099);
    StepNoSkip(Fx, 8, 8, 0.000189130124399968498156, 0.000500446256129254351708, 0.450);
    StepSkip(Fx, 9, 8, 0.000189130124399968498156, 0.000500446256129254351708, 0.003510797069152526591524, 0.005);
    StepNoSkip(Fx, 10, 8, 0.003510797069152526591524, 0.00265373463132911799, 0.450);
    StepSkip(Fx, 11, 8, 0.003510797069152526591524, 0.00265373463132911799, 0.02754348983975997045, 0.265);
  }

  /** States 12 to 16 of column 8 of the forward table. */
  lemma Column8c()
    requires Fx.Valid() && Fx.T() == 12
    ensures Alpha(Fx, 12, 8) == 0.01239477603891650547615
    ensures Alpha(Fx, 13, 8) == 0.00247898473195666524993
    ensures Alpha(Fx, 14, 8) == 0.0000001479021039204471
    ensures Alpha(Fx, 15, 8) == 0.000000004636232096495076
    ensures Alpha(Fx, 16, 8) == 0.0000000011196420383232
  {
    Column7b();
    Column7c();
    Emit8c();
    SkipFacts();
    StepNoSkip(Fx, 12, 8, 0.02754348983975997045, 0.000000456913387819497, 0.450);
    StepSkip(Fx, 13, 8, 0.02754348983975997045, 0.000000456913387819497, 0.00000032804637071283, 0.090);
    StepNoSkip(Fx, 14, 8, 0.00000032804637071283, 0.000000000624971332608, 0.450);
    StepSkip(Fx, 15, 8, 0.00000032804637071283, 0.000000000624971332608, 0.000000002488093418496, 0.014);
    StepNoSkip(Fx, 16, 8, 0.000000002488093418496, 0.0, 0.450);
  }

  /** The emissions that states 0 to 5 read at timestep 9. */
  lemma Emit9a()
    requires Fx.Valid() && Fx.T() == 12
    ensures Fx.Emit(0, 9) == 0.008
    ensures Fx.Emit(1, 9) == 0.000
    ensures Fx.Emit(2, 9) == 0.008
    ensures Fx.Emit(3, 9) == 0.106
    ensures Fx.Emit(4, 9) == 0.008
    ensures Fx.Emit(5, 9) == 0.077
  {
    StateRows();
  }

  /** The emissions that states 6 to 11 read at timestep 9. */
  lemma Emit9b()
    requires Fx.Valid() && Fx.T() == 12
    ensures Fx.Emit(6, 9) == 0.008
    ensures Fx.Emit(7, 9) == 0.082
    ensures Fx.Emit(8, 9) == 0.008
    ensures Fx.Emit(9, 9) == 0.093
    ensures Fx.Emit(10, 9) == 0.008
    ensures Fx.Emit(11, 9) == 0.005
  {
    StateRows();
  }

  /** The emissions that states 12 to 16 read at timestep 9. */
  lemma Emit9c()
    requires Fx.Valid() && Fx.T() == 12
    ensures Fx.Emit(12, 9) == 0.008
    ensures Fx.Emit(13, 9) == 0.600
    ensures Fx.Emit(14, 9) == 0.008
    ensures Fx.Emit(15, 9) == 0.028
    ensures Fx.Emit(16, 9) == 0.008
  {
    StateRows();
  }

  /** States 0 to 5 of column 9 of the forward table. */
  lemma Column9a()
    requires Fx.Valid() && Fx.T() == 12
    ensures Alpha(Fx, 0, 9) == 0.00000000000022947370992
    ensures Alpha(Fx, 1, 9) == 0.0
    ensures Alpha(Fx, 2, 9) == 0.00000000017727926328036034816
    ensures Alpha(Fx, 3, 9) == 0.000000002919514897091003793536
    ensures Alpha(Fx, 4, 9) == 0.000000008615941429294824943488
    ensures Alpha(Fx, 5, 9) == 0.000000085103474579038312388376
  {
    Column8a();
    Emit9a();
    SkipFacts();
    StepFirstState(Fx, 9, 0.00000000002868421374, 0.008);
    StepSecondState(Fx, 9, 0.00000000002868421374, 0.00000000000169702234273472, 0.000);
    StepNoSkip(Fx, 2, 9, 0.00000000000169702234273472, 0.0000000221582108877023088, 0.008);
    StepSkip(Fx, 3, 9, 0.00000000000169702234273472, 0.0000000221582108877023088, 0.000000005382685458738011136, 0.106);
    StepNoSkip(Fx, 4, 9, 0.000000005382685458738011136, 0.0000010716099932031151068, 0.008);
    StepSkip(Fx, 5, 9, 0.000000005382685458738011136, 0.0000010716099932031151068, 0.000000028247250936047042952, 0.077);
  }

  /** States 6 to 11 of column 9 of the forward table. */
  lemma Column9b()
    requires Fx.Valid() && Fx.T() == 12
    ensures Alpha(Fx, 6, 9) == 0.000000082043483191355410439616
    ensures Alpha(Fx, 7, 9) == 0.000002560802526779957386922952
    ensures Alpha(Fx, 8, 9) == 0.000002650265879570428057551072
    ensures Alpha(Fx, 9, 9) == 0.000032762514504108239659276632
    ensures Alpha(Fx, 10, 9) == 0.00002236032905972119047114192
    ensures Alpha(Fx, 11, 9) == 0.000058638334203145883961233
  {
    Column8a();
    Column8b();
    Emit9b();
    SkipFacts();
    StepNoSkip(Fx, 6, 9, 0.000000028247250936047042952, 0.000010227188147983379262, 0.008);
    StepSkip(Fx, 7, 9, 0.000000028247250936047042952, 0.000010227188147983379262, 0.000020973863708153224755084, 0.082);
    StepNoSkip(Fx, 8, 9, 0.000020973863708153224755084, 0.0003103093712381502824388, 0.008);
    StepSkip(Fx, 9, 9, 0.000020973863708153224755084, 0.0003103093712381502824388, 0.00002100186724840874720694, 0.093);
    StepNoSkip(Fx, 10, 9, 0.00002100186724840874720694, 0.0027740392652167400616858, 0.008);
    StepSkip(Fx, 11, 9, 0.00002100186724840874720694, 0.0027740392652167400616858, 0.00893262570816402798335386, 0.005);
  }

  /** States 12 to 16 of column 9 of the forward table. */
  lemma Column9c()
    requires Fx.Valid() && Fx.T() == 12
    ensures Alpha(Fx, 12, 9) == 0.00017061921397664426767603088
    ensures Alpha(Fx, 13, 9) == 0.014283831887422319225660316
    ensures Alpha(Fx, 14, 9) == 0.00001983306107248468557624
    ensures Alpha(Fx, 15, 9) == 0.000069415843568195101378968
    ensures Alpha(Fx, 16, 9) == 0.000000000046046993078546208
  {
    Column8b();
    Column8c();
    Emit9c();
    SkipFacts();
    StepNoSkip(Fx, 12, 9, 0.00893262570816402798335386, 0.01239477603891650547615, 0.008);
    StepSkip(Fx, 13, 9, 0.00893262570816402798335386, 0.01239477603891650547615, 0.00247898473195666524993, 0.600);
    StepNoSkip(Fx, 14, 9, 0.00247898473195666524993, 0.0000001479021039204471, 0.008);
    StepSkip(Fx, 15, 9, 0.00247898473195666524993, 0.0000001479021039204471, 0.000000004636232096495076, 0.028);
    StepNoSkip(Fx, 16, 9, 0.000000004636232096495076, 0.0000000011196420383232, 0.008);
  }

  /** The emissions that states 0 to 5 read at timestep 10. */
  lemma Emit10a()
    requires Fx.Valid() && Fx.T() == 12
    ensures Fx.Emit(0, 10) == 0.047
    ensures Fx.Emit(1, 10) == 0.091
    ensures Fx.Emit(2, 10) == 0.047
    ensures Fx.Emit(3, 10) == 0.045
    ensures Fx.Emit(4, 10) == 0.047
    ensures Fx.Emit(5, 10) == 0.018
  {
    StateRows();
  }

  /** The emissions that states 6 to 11 read at timestep 10. */
  lemma Emit10b()
    requires Fx.Valid() && Fx.T() == 12
    ensures Fx.Emit(6, 10) == 0.047
    ensures Fx.Emit(7, 10) == 0.003
    ensures Fx.Emit(8, 10) == 0.047
    ensures Fx.Emit(9, 10) == 0.017
    ensures Fx.Emit(10, 10) == 0.047
    ensures Fx.Emit(11, 10) == 0.018
  {
    StateRows();
  }

  /** The emissions that states 12 to 16 read at timestep 10. */
  lemma Emit10c()
    requires Fx.Valid() && Fx.T() == 12
    ensures Fx.Emit(12, 10) == 0.047
    ensures Fx.Emit(13, 10) == 0.060
    ensures Fx.Emit(14, 10) == 0.047
    ensures Fx.Emit(15, 10) == 0.700
    ensures Fx.Emit(16, 10) == 0.047
  {
    StateRows();
  }

  /** States 0 to 5 of column 10 of the forward table. */
  lemma Column10a()
    requires Fx.Valid() && Fx.T() == 12
    ensures Alpha(Fx, 0, 10) == 0.00000000000001078526436624
    ensures Alpha(Fx, 1, 10) == 0.00000000000002088210760272
    ensures Alpha(Fx, 2, 10) == 0.00000000000833212537417693636352
    ensures Alpha(Fx, 3, 10) == 0.00000000013935573721671138637632
    ensures Alpha(Fx, 4, 10) == 0.000000000542166447340133950640128
    ensures Alpha(Fx, 5, 10) == 0.0000000017395007562976345402572
  {
    Column9a();
    Emit10a();
    SkipFacts();
    StepFirstState(Fx, 10, 0.00000000000022947370992, 0.047);
    StepSecondState(Fx, 10, 0.00000000000022947370992, 0.0, 0.091);
    StepNoSkip(Fx, 2, 10, 0.0, 0.00000000017727926328036034816, 0.047);
    StepSkip(Fx, 3, 10, 0.0, 0.00000000017727926328036034816, 0.000000002919514897091003793536, 0.045);
    StepNoSkip(Fx, 4, 10, 0.000000002919514897091003793536, 0.000000008615941429294824943488, 0.047);
    StepSkip(Fx, 5, 10, 0.000000002919514897091003793536, 0.000000008615941429294824943488, 0.000000085103474579038312388376, 0.018);
  }

  /** States 6 to 11 of column 10 of the forward table. */
  lemma Column10b()
    requires Fx.Valid() && Fx.T() == 12
    ensures Alpha(Fx, 6, 10) == 0.000000007855907015208504972915624
    ensures Alpha(Fx, 7, 10) == 0.000000008183848453651053329252832
    ensures Alpha(Fx, 8, 10) == 0.000000244920215098468115890279128
    ensures Alpha(Fx, 9, 10) == 0.000000645550909477796626763761152
    ensures Alpha(Fx, 10, 10) == 0.000002590773647499983216129671944
    ensures Alpha(Fx, 11, 10) == 0.000002047701199805555653649727936
  {
    Column9a();
    Column9b();
    Emit10b();
    SkipFacts();
    StepNoSkip(Fx, 6, 10, 0.000000085103474579038312388376, 0.000000082043483191355410439616, 0.047);
    StepSkip(Fx, 7, 10, 0.000000085103474579038312388376, 0.000000082043483191355410439616, 0.000002560802526779957386922952, 0.003);
    StepNoSkip(Fx, 8, 10, 0.000002560802526779957386922952, 0.000002650265879570428057551072, 0.047);
    StepSkip(Fx, 9, 10, 0.000002560802526779957386922952, 0.000002650265879570428057551072, 0.000032762514504108239659276632, 0.017);
    StepNoSkip(Fx, 10, 10, 0.000032762514504108239659276632, 0.00002236032905972119047114192, 0.047);
    StepSkip(Fx, 11, 10, 0.000032762514504108239659276632, 0.00002236032905972119047114192, 0.000058638334203145883961233, 0.018);
  }

  /** States 12 to 16 of column 10 of the forward table. */
  lemma Column10c()
    requires Fx.Valid() && Fx.T() == 12
    ensures Alpha(Fx, 12, 10) == 0.00001077510476445013712695140236
    ensures Alpha(Fx, 13, 10) == 0.0008707853661361265626378547928
    ensures Alpha(Fx, 14, 10) == 0.000672272252579255783828118132
    ensures Alpha(Fx, 15, 10) == 0.0100611565544440993088308668
    ensures Alpha(Fx, 16, 10) == 0.000003262546811913844456483272
  {
    Column9b();
    Column9c();
    Emit10c();
    SkipFacts();
    StepNoSkip(Fx, 12, 10, 0.000058638334203145883961233, 0.00017061921397664426767603088, 0.047);
    StepSkip(Fx, 13, 10, 0.000058638334203145883961233, 0.00017061921397664426767603088, 0.014283831887422319225660316, 0.060);
    StepNoSkip(Fx, 14, 10, 0.014283831887422319225660316, 0.00001983306107248468557624, 0.047);
    StepSkip(Fx, 15, 10, 0.014283831887422319225660316, 0.00001983306107248468557624, 0.000069415843568195101378968, 0.700);
    StepNoSkip(Fx, 16, 10, 0.000069415843568195101378968, 0.000000000046046993078546208, 0.047);
  }

  /** The emissions that states 0 to 5 read at timestep 11. */
  lemma Emit11a()
    requires Fx.Valid() && Fx.T() == 12
    ensures Fx.Emit(0, 11) == 0.500
    ensures Fx.Emit(1, 11) == 0.127
    ensures Fx.Emit(2, 11) == 0.500
    ensures Fx.Emit(3, 11) == 0.037
    ensures Fx.Emit(4, 11) == 0.500
    ensures Fx.Emit(5, 11) == 0.007
  {
    StateRows();
  }

  /** The emissions that states 6 to 11 read at timestep 11. */
  lemma Emit11b()
    requires Fx.Valid() && Fx.T() == 12
    ensures Fx.Emit(6, 11) == 0.500
    ensures Fx.Emit(7, 11) == 0.073
    ensures Fx.Emit(8, 11) == 0.500
    ensures Fx.Emit(9, 11) == 0.083
    ensures Fx.Emit(10, 11) == 0.500
    ensures Fx.Emit(11, 11) == 0.048
  {
    StateRows();
  }

  /** The emissions that states 12 to 16 read at timestep 11. */
  lemma Emit11c()
    requires Fx.Valid() && Fx.T() == 12
    ensures Fx.Emit(12, 11) == 0.500
    ensures Fx.Emit(13, 11) == 0.086
    ensures Fx.Emit(14, 11) == 0.500
    ensures Fx.Emit(15, 11) == 0.040
    ensures Fx.Emit(16, 11) == 0.500
  {
    StateRows();
  }

  /** States 0 to 5 of column 11 of the forward table. */
  lemma Column11a()
    requires Fx.Valid() && Fx.T() == 12
    ensures Alpha(Fx, 0, 11) == 0.00000000000000539263218312
    ensures Alpha(Fx, 1, 11) == 0.00000000000000402175624005792
    ensures Alpha(Fx, 2, 11) == 0.00000000000417650374088982818176
    ensures Alpha(Fx, 3, 11) == 0.00000000000546522355384416858137408
    ensures Alpha(Fx, 4, 11) == 0.000000000340761092278422668508224
    ensures Alpha(Fx, 5, 11) == 0.000000000016947160585981359140915536
  {
    Column10a();
    Emit11a();
    SkipFacts();
    StepFirstState(Fx, 11, 0.00000000000001078526436624, 0.500);
    StepSecondState(Fx, 11, 0.00000000000001078526436624, 0.00000000000002088210760272, 0.127);
    StepNoSkip(Fx, 2, 11, 0.00000000000002088210760272, 0.00000000000833212537417693636352, 0.500);
    StepSkip(Fx, 3, 11, 0.00000000000002088210760272, 0.00000000000833212537417693636352, 0.00000000013935573721671138637632, 0.037);
    StepNoSkip(Fx, 4, 11, 0.00000000013935573721671138637632, 0.000000000542166447340133950640128, 0.500);
    StepSkip(Fx, 5, 11, 0.00000000013935573721671138637632, 0.000000000542166447340133950640128, 0.0000000017395007562976345402572, 0.007);
  }

  /** States 6 to 11 of column 11 of the forward table. */
  lemma Column11b()
    requires Fx.Valid() && Fx.T() == 12
    ensures Alpha(Fx, 6, 11) == 0.000000004797703885753069756586412
    ensures Alpha(Fx, 7, 11) == 0.000000001297885704436475077497072888
    ensures Alpha(Fx, 8, 11) == 0.00000012655203177605958460976598
    ensures Alpha(Fx, 9, 11) == 0.000000074588362761483011066613328296
    ensures Alpha(Fx, 10, 11) == 0.000001618162278488889921446716548
    ensures Alpha(Fx, 11, 11) == 0.000000253633236325600103834071729536
  {
    Column10a();
    Column10b();
    Emit11b();
    SkipFacts();
    StepNoSkip(Fx, 6, 11, 0.0000000017395007562976345402572, 0.000000007855907015208504972915624, 0.500);
    StepSkip(Fx, 7, 11, 0.0000000017395007562976345402572, 0.000000007855907015208504972915624, 0.000000008183848453651053329252832, 0.073);
    StepNoSkip(Fx, 8, 11, 0.000000008183848453651053329252832, 0.000000244920215098468115890279128, 0.500);
    StepSkip(Fx, 9, 11, 0.000000008183848453651053329252832, 0.000000244920215098468115890279128, 0.000000645550909477796626763761152, 0.083);
    StepNoSkip(Fx, 10, 11, 0.000000645550909477796626763761152, 0.000002590773647499983216129671944, 0.500);
    StepSkip(Fx, 11, 11, 0.000000645550909477796626763761152, 0.000002590773647499983216129671944, 0.000002047701199805555653649727936, 0.048);
  }

  /** States 12 to 16 of column 11 of the forward table. */
  lemma Column11c()
    requires Fx.Valid() && Fx.T() == 12
    ensures Alpha(Fx, 12, 11) == 0.000006411402982127846390300565148
    ensures Alpha(Fx, 13, 11) == 0.000075990302800632873965987209386256
    ensures Alpha(Fx, 14, 11) == 0.0007715288093576911732329864624
    ensures Alpha(Fx, 15, 11) == 0.000464168566926379266211873588992
    ensures Alpha(Fx, 16, 11) == 0.005032209550628006576643675036
  {
    Column10b();
    Column10c();
    Emit11c();
    SkipFacts();
    StepNoSkip(Fx, 12, 11, 0.000002047701199805555653649727936, 0.00001077510476445013712695140236, 0.500);
    StepSkip(Fx, 13, 11, 0.000002047701199805555653649727936, 0.00001077510476445013712695140236, 0.0008707853661361265626378547928, 0.086);
    StepNoSkip(Fx, 14, 11, 0.0008707853661361265626378547928, 0.000672272252579255783828118132, 0.500);
    StepSkip(Fx, 15, 11, 0.0008707853661361265626378547928, 0.000672272252579255783828118132, 0.0100611565544440993088308668, 0.040);
    StepNoSkip(Fx, 16, 11, 0.0100611565544440993088308668, 0.000003262546811913844456483272, 0.500);
  }

  /**
   * The final comparison of the script: the last two states of the last
   * column and P(Y|X), exactly, and each within the script's tolerance 1e-4
   * of its expected constant.
   */
  lemma FixtureProbability()
    ensures Fx.Valid() && Fx.T() == 12
    ensures Alpha(Fx, 15, 11) == 0.000464168566926379266211873588992
    ensures Alpha(Fx, 16, 11) == 0.005032209550628006576643675036
    ensures Probability(Fx) == 0.005496378117554385842855548624992
    ensures Abs(Alpha(Fx, 15, 11) - 0.0004581489) < 0.0001
    ensures Abs(Alpha(Fx, 16, 11) - 0.0050243620) < 0.0001
    ensures Abs(Probability(Fx) - 0.0054825109) < 0.0001
  {
    FixtureValid();
    Column11c();
  }

  /**
   * The step-by-step checks at the second timestep: state 0 persists, state 1
   * sums two predecessors, state 2 (a blank) two, and state 3 (the label a
   * after n) three.
   */
  lemma FixtureSecondStep()
    ensures Fx.Valid() && Fx.T() == 12
    ensures Alpha(Fx, 0, 1) == Alpha(Fx, 0, 0) * Probs[8][1]
    ensures Alpha(Fx, 1, 1) == (Alpha(Fx, 0, 0) + Alpha(Fx, 1, 0)) * Probs[0][1]
    ensures Alpha(Fx, 2, 1) == (Alpha(Fx, 1, 0) + Alpha(Fx, 2, 0)) * Probs[8][1]
    ensures Alpha(Fx, 3, 1) == (Alpha(Fx, 1, 0) + Alpha(Fx, 2, 0) + Alpha(Fx, 3, 0)) * Probs[1][1]
  {
    FixtureValid();
    Column0a();
    Column1a();
  }

  /** The best path of the fixture, as vocabulary indices. */
  const GreedyPath: seq<nat> := [0, 0, 1, 8, 2, 3, 4, 5, 8, 6, 7, 8]

  /** Every column of the fixture has a strict maximum, at the best-path index. */
  lemma FixtureArgMax(t: nat)
    requires t < 12
    ensures ArgMax(Column(Probs, t)) == GreedyPath[t]
    ensures forall j :: 0 <= j < |Probs| && j != GreedyPath[t] ==> Probs[j][t] < Probs[GreedyPath[t]][t]
  {
    var col, k := Column(Probs, t), GreedyPath[t];
    forall j | 0 <= j < |col|
      ensures j != k ==> col[j] < col[k]
    {
      assert t == 0 || t == 1 || t == 2 || t == 3 || t == 4 || t == 5 || t == 6 || t == 7 || t == 8 || t == 9 || t == 10 || t == 11;
      assert j == 0 || j == 1 || j == 2 || j == 3 || j == 4 || j == 5 || j == 6 || j == 7 || j == 8;
    }
    ArgMaxUnique(col, k);
  }

  /** The best path of the fixture, as symbols. */
  const BestPath: seq<string> := ["n", "n", "a", "eps", " ", "g", "r", "o", "eps", "u", "p", "eps"]

  /** The collapse of the first 2 symbols of the best path. */
  lemma CollapseBestPath2()
    ensures Collapse(BestPath[..2], "eps") == ["n"]
  {
    CollapseAppend([], "n", "eps");
    assert [] + ["n"] == ["n"];
    CollapseAppend(["n"], "n", "eps");
    assert ["n"] + ["n"] == ["n", "n"];
    assert BestPath[..2] == ["n", "n"];
  }

  /** The collapse of the first 4 symbols of the best path. */
  lemma CollapseBestPath4()
    ensures Collapse(BestPath[..4], "eps") == ["n", "a"]
  {
    CollapseBestPath2();
    CollapseAppend(["n", "n"], "a", "eps");
    assert ["n", "n"] + ["a"] == ["n", "n", "a"];
    CollapseAppend(["n", "n", "a"], "eps", "eps");
    assert ["n", "n", "a"] + ["eps"] == ["n", "n", "a", "eps"];
    assert BestPath[..4] == ["n", "n", "a", "eps"];
    assert BestPath[..2] == ["n", "n"];
  }

  /** The collapse of the first 6 symbols of the best path. */
  lemma CollapseBestPath6()
    ensures Collapse(BestPath[..6], "eps") == ["n", "a", " ", "g"]
  {
    CollapseBestPath4();
    CollapseAppend(["n", "n", "a", "eps"], " ", "eps");
    assert ["n", "n", "a", "eps"] + [" "] == ["n", "n", "a", "eps", " "];
    CollapseAppend(["n", "n", "a", "eps", " "], "g", "eps");
    assert ["n", "n", "a", "eps", " "] + ["g"] == ["n", "n", "a", "eps", " ", "g"];
    assert BestPath[..6] == ["n", "n", "a", "eps", " ", "g"];
    assert BestPath[..4] == ["n", "n", "a", "eps"];
  }

  /** The collapse of the first 8 symbols of the best path. */
  lemma CollapseBestPath8()
    ensures Collapse(BestPath[..8], "eps") == ["n", "a", " ", "g", "r", "o"]
  {
    CollapseBestPath6();
    CollapseAppend(["n", "n", "a", "eps", " ", "g"], "r", "eps");
    assert ["n", "n", "a", "eps", " ", "g"] + ["r"] == ["n", "n", "a", "eps", " ", "g", "r"];
    CollapseAppend(["n", "n", "a", "eps", " ", "g", "r"], "o", "eps");
    assert ["n", "n", "a", "eps", " ", "g", "r"] + ["o"] == ["n", "n", "a", "eps", " ", "g", "r", "o"];
    assert BestPath[..8] == ["n", "n", "a", "eps", " ", "g", "r", "o"];
    assert BestPath[..6] == ["n", "n", "a", "eps", " ", "g"];
  }

  /** The collapse of the first 10 symbols of the best path. */
  lemma CollapseBestPath10()
    ensures Collapse(BestPath[..10], "eps") == ["n", "a", " ", "g", "r", "o", "u"]
  {
    CollapseBestPath8();
    CollapseAppend(["n", "n", "a", "eps", " ", "g", "r", "o"], "eps", "eps");
    assert ["n", "n", "a", "eps", " ", "g", "r", "o"] + ["eps"] == ["n", "n", "a", "eps", " ", "g", "r", "o", "eps"];
    CollapseAppend(["n", "n", "a", "eps", " ", "g", "r", "o", "eps"], "u", "eps");
    assert ["n", "n", "a", "eps", " ", "g", "r", "o", "eps"] + ["u"] == ["n", "n", "a", "eps", " ", "g", "r", "o", "eps", "u"];
    assert BestPath[..10] == ["n", "n", "a", "eps", " ", "g", "r", "o", "eps", "u"];
    assert BestPath[..8] == ["n", "n", "a", "eps", " ", "g", "r", "o"];
  }

  /** The collapse of the first 12 symbols of the best path. */
  lemma CollapseBestPath12()
    ensures Collapse(BestPath[..12], "eps") == ["n", "a", " ", "g", "r", "o", "u", "p"]
  {
    CollapseBestPath10();
    CollapseAppend(["n", "n", "a", "eps", " ", "g", "r", "o", "eps", "u"], "p", "eps");
    assert ["n", "n", "a", "eps", " ", "g", "r", "o", "eps", "u"] + ["p"] == ["n", "n", "a", "eps", " ", "g", "r", "o", "eps", "u", "p"];
    CollapseAppend(["n", "n", "a", "eps", " ", "g", "r", "o", "eps", "u", "p"], "eps", "eps");
    assert ["n", "n", "a", "eps", " ", "g", "r", "o", "eps", "u", "p"] + ["eps"] == ["n", "n", "a", "eps", " ", "g", "r", "o", "eps", "u", "p", "eps"];
    assert BestPath[..12] == ["n", "n", "a", "eps", " ", "g", "r", "o", "eps", "u", "p", "eps"];
    assert BestPath[..10] == ["n", "n", "a", "eps", " ", "g", "r", "o", "eps", "u"];
  }

  /** The best path collapses to the labels. */
  lemma FixtureCollapse()
    ensures Collapse(BestPath, "eps") == Labels
  {
    CollapseBestPath12();
    assert BestPath[..12] == BestPath;
  }

  /**
   * The greedy cross-check of the script: the best path reads
   * n n a eps space g r o eps u p eps, and it collapses to "na group".
   */
  lemma FixtureGreedy()
    ensures GreedySymbols(Probs, Vocab) == BestPath
    ensures Collapse(GreedySymbols(Probs, Vocab), "eps") == Labels
  {
    FixtureIndices();
    var path := GreedySymbols(Probs, Vocab);
    assert path == BestPath;
    FixtureCollapse();
  }

  /** The argmax of every column, as one sequence. */
  lemma FixtureIndices()
    ensures GreedyIndices(Probs) == GreedyPath
  {
    var indices := GreedyIndices(Probs);
    forall t | 0 <= t < 12
      ensures indices[t] == GreedyPath[t]
    {
      FixtureArgMax(t);
    }
  }

  /** The sum of nine entries, written out. */
  lemma SumNine(xs: seq<real>)
    requires |xs| == 9
    ensures Sum(xs, 9) == xs[0] + xs[1] + xs[2] + xs[3] + xs[4] + xs[5] + xs[6] + xs[7] + xs[8]
  {
    assert Sum(xs, 1) == xs[0];
    assert Sum(xs, 3) == xs[0] + xs[1] + xs[2];
    assert Sum(xs, 5) == xs[0] + xs[1] + xs[2] + xs[3] + xs[4];
    assert Sum(xs, 7) == xs[0] + xs[1] + xs[2] + xs[3] + xs[4] + xs[5] + xs[6];
  }

  /**
   * The column check on the fixture: every column sums to between 0.999 and
   * 1.001, so no column is flagged.
   */
  lemma FixtureNoWarnings(t: nat)
    requires t < 12
    ensures 0.999 <= ColumnSum(Probs, t) <= 1.001
    ensures !Warns(Probs, t)
  {
    var col := Column(Probs, t);
    SumNine(col);
    assert t == 0 || t == 1 || t == 2 || t == 3 || t == 4 || t == 5 || t == 6 || t == 7 || t == 8 || t == 9 || t == 10 || t == 11;
  }

}
