# CTC forward recursion, modelled in Dafny

This project models the CTC forward (alpha) recursion of Graves et al. (2006), section 4.1. The repository copies it into four Python scripts: `ctc_calculations.py`, `full_verify.py`, `verify_ctc.py` and `save_results.py` under `speech/ctc/`. The copies differ only in how they spell the blank (`"ε"`, `"eps"`, `"blank"`). The model writes the algorithm once, with the blank as a parameter. Probabilities are exact `real`s.

Each script does the same four things:

1. It builds the extended sequence `Z = [blank, Y0, blank, Y1, …, blank]` from the labels `Y` with an append loop. `full_verify.py` has an extra branch for the space label, which appends the same symbol.
2. It fills a zero-initialised `S × T` table in place.
   - Column 0 holds the emissions of `Z[0]` and `Z[1]`.
   - Every later cell `(s, t)` is the sum of two or three cells of column `t-1`, times the emission of `Z[s]` at `t`:
     - state 0 only persists;
     - state 1 sums states 0 and 1;
     - a state `s ≥ 2` sums `s-1` and `s`, and also `s-2` unless `Z[s]` is the blank or repeats `Z[s-2]` (the skip rule).
3. It reads `P(Y|X) = alpha[S-2, T-1] + alpha[S-1, T-1]`.
4. Three of the scripts cross-check with greedy decoding. They take the argmax of every column, then collapse the result: a symbol is kept when it is not the blank and differs from the raw symbol before it.

`full_verify.py` also does two more things:
- it checks that every column of its literal 9 × 12 matrix sums to 1 within 0.01;
- it compares the result against constants of an earlier run, within 1e-4.

The modules follow those steps:

- `ExtendedSequence` (`extended.dfy`): the recursive definition `Extended`, its positional shape `Interleaves`, and the append loops.
- `Emission` (`emission.dfy`): the matrix, its columns and column sums.
- `Forward` (`forward.dfy`): the pure specification `Alpha` (recursion on `t`, through `Incoming`, the mass arriving from column `t-1`), the table-filling method `ForwardAlgorithm` over an `array2<real>`, and the lemmas about the recursion.
- `Paths` (`paths.dfy`): the alignments the recursion sums over, and how they relate to `Alpha` and to the collapse.
- `PathMass` (`pathmass.dfy`): a listing of all state sequences of a given length, each exactly once (`AllSeqsMembers`, `AllSeqsDistinct`), and the sum of path probabilities over it. It proves that the forward variables are those sums, so the recursion counts every path once.
- `Greedy` (`greedy.dfy`): argmax, the collapse as a function and as the `prev` loop, and its laws.
- `Display` (`display.dfy`): the `Z_display` state names of the printed tables.
- `ColumnCheck` (`column_check.dfy`): the column-sum warning loop.
- `Fixture` (`fixture.dfy`): the literal matrix of `full_verify.py`. Its whole 17 × 12 table is computed exactly, column by column, and every check of that script is stated about it.

The exact fixture values are:
- `alpha[15,11] = 0.000464168566926379266211873588992`;
- `alpha[16,11] = 0.005032209550628006576643675036`;
- `P(Y|X) = 0.005496378117554385842855548624992`.

They differ from the script's expected constants (`0.0004581489`, `0.0050243620`, `0.0054825109`) by up to 1.4e-5. So the comparison passes at the tolerance the code uses, 1e-4, and would fail at 1e-6. The model follows the code.

The model needs these preconditions, which the scripts rely on without checking them:
- `Lattice.Valid`:
  - the matrix is rectangular with `T ≥ 1`;
  - `Z` has at least two states, because `Z[1]` is read at initialisation, so `Y` is not empty;
  - every symbol of `Z` maps to a row.
- The blank does not occur in `Y`, where a lemma needs it.

## Model

| member | source | states |
|---|---|---|
| ExtendedSequence.Extended | speech/ctc/ctc_calculations.py:23-28 | Z has 2·\|Y\|+1 states and starts with the blank |
| ExtendedSequence.BuildExtended | speech/ctc/ctc_calculations.py:23-28 | the append loop yields the interleaving of blanks and labels (length 2·\|Y\|+1, blank at `2i`, `Y[i]` at `2i+1`), equal to the recursive `Extended`; the same loop is verify_ctc.py:17-22 and save_results.py:16-21 with the blank spelled "blank" |
| ExtendedSequence.BuildExtendedWithSpaceBranch | speech/ctc/full_verify.py:158-167 | the extra space branch appends the same label, so Z is still the plain interleaving |
| ExtendedSequence.ExtendedInterleaves | speech/ctc/save_results.py:16-21 | the recursive Z has the positional shape: blank at `2i`, `Y[i]` at `2i+1` |
| ExtendedSequence.ExtendedAt | speech/ctc/ctc_calculations.py:23-28 | `Z[2k]` is the blank for every `k ≤ \|Y\|`, and `Z[2k+1] = Y[k]` |
| ExtendedSequence.InterleavesUnique | speech/ctc/verify_ctc.py:17-22 | the positional shape determines Z: only `Extended(Y, blank)` has it |
| ExtendedSequence.ExtendedAlternates | speech/ctc/verify_ctc.py:17-22 | with the blank not among the labels, Z starts and ends with the blank and holds it exactly at even positions |
| Forward.Alpha | speech/ctc/ctc_calculations.py:119-155 | the definition of the forward variable (column 0 from `Z[0]` and `Z[1]`, every later cell the incoming mass times the emission); it carries no contract of its own, and the lemmas below and `PathMass.AlphaIsPathMass` state what it means |
| Forward.Incoming | speech/ctc/ctc_calculations.py:133-155 | the definition of the mass reaching state s from column `t-1`, with the four branches of the cell update; no contract of its own |
| Forward.Probability | speech/ctc/ctc_calculations.py:178 | the definition of P(Y\|X) as the sum of the last two forward variables at the last timestep; no contract of its own, `PathMass.ProbabilityIsCollapsingMass` states what it means |
| Forward.ForwardAlgorithm | speech/ctc/ctc_calculations.py:103-157 | returns a newly allocated `S × T` table. Column 0 holds the emissions of `Z[0]` and `Z[1]` and zeros below. Every cell equals `Alpha(s, t)`. The same loop is full_verify.py:176-211, verify_ctc.py:77-106 and save_results.py:61-90 |
| Forward.FillColumn | speech/ctc/ctc_calculations.py:127-155 | given column `t-1` correct, the inner loop makes every cell of column `t` equal `Alpha(s, t)` and changes no other column |
| Forward.CellValue | speech/ctc/ctc_calculations.py:129-155 | the four-branch cell update equals `Alpha(s, t)` while trusting only rows `s`, `s-1` (s ≥ 1) and `s-2` (when the skip is allowed) of column `t-1` |
| Forward.StepNoSkip | speech/ctc/ctc_calculations.py:146-150 | at a blank or repeated state `s ≥ 2`, `alpha[s,t] = (alpha[s-1,t-1] + alpha[s,t-1]) · P[Z[s], t]`: `s-2` does not take part |
| Forward.StepSkip | speech/ctc/verify_ctc.py:101-104 | at any other state `s ≥ 2`, `alpha[s,t] = (alpha[s-2,t-1] + alpha[s-1,t-1] + alpha[s,t-1]) · P[Z[s], t]` |
| Forward.StepSecondState | speech/ctc/save_results.py:76-79 | state 1 sums states 0 and 1 of the previous column |
| Forward.StepFirstState | speech/ctc/save_results.py:74-75 | state 0 only persists |
| Forward.SequenceProbability | speech/ctc/ctc_calculations.py:178 | P(Y\|X) is the sum of the last two states of the last column, and is non-negative when the emissions are; the same sum is verify_ctc.py:133 and save_results.py:127 |
| Forward.AlphaFirstState | speech/ctc/ctc_calculations.py:133-135 | `alpha[0,t]` is the product of the blank's emissions at timesteps `0..t` |
| Forward.AlphaNonNegative | speech/ctc/ctc_calculations.py:117-155 | non-negative emissions give non-negative forward variables |
| Forward.AlphaUnreachable | speech/ctc/ctc_calculations.py:117-155 | `alpha[s,t] = 0` whenever `s > 2t+1`: states advance at most two per step |
| Forward.AlphaCausal | speech/ctc/save_results.py:69-88 | `alpha[s,t]` depends only on `Z[0..s]`, the blank and the emissions of states `0..s` at timesteps `0..t`. Two inputs that agree there give the same value |
| Forward.SkipRuleOnLabels | speech/ctc/full_verify.py:200-209 | on the Z of blank-free labels, state `s ≥ 2` may skip iff it is a label state whose label differs from the previous label, and the skipped state is then a blank |
| Paths.NonZeroHasPath | speech/ctc/ctc_calculations.py:127-155 | every non-zero `alpha[s,t]` is the end of an alignment path of `t+1` states. A path starts in state 0 or 1 and at each step stays, advances one state, or skips where the rule allows |
| Paths.PathHasPositiveAlpha | speech/ctc/ctc_calculations.py:127-155 | with positive emissions, the end of every path has a positive forward variable. So `alpha[s,t] ≠ 0` exactly when state s is reachable at t |
| Paths.PathCollapse | speech/ctc/ctc_calculations.py:141-155 | every path through the Z of blank-free labels reads a symbol sequence that collapses to the labels it has passed, `Y[..(s+1)/2]` |
| Paths.CompletePathCollapse | speech/ctc/ctc_calculations.py:178 | the paths summed into P(Y\|X), those ending in one of the last two states, collapse to exactly Y |
| Paths.CollapsesToLabels | speech/ctc/ctc_calculations.py:178 | a path collapses to Y if and only if it ends in one of the last two states, so the final sum leaves out no path that reads Y |
| PathMass.AlphaIsPathMass | speech/ctc/ctc_calculations.py:117-155 | `alpha[s,t]` equals the total probability (product of emissions) of all paths of `t+1` states ending in s. The paths are taken from an independent listing of every state sequence, not from the recursion |
| PathMass.ProbabilityIsPathMass | speech/ctc/ctc_calculations.py:178 | P(Y\|X) is the path mass of the last two states at the last timestep |
| PathMass.ProbabilityIsCollapsingMass | speech/ctc/ctc_calculations.py:178 | P(Y\|X) is the total probability of all paths of T states whose symbols collapse to Y |
| Greedy.ArgMax | speech/ctc/ctc_calculations.py:307 | the index of a maximal entry of the column, the first one among equal maxima |
| Greedy.GreedyIndices | speech/ctc/full_verify.py:283 | one index per timestep: the first maximal entry of its column, the tie rule of `argmax` |
| Greedy.GreedySymbols | speech/ctc/verify_ctc.py:148-149 | one vocabulary symbol per timestep: the entry of the vocabulary at the greedy index of that column, which is the column's first maximum |
| Greedy.Collapse | speech/ctc/verify_ctc.py:152-157 | the output never contains the blank and is no longer than the path |
| Greedy.CollapseLoop | speech/ctc/ctc_calculations.py:344-349 | the loop with `prev` computes exactly `Collapse`; the same loop is full_verify.py:289-294 and verify_ctc.py:152-157 |
| Greedy.CollapseAppend | speech/ctc/ctc_calculations.py:346-349 | one more symbol `c` is emitted iff `c` is not the blank and differs from the raw previous symbol |
| Greedy.CollapseIdentity | speech/ctc/ctc_calculations.py:344-349 | a path with no blank and no two equal neighbours collapses to itself |
| Greedy.CollapseRepeat | speech/ctc/ctc_calculations.py:344-349 | equal neighbours merge |
| Greedy.CollapseBlankSeparates | speech/ctc/ctc_calculations.py:344-349 | a blank separates, so a blank between equal symbols keeps both |
| Greedy.CollapseExtended | speech/ctc/ctc_calculations.py:344-349 | Z itself, read as a path, collapses back to Y when the blank is not a label |
| Display.DisplayName | speech/ctc/verify_ctc.py:117-124 | a name is "eps" iff the state is the blank (or is itself "eps"), "sp" iff it is the space (or "sp"); every other state keeps its symbol |
| Display.DisplayNames | speech/ctc/verify_ctc.py:117-124 | `Z_display` has one name per state: "blank" → "eps", " " → "sp", any other symbol itself; the same loop is save_results.py:108-115 |
| Display.DisplayOfExtended | speech/ctc/verify_ctc.py:117-124 | on an extended sequence the names are "eps" exactly at even states, and label names at odd ones |
| ColumnCheck.ColumnWarnings | speech/ctc/full_verify.py:150-154 | the columns reported are exactly those whose sum is more than 0.01 away from 1, in increasing order. No matrix is rejected |
| Fixture.FixtureExtended | speech/ctc/full_verify.py:158-167 | "na group" gives 17 states, and the fixture's Z is its interleaving |
| Fixture.FixtureSkips | speech/ctc/full_verify.py:200-209 | in "na group" every label state `s ≥ 2` takes the three-predecessor branch and every blank state the two-predecessor one |
| Fixture.FixtureSecondStep | speech/ctc/full_verify.py:226-249 | the four step-by-step checks at the second timestep hold |
| Fixture.FixtureProbability | speech/ctc/full_verify.py:254-278 | exact values of `alpha[15,11]`, `alpha[16,11]` and P(Y\|X) on the fixture, each within 1e-4 of the script's expected constant |
| Fixture.FixtureArgMax | speech/ctc/full_verify.py:283 | every fixture column has a strict maximum at the best-path index |
| Fixture.FixtureGreedy | speech/ctc/full_verify.py:283-298 | the best path reads n n a eps ␣ g r o eps u p eps and collapses to "na group" |
| Fixture.FixtureNoWarnings | speech/ctc/full_verify.py:150-154 | every fixture column sums to between 0.999 and 1.001, so none is flagged |

## Left out

- Random fixture synthesis (`generate_probs`, NumPy's RNG and Dirichlet sampling) is not modelled. The matrix is an input; the only concrete matrix is the literal one of `full_verify.py`.
- The loss `-log P(Y|X)`: `real` has no logarithm.
- IEEE float rounding and underflow: every value is an exact real. So the fixture values are exact decimals rather than the script's floats.
- Console, LaTeX and file output are not modelled. This covers:
  - the `> 1e-10` display threshold;
  - the warning text, which numbers columns from 1 where the model reports 0-based timesteps;
  - the `"ε"`/`"␣"` labels of the console table and of the greedy plot in `ctc_calculations.py`;
  - all plotting;
  - writing `ctc_results.txt`.
- The empty label sequence is excluded by `Lattice.Valid` (`|Z| ≥ 2`), not supported: the scripts fail reading `Z[1]` there.
- Greedy.ArgMax: NumPy's `argmax` is a library call, so it is a pure function with its tie rule (first maximum), not a loop.
- ColumnCheck.ColumnWarnings: `probs.sum(axis=0)` is a library call. The column sum is the pure `ColumnSum`, recomputed per column rather than stored in an array first.
- Forward.SequenceProbability: reads S and T off the dimensions of the filled table, where ctc_calculations.py:178 and full_verify.py:254 use the script-level `S = len(Z)` and `T = 12` (ctc_calculations.py:18,28; full_verify.py:146,167). The table is `|Z| × T` of the matrix, so the two agree on every matrix the scripts build, all of which have 12 columns.
- ColumnCheck.ColumnWarnings: loops over the matrix's own number of columns, `Steps(probs)`, where full_verify.py:146,152 loops over the constant `T = 12`. The two agree on the literal 9 × 12 matrix, which is the only one that script checks.
- The scripts compare the state symbol with the literal blank spelling; the model compares it with the lattice's `blank`, which is that spelling in every script.
