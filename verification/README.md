# JPD-Calculator: a Dafny model of the pairwise joint-distribution engine

JPD-Calculator takes a compiled Netica Bayesian network and the output nodes in its
nodeset `OUT`. For every unordered pair (A, B) of those nodes it reconstructs their
joint probability distribution as a labelled table. The table's first row holds B's
numeric state titles, its first column holds A's, and interior cell
[n+1, m+1] is P(A = n) · P(B = m | the state of A named by title n). From that table it computes the
covariance and the correlation of the pair. A conditional variant does the same
with every belief conditioned on one node being in a given state. It sweeps a list
of such states and reports its progress as a percentage before each pair.

The model covers the engine in `JPDCalculator.py`:

- the moment helpers `getPrior` and `getCondPrior`;
- the statistics `Covariance` and `Correlation`;
- the table builders `JPD` and `cJPD`;
- the batch drivers `allJPDs` and `allcJPDs`.

The model keeps the source's shape. The table builders fill a fresh `array2<real>`
exactly as the numpy code fills its zero matrix: header row, header column, then one
row per state of A. `Covariance` is the same double loop over an `array2`. The batch
drivers are loops that append one record per pair. Each method is proved equal to a
function that states its result as a value (`JPDTable`, `CJPDTable`,
`CovarianceOf`, `JointRecords`, `CondRecords`, `Reports`). The properties are then
proved about those functions.

The Netica engine itself is a parameter, the `Net` datatype:

- the output nodes;
- each node's state titles;
- the number each title stands for;
- the belief vector of a node under a given list of findings.

Every query in the source retracts all findings before entering its own. So
a belief is modelled as a function of the findings entered for that query alone.

Modules:

- `Network` (network.dfy): the engine as a value, with findings by state name or by state index.
- `Sums` (sums.dfy): left-to-right sums, scaling, double sums and transposition.
- `Tables` (tables.dfy): the labelled table layout, array contents, and the numpy slice assignments.
- `Moments` (moments.dfy): priors, mean and spread, covariance and correlation.
- `Pairs` (pairs.dfy): `itertools.combinations(nodes, 2)` and `sorted` on node names.
- `Joint` (joint.dfy): `JPD` and `cJPD`, and what their tables satisfy.
- `Batch` (batch.dfy): `allJPDs` and `allcJPDs`, including the progress figures.

## Model

| member | source | states |
|---|---|---|
| Tables.LayoutCell | JPDCalculator.py:47-49 | A labelled table has 0 in its corner, B's numeric titles along row 0 from column 1, A's numeric titles down column 0 from row 1, and interior cell (r, n) at [r+1, n+1]. |
| Tables.SetRow | JPDCalculator.py:48 | `a[r][1:] = xs` writes `xs` into row r from column 1 on and leaves every other cell of the array unchanged. |
| Tables.SetColumn | JPDCalculator.py:49 | `a[1:, 0] = xs` writes `xs` down column 0 from row 1 on and leaves every other cell unchanged. |
| Tables.GridIsLayout | JPDCalculator.py:47-52 | An array whose header row, header column, corner and interior hold the layout's cells holds exactly the labelled table. |
| Moments.GetPrior | JPDCalculator.py:150-156 | The prior of a node is its belief vector with no findings entered, its mean Σ value·belief, and its standard deviation, the square root of Σ (value − mean)²·belief. The quantity under the root is never negative when the beliefs are not. |
| Moments.GetCondPrior | JPDCalculator.py:158-164 | Same as the prior, with the beliefs taken under the single finding condNode = condState, entered by state name. |
| Moments.VarianceNonNegative | JPDCalculator.py:155 | With non-negative beliefs, the value given to the square root is non-negative, whatever the mean. |
| Moments.SingleStateVarianceZero | JPDCalculator.py:154-155 | A node with one certain state has mean equal to that state's value, and the value under the square root is exactly 0. |
| Moments.Correlation | JPDCalculator.py:166-167 | The correlation is a finite number exactly when stdA·stdB ≠ 0, and then it times stdA·stdB is the covariance. Otherwise the float division yields inf/nan (NonFinite). |
| Moments.CorrelationSymmetric | JPDCalculator.py:166-167 | Swapping the two priors does not change the correlation (the step `SwappedPair` uses for the correlation of the swapped pair). |
| Moments.CertainNodeCorrelation | JPDCalculator.py:155-167 | With a square root that maps 0 to 0, a node with one certain state has standard deviation 0, so its correlation with any node is inf/nan (NonFinite) whatever the covariance. |
| Moments.AddRowTerms | JPDCalculator.py:173-174 | The inner loop over interior row r adds exactly the sum of that row's covariance terms. |
| Moments.Covariance | JPDCalculator.py:169-175 | The double loop returns the double sum over interior cells of cell·(B header − meanB)·(A header − meanA), reading the headers from the table itself. |
| Moments.CovarianceTranspose | JPDCalculator.py:169-175 | Transposing the interior, swapping the headers and swapping the means gives the same covariance. |
| Pairs.IndexPairsCount | JPDCalculator.py:24 | The combinations of k positions number k·(k−1)/2. |
| Pairs.IndexPairsIncreasing | JPDCalculator.py:24 | The position pairs come in strictly increasing lexicographic order, so none repeats. |
| Pairs.IndexPairsComplete | JPDCalculator.py:24 | Every pair of positions i < j occurs among the combinations, at the returned index. |
| Pairs.Combinations | JPDCalculator.py:24 | `itertools.combinations(nodes, 2)`: the pairs (nodes[i], nodes[j]) for the position pairs i < j in itertools order, as many as there are position pairs; `CombinationsOrder` states their order, completeness and number. |
| Pairs.CombinationsOrder | JPDCalculator.py:24 | Each combination takes its first node from an earlier position than its second. Every such choice occurs exactly once, in lexicographic order, and there are C(k, 2) of them. |
| Pairs.BelowTotal | JPDCalculator.py:65 | Any two node names are comparable in string order. |
| Pairs.BelowTransitive | JPDCalculator.py:65 | The string order on names is transitive. |
| Pairs.BelowAntisymmetric | JPDCalculator.py:65 | Two names each below the other are equal. |
| Pairs.Insert | JPDCalculator.py:65 | Inserting a name into an ascending list gives an ascending list holding the same names plus the new one. |
| Pairs.SortNames | JPDCalculator.py:65 | `sorted(onodes)` is ascending and a permutation of its input. |
| Pairs.SortedUnique | JPDCalculator.py:65 | An ascending permutation is unique, so the result is Python's `sorted` whatever sorting method produces it. |
| Joint.JPD | JPDCalculator.py:35-53 | The method returns a fresh matrix that is the labelled table with interior row n equal to B's beliefs given the state of A whose name is A's title n, scaled by P(A = n). |
| Joint.CJPD | JPDCalculator.py:85-107 | As `JPD` under condNode = condState. A row whose conditional prior is 0 is all zeros. Every other row is P(B \| cond, A = n) scaled by P(A = n \| cond), with A's state entered by index. |
| Joint.JPDInteriorTotal | JPDCalculator.py:50-52 | If every posterior of B sums to 1, the interior of the table sums to the total prior mass of A. |
| Joint.CJPDDegenerateRow | JPDCalculator.py:102-104 | A state of A with conditional belief 0 gets a row of zeros, which adds exactly 0 to the table's mass. |
| Joint.CJPDInteriorTotal | JPDCalculator.py:101-106 | If every queried posterior sums to 1, the conditional table's interior sums to A's total conditional mass, with zero rows contributing nothing. |
| Joint.CJPDSkipsDegenerateQueries | JPDCalculator.py:102-106 | The conditional table does not depend on the engine's answer to the joint query of a state with zero conditional belief, because that query is never made. |
| Joint.SwappedPair | JPDCalculator.py:35-53 | For an engine obeying the chain rule on the queries `JPD` makes (each node's state entered by its title, as a name), the table of (B, A) is the table of (A, B) with headers swapped and interior transposed. Both orders give the same covariance and correlation. |
| Batch.JointPair | JPDCalculator.py:27-32 | One pass of the `allJPDs` loop yields the record [A, B, table, covariance, correlation] built from the two priors and the pair's table. |
| Batch.SwappedRecord | JPDCalculator.py:27-32 | For an engine obeying the chain rule on the title-as-name queries, the records `allJPDs` would build for (a, b) and for (b, a) have the same covariance and correlation, and the table of one is the other's transposed with headers swapped. |
| Batch.AllJPDs | JPDCalculator.py:17-33 | There is one record per combination of the output nodes, in combinations order, C(k, 2) of them. Record q is the pair's record for the q-th combination. |
| Batch.Percent | JPDCalculator.py:72 | The progress figure printed before a pair is always below 100. |
| Batch.PercentRoundsDown | JPDCalculator.py:72 | The figure is 100·progress/total rounded down: figure·total ≤ 100·progress < (figure+1)·total. |
| Batch.ReportsAppend | JPDCalculator.py:72 | Reporting a pairs and then b more gives the same figures as reporting a+b pairs, so the count carries across conditioning states. |
| Batch.PairsBeforeProduct | JPDCalculator.py:68-81 | After s conditioning states of n pairs each, the progress counter is n·s. |
| Batch.CondPair | JPDCalculator.py:73-80 | One pass of the inner `allcJPDs` loop yields the conditional record of the pair under condNode = cs. |
| Batch.CondStep | JPDCalculator.py:71-81 | One inner iteration prints the figure for progress + k and appends the k-th pair's record. |
| Batch.CondResultSet | JPDCalculator.py:70-82 | For one conditioning state, there is one record per combination, in order, and one figure per pair, counting on from progress. |
| Batch.CondSweep | JPDCalculator.py:67-83 | For each state in order, its record set. The figures printed over the whole sweep are those of pairs 0 … total − 1. |
| Batch.AllCJPDs | JPDCalculator.py:55-83 | There is one record set per conditioning state, in the given order, each over the combinations of the sorted output nodes (C(k, 2) records). The printed figures are ⌊100·i/total⌋ for i = 0 … total − 1, where total = pairs × states. |

## Left out

- NeticaCode.py, the Netica wrapper, is not part of this model. The engine is the uninterpreted `belief` function of `Net`, and retracting findings is implicit in every query.
- The drawing functions `drawAllJPDs` and `drawJPD` (JPDCalculator.py:113-145) only plot results. They are out of scope.
- Console output is not modelled: the prints of the two priors (lines 74 and 76) and of "zero belief vector" (line 104). The progress figures of line 72 are returned as the `reported` sequence.
- Parsing titles with `float(title)` is the uninterpreted function `numeric`. A title that is not a number, which makes Python raise ValueError, is not modelled.
- Floating point: all arithmetic is on exact reals. Rounding, and the order-dependent errors of summation, are not captured. Only the division in `Correlation` models the non-finite outcome (`NonFinite` for inf or nan).
- The square root (`np.sqrt`) is an abstract parameter `sqrt`. No property of it is used, except that `Moments.CertainNodeCorrelation` assumes sqrt(0.0) == 0.0, which np.sqrt satisfies.
- Batch.Percent: uses exact integer floor division. The source divides two floats and truncates. The two agree whenever the total number of pairs is below 2^46, far beyond any network.
- The records hold the contents of each table as a sequence of rows, not the numpy array object itself. Each table is a fresh array that the source never updates afterwards, so no aliasing is lost.
- Joint.SwappedPair: the hypothesis `ChainRule` says P(A = n) times B's beliefs given the state of A named by A's title n equals P(B = m) times A's beliefs given the state of B named by B's title m. It is a hypothesis about the engine's answers to those title-as-name queries. It is not derived from Bayesian inference, which the model does not contain, and it is the chain rule only when each title names the state at its own position.
- `JPD` (JPDCalculator.py:52) enters A's state title as a state *name* (the default `rank=False` of `Finding` looks the state up by name). Its rows are therefore P(B | A = n) only when title n is also the name of state n. The header of JPDCalculator.py:7-8 gives output nodes numeric titles and reserves names for input nodes. `cJPD` (JPDCalculator.py:106) enters A's state by index instead. The model keeps both queries as written (`Joint.TitleFinding`, `Joint.JointFindings`) and promises nothing about the engine's lookup of a title as a name.
- Joint.JPDInteriorTotal, Joint.CJPDInteriorTotal: assume that the posteriors the engine returns sum to 1. The model does not derive that from the engine.
