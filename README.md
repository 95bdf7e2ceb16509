# Sentinel-aware oblivious statistics, modelled in Dafny

This project models the statistics library that runs inside MP-SPDZ circuits
(`mpcstats/mpcstats_lib.py`), together with the earlier, partial revision of the same
library at the repository root (`mpcstats_lib.py`).

Every function of the library takes columns of fixed length. A reserved value,
`MAGIC_NUMBER = 999`, marks an entry as missing. No function branches on a secret value.
Each one selects with `if_else(cond, a, b)` and loops over every position, so each is a
total function of its input columns. The model states that function. It then proves
how that function relates to a plain reference statistic on the column with its
sentinels removed (the "genuine entries"). The list below gives, per statistic, which
reference, and under which condition.

Modules, one per component:

- `Sentinel` (`sentinel.dfy`): the sentinel, the sentinel-aware total and count, and the
  genuine entries of a column (`Genuine`, the column a plain statistic sees).
- `Averages` (`averages.dfy`): `_mean`, `mean`, `_variance`, `variance`, `pvariance`,
  `covariance`, `harmonic_mean` and `linear_regression`.
  - `_mean` and `mean` equal `PlainMean` of the genuine entries for every column. The
    result is undefined when there are none.
  - `variance` and `pvariance` equal `SampleVariance` and `PopulationVariance` of the
    genuine entries for every column with at least one genuine entry. With none,
    `variance` is 0 (the centred sum 0 divided by -1) and `pvariance` is undefined.
  - `covariance` equals `CovarianceSpec` for every pair of columns. That is the sum of
    cross deviations over the positions where both entries are genuine, divided by the
    first column's count minus 1. It equals the plain sample covariance
    `PlainCovariance` only when both columns have the same length and no sentinel
    (`CovarianceOfClean`).
  - `harmonic_mean` equals `PlainHarmonicMean` of the genuine entries for every column.
    That is n / Σ 1/x, and 0 when an entry is 0. It agrees with Python's
    `statistics.harmonic_mean` on non-empty lists without negative entries. Python
    refuses negative entries and an empty list; the circuit checks neither.
  - `linear_regression` equals `RegressionSpec`, and has no plain reference. The proved
    facts are that points exactly on a line give back its slope and intercept
    (`RegressionOfExactLine`), and that missing ys leave the slope defined
    (`RegressionWithoutYs`).
- `Median` (`median.dfy`): `median` is the rank selection by indicator-weighted sums over
  the sorted column. It equals the plain median of the genuine entries whenever there is
  at least one and all of them are below 999 (`MedianMatchesPlain`).
- `Join` (`join.dfy`): the quadratic equi-join, built in place in an `array2`.
- `Where` (`where.dfy`): the predicate filter, filled position by position into an array.
- `Mode` (`mode.dfy`): the frequency table, the forward maximum pass and the backward
  first-occurrence pass. With a genuine entry, the result is a most frequent genuine
  entry; on ties, the one that occurs first wins.
- `LegacyLib` (`legacy.dfy`): `mean` and `join` of the root revision. Its join is compared
  cell by cell with the later one.

Modelling choices:

- Keys, filters, join cells and mode values are `int`. The averaging functions work on
  `real`. Fixed-point rounding is not modelled.
- The arithmetic substrate does not fault on a division by a secret zero. It returns an
  unspecified value instead. The model returns `None` there (`Sentinel.Divide`).
- `linear_regression` returns a two-entry array `[slope, intercept]`. The model returns
  `Averages.Line`, with one `Option` per entry, because either entry can be undefined
  while the other is not.
- A product with a zero factor is zero even when the other factor is unspecified. The
  model relies on this in four places: the imputed entries of variance and covariance,
  the all-sentinel column, the zero patch of `harmonic_mean`, and the product
  slope * mean(xs) in the intercept of `linear_regression` (`Averages.MulOption`).
- The sort in `median` is an external oblivious sorting network. The model uses an
  insertion sort and proves it returns an ascending permutation (`Median.SortSorts`).
  A sorted permutation is unique (`Median.SortedUnique`), so any correct network gives
  the same median.
- A matrix argument is a sequence of columns (`m[c][r]` is row `r` of column `c`), as
  in MP-SPDZ's `Matrix(num_columns, num_rows)`. The join's result is an `array2`
  written by the same three nested-loop passes as the source.
- `covariance` indexes `data2[i]` for every `i < len(data1)`. The model therefore
  requires `|data1| <= |data2|`; a shorter second column is an index error in the
  source. Likewise `where` requires the filter to be at least as long as the data, and
  `join` requires valid key column indices and rectangular matrices.

## Model

| member | source | states |
|---|---|---|
| `Sentinel.Total` | mpcstats/mpcstats_lib.py:43 | the sentinel-aware total is the plain sum of the genuine entries |
| `Sentinel.Count` | mpcstats/mpcstats_lib.py:44 | the sentinel-aware count is the number of genuine entries, at most the column's length |
| `Sentinel.GenuineEntries` | mpcstats/mpcstats_lib.py:43-44 | the genuine entries hold no sentinel and are exactly the column's other entries, with multiplicity |
| `Sentinel.SentinelInsertion` | mpcstats/mpcstats_lib.py:43-44 | inserting a sentinel anywhere leaves the genuine entries, the total and the count unchanged |
| `Sentinel.CountComplement` | mpcstats/mpcstats_lib.py:44 | the effective size is the length minus the number of sentinel entries |
| `Sentinel.CountOfPermutation` | mpcstats/mpcstats_lib.py:77-78 | the effective size depends only on the multiset of entries, so counting after the sort gives the same size |
| `Sentinel.GenuineOfClean` | mpcstats/tests/lib.py:160-161 | on a column without sentinels, removing sentinels (as the tests do before calling the plain statistic) changes nothing |
| `Averages.MeanAndCount` | mpcstats/mpcstats_lib.py:42-45 | `_mean` returns the plain mean of the genuine entries (undefined when there are none) and their number |
| `Averages.Mean` | mpcstats/mpcstats_lib.py:67-68 | `mean` is the plain mean of the genuine entries |
| `Averages.MeanIgnoresSentinels` | mpcstats/mpcstats_lib.py:42-45 | a sentinel inserted anywhere changes neither the mean nor the count |
| `Averages.UndefinedMeanIsAllSentinel` | mpcstats/mpcstats_lib.py:45 | the mean is undefined (a division by zero) exactly when every entry is the sentinel |
| `Averages.CountZeroIsAllSentinel` | mpcstats/mpcstats_lib.py:44 | the effective size is 0 exactly when every entry is the sentinel |
| `Averages.MeanOfClean` | mpcstats/mpcstats_lib.py:42-45 | on a column without sentinels the circuit's mean is the plain mean |
| `Averages.Impute` | mpcstats/mpcstats_lib.py:53 | the imputed column keeps every genuine entry in place and puts the mean at every sentinel position |
| `Averages.SumSqDevStep` | mpcstats/mpcstats_lib.py:53-57 | one loop step of `_variance`: a genuine entry adds its squared deviation, an imputed entry adds exactly 0 |
| `Averages.CentredSumOfSquares` | mpcstats/mpcstats_lib.py:53-57 | the loop over the mean-imputed column yields the centred sum of squares of the genuine entries alone |
| `Averages.VarianceFromCentredSum` | mpcstats/mpcstats_lib.py:59-62 | dividing that sum by count - 1 (Bessel) or count gives the sample or population variance of the genuine entries |
| `Averages.VarianceOf` | mpcstats/mpcstats_lib.py:48-62 | `_variance` is the sample (Bessel) or population variance of the genuine entries; an all-sentinel column gives 0 with Bessel and is undefined without |
| `Averages.Variance` | mpcstats/mpcstats_lib.py:233-234 | `variance` is the sample variance of the genuine entries, and 0 when there are none |
| `Averages.PVariance` | mpcstats/mpcstats_lib.py:276-277 | `pvariance` is the population variance of the genuine entries |
| `Averages.VarianceIgnoresSentinels` | mpcstats/mpcstats_lib.py:48-62 | a sentinel inserted anywhere changes neither variance |
| `Averages.VarianceOfClean` | mpcstats/mpcstats_lib.py:48-62 | on a non-empty column without sentinels, `_variance` is the plain sample / population variance |
| `Averages.CrossSumStep` | mpcstats/mpcstats_lib.py:154-160 | one loop step of `covariance`: a position where either entry was imputed adds a product with a zero factor |
| `Averages.CentredCrossSum` | mpcstats/mpcstats_lib.py:154-160 | the loop over the imputed columns yields the cross deviations over the positions where both entries are genuine |
| `Averages.CovarianceFromCrossSum` | mpcstats/mpcstats_lib.py:152-161 | dividing the cross sum by count(data1) - 1 gives the covariance specification, whatever centre an undefined mean takes |
| `Averages.Covariance` | mpcstats/mpcstats_lib.py:150-161 | `covariance` equals its specification: the cross deviations over the positions where both entries are genuine, divided by count(data1) - 1; the imputed positions add nothing |
| `Averages.CovarianceOfClean` | mpcstats/mpcstats_lib.py:150-161 | on equal-length columns without sentinels, `covariance` is the plain sample covariance |
| `Averages.InverseTotal` | mpcstats/mpcstats_lib.py:262 | the sentinel-aware sum of reciprocals is undefined exactly when the column holds a 0 (a 1/0 in the circuit) |
| `Averages.InverseTotalOfGenuine` | mpcstats/mpcstats_lib.py:262 | without zeros, the sentinel-aware sum of reciprocals is the plain sum of reciprocals of the genuine entries |
| `Averages.ZeroIsGenuine` | mpcstats/mpcstats_lib.py:268-271 | the column holds a zero exactly when its genuine entries do |
| `Averages.HarmonicMean` | mpcstats/mpcstats_lib.py:260-273 | `harmonic_mean` is 0 whenever an entry is 0, and otherwise the plain harmonic mean of the genuine entries |
| `Averages.LinearRegression` | mpcstats/mpcstats_lib.py:239-257 | `linear_regression` equals the least-squares specification: slope = covariance / sample variance of xs, intercept = mean(ys) - slope * mean(xs), each undefined on its own when its inputs are |
| `Averages.RegressionWithoutYs` | mpcstats/mpcstats_lib.py:246-253 | with every y missing, the slope is still defined and is 0 when xs has a nonzero variance; only the intercept is undefined |
| `Averages.RegressionOfExactLine` | mpcstats/mpcstats_lib.py:239-257 | points lying exactly on y = a*x + b, with two different xs, give back slope a and intercept b |
| `Median.InsertSorted` | mpcstats/mpcstats_lib.py:77 | insertion into a sorted sequence keeps it sorted and adds exactly the inserted value |
| `Median.Sort` | mpcstats/mpcstats_lib.py:77 | the sort keeps the column's length (its order and entries are stated by `Median.SortSorts`) |
| `Median.SortSorts` | mpcstats/mpcstats_lib.py:77 | the sort yields an ascending permutation of the column |
| `Median.SortedUnique` | mpcstats/mpcstats_lib.py:77 | two ascending permutations of the same entries are equal, so any correct sorting network gives the same result |
| `Median.SortIsTheSortedPermutation` | mpcstats/mpcstats_lib.py:77 | the modelled sort returns any given ascending permutation of its input, so it stands for every correct sort |
| `Median.SortedExample` | tests/test_ops.py:6-11 | the test column [170, 160, 152, 180] sorts to [152, 160, 170, 180] |
| `Median.MiddleSums` | mpcstats/mpcstats_lib.py:81-87 | the indicator-weighted loop makes median_odd the entry at size/2 and median_even the average of the entries at size/2 - 1 and size/2 |
| `Median.SelectByParity` | mpcstats/mpcstats_lib.py:89 | (size%2)*median_odd + (1-size%2)*median_even is the middle entry for odd size and the mean of the two middle entries for even size |
| `Median.Median` | mpcstats/mpcstats_lib.py:71-89 | `median` is the median of the first `size` entries of the sorted column (size = effective size) |
| `Median.SortPutsSentinelsLast` | mpcstats/mpcstats_lib.py:77-78 | when genuine entries are below the sentinel, the sorted column is the sorted genuine entries followed by the sentinels |
| `Median.MedianMatchesPlain` | mpcstats/mpcstats_lib.py:71-89 | with at least one genuine entry below the sentinel, `median` equals the plain median of the genuine entries |
| `Median.MedianExample` | tests/test_ops.py:49-57 | for [170, 160, 152, 180] the median is 165 |
| `Join.OverwrittenByLastMatch` | mpcstats/mpcstats_lib.py:136-146 | after the overwrite pass over the right rows, a cell holds the value of the last matching right row |
| `Join.OverwrittenWithoutMatch` | mpcstats/mpcstats_lib.py:136-146 | without a matching right row the cell keeps its initial value |
| `Join.CopyLeft` | mpcstats/mpcstats_lib.py:123-126 | the first pass copies the left matrix into the first columns and leaves the others alone |
| `Join.FillSentinel` | mpcstats/mpcstats_lib.py:127-130 | the second pass sets the given block of columns to the sentinel and leaves the others alone |
| `Join.OverwriteRow` | mpcstats/mpcstats_lib.py:141-146 | the innermost loop writes right row j into one output row of the appended columns when the keys match |
| `Join.MatchRow` | mpcstats/mpcstats_lib.py:135-146 | for one left row, the appended cells end as the overwrite of their start by every right row in order |
| `Join.MatchRows` | mpcstats/mpcstats_lib.py:132-146 | the third pass does that for every left row and touches nothing in the left columns |
| `Join.Join` | mpcstats/mpcstats_lib.py:92-147 | `join` has num_columns_1 + num_columns_2 columns and num_rows_1 rows; the left columns equal data1 and each appended cell is the last matching right row's entry, else the sentinel |
| `Join.JoinTakesLastMatch` | mpcstats/mpcstats_lib.py:132-146 | an appended cell holds data2[k][j] for the largest j whose key matches |
| `Join.JoinWithoutMatch` | mpcstats/mpcstats_lib.py:127-146 | an appended cell with no matching right row is the sentinel |
| `Join.JoinExample` | mpcstats/mpcstats_lib.py:101-112 | the documented example joins to the documented matrix |
| `Where.Where` | mpcstats/mpcstats_lib.py:182-190 | `where` returns an array of the column's length with res[i] = data[i] where the filter holds, else the sentinel |
| `Where.SelectedAt` | mpcstats/mpcstats_lib.py:189 | a kept entry is the input entry and a dropped one is the sentinel |
| `Where.SelectedIdempotent` | mpcstats/mpcstats_lib.py:182-190 | filtering twice with the same filter equals filtering once |
| `Where.SelectedCompose` | mpcstats/mpcstats_lib.py:182-190 | two successive filters act as their pointwise conjunction |
| `Where.WhereExample` | tests/test_ops.py:85-88 | the filter x < 0 on [-123, 0, 20, 40] gives [-123, M, M, M] |
| `Mode.Occurrences` | mpcstats/mpcstats_lib.py:209 | the equality-indicator sum over the column is the value's multiplicity |
| `Mode.MaxOf` | mpcstats/mpcstats_lib.py:211-219 | the forward pass's result bounds every frequency and is 0 or one of them |
| `Mode.FirstFrom` | mpcstats/mpcstats_lib.py:221-228 | the first position at or after i holding the given frequency, or the length when there is none |
| `Mode.HighestFrequency` | mpcstats/mpcstats_lib.py:211-219 | the forward loop computes the maximum of the frequencies, starting from 0 |
| `Mode.LastMatchBackward` | mpcstats/mpcstats_lib.py:221-228 | the backward loop returns the entry at the first position of the highest frequency, 0 when there is none |
| `Mode.Mode` | mpcstats/mpcstats_lib.py:201-230 | `mode` returns the entry at the first position of highest frequency, where a sentinel entry has frequency 0 |
| `Mode.Freqs` | mpcstats/mpcstats_lib.py:207-209 | freqs[i] is 0 for a sentinel entry and otherwise the number of times data[i] occurs in the column |
| `Mode.FreqsExample` | mpcstats/mpcstats_lib.py:206-209 | the frequency table of [1, 2, 2, 3, 3, 5] is [1, 2, 2, 2, 2, 1] |
| `Mode.FreqOfGenuine` | mpcstats/mpcstats_lib.py:207-209 | a genuine entry has frequency at least 1 |
| `Mode.ModeIsMostFrequent` | mpcstats/mpcstats_lib.py:201-230 | with a genuine entry, the mode is a genuine entry occurring at least as often as any genuine entry |
| `Mode.ModeFirstOccurrenceWins` | mpcstats/mpcstats_lib.py:221-228 | on ties, the value occurring first in the column wins |
| `Mode.ModeOfSentinels` | mpcstats/mpcstats_lib.py:207-230 | an all-sentinel column yields the sentinel |
| `Mode.ModeExample` | mpcstats/mpcstats_lib.py:201-230 | the mode of [1, 2, 2, 3, 3, 5] is 2 |
| `LegacyLib.IntTotal` | mpcstats_lib.py:43 | the integer total is the sentinel-aware total of the column read as reals |
| `LegacyLib.IntCount` | mpcstats_lib.py:44 | the integer count is the effective size of the column read as reals |
| `LegacyLib.LegacyMean` | mpcstats_lib.py:42-45 | the root `mean` is undefined (a division by zero) exactly when every entry is the sentinel |
| `LegacyLib.LegacyMeanAgrees` | mpcstats_lib.py:42-45 | the root revision's `mean` equals the later revision's `mean` |
| `LegacyLib.LegacyMeanIgnoresSentinels` | mpcstats_lib.py:42-45 | a sentinel inserted anywhere does not change the root revision's `mean` |
| `LegacyLib.LegacyJoin` | mpcstats_lib.py:53-108 | the root `join` fails on column num_columns_1 + num_columns_2 exactly when num_columns_2 > num_columns_1 and there are rows; otherwise it builds the described matrix |
| `LegacyLib.LegacyJoinAgreesWhenSquare` | mpcstats_lib.py:88-91 | with num_columns_1 == num_columns_2 the root `join` builds the same matrix as the later one |
| `LegacyLib.LegacyJoinOverwritesLeftColumn` | mpcstats_lib.py:88-91 | with fewer right columns, left column num_columns_2 becomes the sentinel where the later revision keeps data1 |
| `LegacyLib.LegacyJoinCounterexample` | mpcstats_lib.py:88-91 | on join case 5 of the test suite the root revision puts the sentinel in a left cell and leaves an unmatched appended cell uninitialised |

## Findings

| source | as written | input that shows it | evidently intended | confidence | as-written member | corrected member |
|---|---|---|---|---|---|---|
| mpcstats_lib.py:91 | the sentinel pass writes column `num_columns_2 + i` | data1 = [[0,1,2,3],[152,160,170,180]], data2 = [[9,11,0,2]], keys 0 and 0 (join case 5 of tests/test_ops.py): cell [1][0] becomes 999 instead of 152, and cell [2][1] is never initialised | write column `num_columns_1 + i`, as mpcstats/mpcstats_lib.py:130 does | high, not executed | `LegacyLib.LegacyJoinCounterexample` | `Join.Join` |

## Left out

- `read_data` and `print_data`: party input and revealed output are I/O of the MP-SPDZ runtime.
- `geometric_mean` (mpcstats/mpcstats_lib.py:193-198) does no check on its input. It is left out because it relies on the fixed-point `log2_fx` and `exp2_fx` approximations, which have no exact semantics to state.
- `correlation`, `stdev` and `pstdev`: they take the substrate's approximate `sqrt`. The variances they start from are modelled.
- The sorting network behind `data.sort()`: it is abstracted as any ascending permutation.
- Fixed-point precision and rounding (`sfix.round_nearest`, the `sint`/`sfix` distinction): values are exact integers and reals.
- Obliviousness itself (which operations run and which cells are touched): the model states what each circuit computes, not how little it reveals.
- The `NotImplementedError` stubs of the root revision (`median` and the functions after `join`).
- LegacyLib.LegacyJoin: cells the root revision never writes hold whatever the allocation held. The model names that content with a ghost snapshot of the fresh matrix and does not claim it is zero.
- Median.Sort: its own contract states only the length. That it returns an ascending permutation is proved separately in `Median.SortSorts`, to keep the cost of every proof that mentions the sort small.
- Averages.HarmonicMean: a genuine zero makes 1/0 unspecified, so with no zero patch the quotient would be undefined. The model states the patched result only, with the zero factor clearing the undefined quotient.
