# Place detector scan features, modelled in Dafny

A model of the feature-extraction core of `place_detector.h`, which turns one 2D
range scan into a numeric feature vector for a place classifier. Covered here:

- the range-difference statistics: `n_gaps` counts neighbouring range pairs that
  differ by more than a threshold, and `mean_sdev_range_diff` reports the mean and
  population spread of the clipped pair differences. Both include the wrap pair
  (last, first).
- `feature_set_a`, which builds the 70-entry range-statistics block from those two
  in three stepped threshold loops.
- the three-point `orientation` test and the single monotone pass of
  `convex_hull_indices`.
- the centre of gravity `cog` of the polygon vertices.

Every `double` is a Dafny `real`. The square root is a parameter `sqrt: real -> real`
about which nothing is assumed. `DBL_MAX` is its exact value (2 - 2^-52) * 2^1023.
The loops that grow a vector by `push_back` are methods over a `seq` that is
reassigned. Each is proved equal to a specification function, and the
promised properties are lemmas about those functions.

Modules:

- `Sums` (`sums.dfy`): left folds for `accumulate` and `inner_product`, mean, the
  variance term, and their algebra.
- `RangeStatistics` (`range_statistics.dfy`): `n_gaps` and `mean_sdev_range_diff`.
- `FeatureSet` (`feature_set.dfy`): `feature_set_a` and the layout of its result.
- `Geometry` (`geometry.dfy`): points, the cross product and `orientation`.
- `ConvexHull` (`convex_hull.dfy`): `convex_hull_indices`.
- `Centroid` (`centroid.dfy`): `cog`.

The turn test on line 107 of `convex_hull_indices` looks at the last two vertices of
the polygon. A Graham scan looks at the top two stack entries instead. The model
takes the test as a parameter `TurnTest`: `PolygonTail` is the code as written,
`StackTop` is the intended scan. The index-level invariants are proved for both.

Readings adopted for lines of the source that do not compile:

- `scanMeas` inside `convex_hull_indices` is `scanMeasCoords`.
- The bare `return;` on line 88 returns an empty list.
- `convexHullIndices` on lines 92 and 98 is `convHullInds`.
- The loop bound `i<scanMeasCoords` on line 154 is `size()`.
- The undeclared `mean` on line 305 is the raw mean pushed on line 303.
- `feature_set_a` returns `featureVec` (line 324 has no `return`).

Behaviour of the code as written that the model keeps:

- Entry 0 of `lenDiff` (the wrap pair) is never clipped (line 343).
- `convex_hull_indices` makes no closing pass after the forward loop.
- The block built by `feature_set_a` has 70 entries (2 + 20 + 2 + 40 + 6).
- `cog` scales the x-sum by n and divides it by n * n. Over the reals that is the plain
  mean, and `Centroid.Cog` proves it.

## Model

| member | source | states |
|---|---|---|
| RangeStatistics.NGaps | include/place_detector.h:327-337 | The loop's count equals `GapCount`: the number of the n pairs (wrap pair first) whose absolute difference exceeds the threshold. It is at most n. |
| RangeStatistics.GapCountNegativeThreshold | include/place_detector.h:330-334 | A negative threshold counts all n pairs, the wrap pair included. |
| RangeStatistics.GapCountFlatScan | include/place_detector.h:330-334 | A scan of equal ranges has no gaps at any threshold of 0 or more. |
| RangeStatistics.GapCountAboveAll | include/place_detector.h:330-334 | When every pair, wrap pair included, differs by more than the threshold, the count is n. |
| RangeStatistics.GapCountExamples | include/place_detector.h:327-337 | Worked scans: [10,10,10,10] at threshold 1 gives 0; [10,20,10,20] at threshold 5 gives 4. |
| RangeStatistics.GapCountAntitone | include/place_detector.h:330-334 | A higher threshold never gives more gaps. |
| RangeStatistics.CountAboveAntitone | include/place_detector.h:334 | Counting entries above a threshold is non-increasing in the threshold. |
| RangeStatistics.MeanSdevRangeDiff | include/place_detector.h:340-353 | The loop builds `lenDiff` as exactly the n clipped pair differences (wrap pair first, unclipped). It returns their mean and `sqrt(sqSum/n - mean*mean)`. |
| RangeStatistics.WrapEntryUnclipped | include/place_detector.h:343 | Entry 0 of `lenDiff` is the unclipped difference of the first and last range, whatever the threshold. |
| RangeStatistics.ClippedEntriesBounded | include/place_detector.h:345-346 | With ranges and threshold of 0 or more, every entry after the wrap entry is at most the threshold. |
| RangeStatistics.ClippedDiffsNoClip | include/place_detector.h:345-346 | A threshold at or above every range leaves the differences unclipped. |
| RangeStatistics.NoClipEqualsDblMax | include/place_detector.h:287 | Any threshold at or above every range gives the same mean and spread as the call with `DBL_MAX`. Both are the statistics of the unclipped differences. |
| RangeStatistics.ZeroThresholdMean | include/place_detector.h:340-348 | Threshold 0 on ranges of 0 or more gives mean abs(r[0] - r[n-1]) / n. |
| RangeStatistics.RangeDiffMeanNonNegative | include/place_detector.h:348 | The mean of `lenDiff` is never negative. |
| RangeStatistics.RangeDiffRadicandNonNegative | include/place_detector.h:349-350 | In exact arithmetic the value under the square root is never negative. |
| Sums.RadicandNonNegative | include/place_detector.h:349-350 | For any non-empty sequence, sumSq/n - mean^2 >= 0. |
| Sums.ScaledSumIsMean | include/place_detector.h:156-160 | Summing n * x[i] and dividing by n * n gives the mean of the x[i]. |
| Sums.MeanShift | include/place_detector.h:150-164 | Adding d to every entry adds d to the mean. |
| Sums.MeanNonNegative | include/place_detector.h:348 | Entries of 0 or more have a mean of 0 or more. |
| FeatureSet.FeatureSetA | include/place_detector.h:283-324 | The method's vector equals `FeatureVector` and has 70 entries. `FeatureVector` is the no-clip statistics, then the 10 clipped statistics, then the raw mean and spread, then the 40 + 6 gap counts. |
| FeatureSet.AppendClippedStats | include/place_detector.h:292-301 | The loop over thresholds 0, 5, ... below 50 appends exactly the 10 (mean, sdev) pairs, in threshold order. |
| FeatureSet.AppendFineGaps | include/place_detector.h:308-315 | The loop over thresholds 0, 0.5, ... below 20 appends exactly the 40 gap counts, in threshold order. |
| FeatureSet.AppendCoarseGaps | include/place_detector.h:317-323 | The loop over thresholds 20, 25, ... below 50 appends exactly the 6 gap counts, in threshold order. |
| FeatureSet.ClipBlockAt | include/place_detector.h:295-301 | The clipped block has 2k entries; entries 2j and 2j+1 are the mean and spread at threshold 5j. |
| FeatureSet.GapBlockAt | include/place_detector.h:311-323 | A gap block has k entries; entry j is the gap count at the j-th grid point. |
| FeatureSet.FeatureVectorLayout | include/place_detector.h:283-324 | The vector has 70 entries. [0,1] are the statistics at `DBL_MAX`. [2+2k, 3+2k] are the statistics at 5k for k < 10. [22] is the raw mean and [23] the raw spread. [24+j] is `n_gaps` at 0.5j for j < 40 and at 20 + 5(j-40) for 40 <= j < 46. |
| FeatureSet.GapThresholdMonotone | include/place_detector.h:311-323 | The gap thresholds rise along entries 24..69, across both grids. |
| FeatureSet.GapEntriesNonIncreasing | include/place_detector.h:311-323 | The 46 gap counts (entries 24..69) never increase along the vector. |
| Geometry.TruncToInt | include/place_detector.h:119 | Converting to `int` truncates toward zero: for v >= 0 the result i satisfies i <= v < i + 1, and for v <= 0 it satisfies i - 1 < v <= i. |
| Geometry.Orientation | include/place_detector.h:117-123 | The result is always 0, 1 or 2. |
| Geometry.OrientationBands | include/place_detector.h:119-122 | Because of truncation, 0 means the cross product is strictly between -1 and 1, 1 means it is at least 1, and 2 means it is at most -1 (each both ways). |
| Geometry.TruncNegate | include/place_detector.h:119 | Truncation toward zero commutes with negation. |
| Geometry.OrientationSwap | include/place_detector.h:117-123 | Swapping p and r keeps "collinear" and exchanges 1 and 2. |
| Geometry.OrientationTranslate | include/place_detector.h:117-123 | Moving all three points by the same vector leaves the result unchanged. |
| Geometry.OrientationRepeatedPoint | include/place_detector.h:117-123 | A triple whose last two points coincide is reported collinear. |
| ConvexHull.PopWhile | include/place_detector.h:107-108 | What the inner loop keeps is a non-empty prefix of the stack, and the turn test passes on it unless one entry is left. |
| ConvexHull.PopFailedTurns | include/place_detector.h:107-108 | The inner `while` leaves exactly `PopWhile` of the stack. |
| ConvexHull.ConvexHullIndices | include/place_detector.h:84-113 | The method returns `HullIndices`: the early answers for n < 3, otherwise the seeded stack after one pop-then-push step per later index. |
| ConvexHull.PopKeepsInvariant | include/place_detector.h:107-108 | Popping while more than one entry remains keeps the stack invariant (starts at 0, strictly increasing, below i). |
| ConvexHull.PushKeepsInvariant | include/place_detector.h:109 | Pushing i after the inner loop keeps the invariant for i + 1. Under the stack-top test the new triple turns counter-clockwise. |
| ConvexHull.PopWhileKeepsInvariant | include/place_detector.h:107-108 | The whole inner loop keeps the stack invariant. |
| ConvexHull.PassKeepsInvariant | include/place_detector.h:101-110 | Every stack of the pass satisfies the invariant. |
| ConvexHull.HullShape | include/place_detector.h:84-113 | n = 0, 1, 2 give [], [0], [0, 1]. For n >= 3 the result starts at 0 (never popped, by the `size()>1` guard) and ends at n - 1. It has between 2 and n entries. For any turn test it is strictly increasing within 0..n-1. |
| ConvexHull.HullTurnsLeft | include/place_detector.h:105-110 | With the stack-top test, every three consecutive result entries whose last one the loop pushed turn counter-clockwise. |
| ConvexHull.LeftTurnsNeverPop | include/place_detector.h:107 | On a polygon whose consecutive triples all turn counter-clockwise, the stack-top test passes on 0..i-1. |
| ConvexHull.PassKeepsLeftTurns | include/place_detector.h:101-110 | On such a polygon the stack-top pass keeps every index up to each step. |
| ConvexHull.HullKeepsLeftTurningPolygon | include/place_detector.h:84-113 | On a polygon whose consecutive triples all turn counter-clockwise, the stack-top pass returns every index 0..n-1. |
| ConvexHull.PopWhileAtLastVertex | include/place_detector.h:107 | As written, at the last vertex the test compares that vertex with itself (collinear), so everything above the bottom entry is popped. |
| ConvexHull.HullAsWrittenCollapses | include/place_detector.h:105-110 | As written, every polygon of four or more vertices yields [0, n-1]. |
| ConvexHull.SquareTurnsLeft | include/place_detector.h:117-123 | The four corners of a square listed counter-clockwise turn left at every consecutive triple. |
| ConvexHull.SquareHulls | include/place_detector.h:84-113 | On that square the code as written returns [0, 3]; the stack-top test returns [0, 1, 2, 3]. |
| Centroid.Cog | include/place_detector.h:150-164 | The loop's x-total is the sum of n * x[i] and its y-total the sum of y[i]. After the divisions the result is exactly the arithmetic mean of the vertices. |
| Centroid.CogScaling | include/place_detector.h:160-161 | Dividing the x-total by n * n and the y-total by n gives the mean point. |
| Centroid.MeanPointTranslate | include/place_detector.h:150-164 | Moving every vertex by (dx, dy) moves the centroid by (dx, dy). |
| Centroid.MeanPointConstant | include/place_detector.h:150-164 | The centroid of copies of one point p is p. |

## Left out

- `area_perimeter_polygon` is not part of this model. Its loop places the vertices
  with `cos` and `sin` and sums edge lengths with `sqrt`, so a model would be almost
  entirely uninterpreted functions. It also reads the uninitialised `theta` (line
  242), places vertex i + 1 at the previous angle (line 254) and recomputes the wrap
  point from the last angle (lines 269-270), so it has no definite behaviour to match.
- `dist`, `convex_perimeter`, `circumscribed_circle_area`, `compactness`,
  `roundness`, `eccentricity` and `form_factor` are not part of this model. They are
  short floating-point formulas over `sqrt` and the undeclared `pi_`, so there is
  little to prove beyond restating them.
- `normalized_central_moments` is not part of this model. It uses undeclared names
  and its accumulators are not the moments they are named after, so it has no
  definite behaviour to model.
- `update_training_data` is not part of this model (file and CSV parsing).
- The class fields, logging, `load_params` and `get_feature_set` are not part of this
  model (ROS plumbing).
- Floating-point rounding is not modelled: sums, products and quotients are exact
  reals. The steps 0.5 and 5 of the threshold loops are exact in binary, so the
  stepped `double` counters are integer counts k with threshold k * step.
- The square root is a caller-supplied function; the model proves only that its
  argument is not negative.
- The values `feature_set_a` pushes are reals; the conversion of the `int` gap
  count to `double` is `as real`.
- `convex_hull_indices` returns its indices as `double`s; the model keeps them as
  natural numbers. Its unused parameter `longestRangeIndx` is dropped.
- Geometry.Orientation: the cross product is exact, so a product that rounding in
  `double` would move across an integer boundary can be classified differently.
  The model also assumes the product fits in an `int`: `TruncToInt` is unbounded,
  while storing a product of magnitude 2^31 or more in `int val` (line 119) is
  undefined behaviour in the source (commonly it gives `INT_MIN`, so a large positive
  product reads as 2).
- Centroid.Cog: requires at least one vertex. With none the source divides 0 by 0
  and returns NaN, which reals cannot represent.
- RangeStatistics.NGaps, RangeStatistics.MeanSdevRangeDiff and
  FeatureSet.FeatureSetA: require a non-empty scan. The source reads `scanMeas[0]`
  and loops to the unsigned `size()-1`, which is undefined on an empty scan.

## Findings

| source | as written | input that shows it | evidently intended | confidence | as-written member | corrected member |
|---|---|---|---|---|---|---|
| include/place_detector.h:107 | The turn test uses the last two polygon vertices and vertex i (`scanMeasCoords[size()-2]`, `scanMeasCoords.back()`). At i = n - 1 it tests the last vertex against itself, which is collinear, so every index above 0 is popped. Any polygon of four or more vertices yields [0, n - 1]. | the square (1,0), (0,1), (-1,0), (0,-1): as written the result is [0, 3] | Test the top two stack entries and vertex i, as a Graham scan does. Every vertex of a polygon whose consecutive triples turn counter-clockwise is then kept, and every pushed triple turns counter-clockwise. | high, not executed | ConvexHull.HullAsWrittenCollapses | ConvexHull.HullKeepsLeftTurningPolygon |
