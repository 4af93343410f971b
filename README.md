# Rank Gaussian Normalization, modelled in Dafny

This project models the core of a small Python package for Rank Gaussian
Normalization. The package turns a sample of numbers into values that look
normally distributed. It has three parts, and the model covers all three:

1. **The table builder** (`fit` / `buildRankGaussTrafo`).
   - It counts how often each distinct value occurs.
   - It walks the distinct values in ascending order, keeping a running count
     of the samples already passed.
   - Each value's rank (that count over the sample size) is rescaled into
     [0.001, 0.999). The value is mapped to the inverse normal CDF of that
     rank, shrunk by 0.7.
   - The table is then centred on its count-weighted mean.
   - Zero, one and two distinct values are special cases: an empty map,
     `{v: 0.0}` and `{a: 0.0, b: 1.0}`.
2. **The binary search** (`_binary_search` / `binary_search`). It finds the
   two neighbouring keys that bracket an input.
3. **The interpolator** (`transform` / `applyRankTrafo`). It maps every
   input through the table:
   - clamped at both ends;
   - the stored value on an exact key;
   - linear between the bracketing keys otherwise.

The algorithm appears twice in the source: as free functions in
`Gaussian_Normalization.py`, and as methods of the class `RGN` in
`rgn/rgn.py`. The class also remembers its data, its map and its output.
The shared algorithm is modelled once.

Modules:

- `Results` (results.dfy): the errors the source raises, and the `Result`
  and `Outcome` types that carry them.
- `InverseCdf` (inverse_cdf.dfy): the rational approximation of formula
  26.2.23 of Abramowitz and Stegun's Handbook of Mathematical Functions, the
  domain guard and sign logic of the inverse normal CDF, and the
  0.7-shrinking wrapper.
  - The term t = sqrt(-2 ln p) is a caller-supplied function `tail`. Its
    type keeps only the fact that it is non-negative.
- `Histogram` (histogram.dfy): the `Counter` as a multiplicity function
  `Count`, the number of samples below a value, and the sorted distinct keys
  `SortedKeys`.
- `TrafoMaps` (trafo_map.dfy): the ordered map as parallel key and value
  sequences. `TrafoValue` is the reference definition of what the
  interpolator computes for one input. `Bracket` is what the binary search
  finds.
- `RankGauss` (rank_gauss.dfy): `RankGaussTrafo` is the closed-form
  definition of the map the builder produces. It carries these properties
  of the table builder:
  - the results for zero, one and two distinct values;
  - strictly increasing ranks along the sorted keys;
  - a count-weighted mean of zero after centring;
  - independence from the order of the samples;
  - rank order kept between keys on the same side of the median. Across the
    median it holds only under an assumption that fails for very large
    samples (see "## Findings").
- `GaussianNormalization` (gaussian_normalization.dfy): the builder, the
  search and the interpolator as the loops the source runs. Each is proved
  against the definitions above.
- `RealFacts` (real_facts.dfy): the signs of products of reals, shared by the
  proofs.
- `Rgn` (rgn.dfy): class `RGN` with the fields `data`, `trafoMap` and
  `output`. `Fit`, `Transform`, `FitTransform` and creation update them in
  the source's order.

Every number is a Dafny `real`, so centring and interpolation are exact.

## Model

| member | source | states |
|---|---|---|
| InverseCdf.Denominator | Gaussian_Normalization.py:9 | the denominator of the rational step is at least 1 for t >= 0, so the division never fails |
| InverseCdf.Numerator | Gaussian_Normalization.py:9 | the numerator of the rational step is at least c0 for t >= 0 |
| InverseCdf.RationalApproximation | Gaussian_Normalization.py:6-9 | the rational approximation lies strictly below t for every t >= 0 |
| InverseCdf.NormalCdfInverse | Gaussian_Normalization.py:11-17 | raises exactly when p <= 0 or p >= 1, with p in the error; otherwise gives the lower-tail or upper-tail branch |
| InverseCdf.NormalCdfInverseAntisymmetric | Gaussian_Normalization.py:15-17 | away from 1/2, the inverse CDF of 1 - p is minus that of p |
| InverseCdf.VdErfInvSingle01 | Gaussian_Normalization.py:19-25 | returns 0 at 0, and succeeds exactly on the open interval (-1, 1) |
| InverseCdf.VdErfInvSingle01IsOdd | Gaussian_Normalization.py:19-25 | the wrapper is odd, f(-x) = -f(x), errors included |
| InverseCdf.ScaledQuantile | Gaussian_Normalization.py:19-25 | on (0, 1) the wrapper succeeds, and its value is 0.7 times the inverse normal CDF |
| InverseCdf.NumeratorExpanded | Gaussian_Normalization.py:7-9 | for t >= 0, Horner's form of the numerator is the polynomial c0 + c1 t + c2 t^2 |
| InverseCdf.DenominatorExpanded | Gaussian_Normalization.py:8-9 | for t >= 0, Horner's form of the denominator is the polynomial 1 + d0 t + d1 t^2 + d2 t^3 |
| InverseCdf.CrossProductsOrdered | Gaussian_Normalization.py:6-9 | for 0 <= a <= b, numerator and denominator cross-multiply in order: N(b) D(a) <= N(a) D(b) |
| InverseCdf.CorrectionOrdered | Gaussian_Normalization.py:9 | the correction N(t)/D(t) subtracted from t does not increase on t >= 0 |
| InverseCdf.RationalApproximationIncreasing | rgn/rgn.py:34-37 | the rational step increases on t >= 0, and at least as fast as t: R(b) - R(a) >= b - a for a <= b |
| InverseCdf.ScaledQuantileMonotoneOnEachHalf | Gaussian_Normalization.py:11-25 | if sqrt(-2 ln p) does not increase in p, the scaled quantile does not decrease on (0, 1/2), nor on [1/2, 1) |
| InverseCdf.QuantileDropsAtHalf | Gaussian_Normalization.py:15-17 | with sqrt(-2 ln p) accurate to ten decimals, the scaled quantile is positive at 0.49999999002 and negative at 1/2: the two branches do not meet |
| InverseCdf.AnchoredScaledQuantile | Gaussian_Normalization.py:15-17 | the corrected quantile, with both branches shifted by the upper branch's value at 1/2, is 0 at p = 1/2 |
| InverseCdf.AnchoredScaledQuantileAntisymmetric | Gaussian_Normalization.py:15-17 | the corrected quantile is odd about 1/2, q(1 - p) = -q(p), for every p in (0, 1) |
| InverseCdf.AnchoredScaledQuantileNonDecreasing | Gaussian_Normalization.py:11-25 | if sqrt(-2 ln p) does not increase in p, the corrected quantile does not decrease anywhere on (0, 1) |
| Histogram.Count | rgn/rgn.py:62 | a multiplicity is at most the sample size, and positive exactly for the values in the sample |
| Histogram.Insert | Gaussian_Normalization.py:45 | inserting keeps every key and adds x, with no other members |
| Histogram.InsertIncreasing | Gaussian_Normalization.py:45 | insertion keeps the key list strictly ascending |
| Histogram.SortedKeys | Gaussian_Normalization.py:45 | the sorted keys are exactly the values occurring in the sample |
| Histogram.SortedKeysIncreasing | Gaussian_Normalization.py:45 | the sorted keys are strictly ascending |
| Histogram.StrictlyIncreasingUnique | Gaussian_Normalization.py:45 | two strictly ascending lists with the same members are equal, so the sorted keys are determined by the set of values |
| Histogram.SortedKeysOfPermutation | Gaussian_Normalization.py:29 | reordering the samples leaves the keys unchanged |
| Histogram.CountIsMultiplicity | Gaussian_Normalization.py:29 | the Counter entry of v is the multiplicity of v in the sample multiset |
| Histogram.CountBelowKeyOf | Gaussian_Normalization.py:45-52 | on an ascending list of keys that holds every sample, the count of samples below key i equals the total multiplicity of keys 0..i-1 |
| Histogram.CountBelowKey | rgn/rgn.py:78-85 | the running `cnt` at each sorted key is the number of samples strictly below that key |
| Histogram.CountsSumToLength | Gaussian_Normalization.py:40-43 | the multiplicities of the keys add up to the sample size, so `assert N == len(dataIn)` never fails |
| Histogram.TotalCountOfPermutation | Gaussian_Normalization.py:41-42 | samples with the same multiset give the same total multiplicity over any keys |
| TrafoMaps.IndexOf | rgn/rgn.py:115-116 | a position found holds the key; none is found exactly when k is not a key |
| TrafoMaps.IndexOfKey | rgn/rgn.py:115-116 | among distinct keys, a key is found at its own position |
| TrafoMaps.Get | Gaussian_Normalization.py:78-86 | a lookup fails exactly for non-keys, and otherwise returns the value stored at the key's position |
| TrafoMaps.Bracket | Gaussian_Normalization.py:59-67 | the bracket is a valid segment start, with ks[i] <= v unless i = 0, and v < ks[i+1] unless it is the last segment |
| TrafoMaps.BracketUnique | Gaussian_Normalization.py:59-67 | on ascending keys, any position meeting the search's exit conditions is the bracket |
| TrafoMaps.BracketHolds | Gaussian_Normalization.py:59-67 | for keys[0] <= v < keys[-1], the bracket satisfies keys[i] <= v < keys[i+1] |
| TrafoMaps.Interpolate | rgn/rgn.py:122 | the interpolation line passes through (x1, y1) and (x2, y2) |
| TrafoMaps.InterpolateBetween | rgn/rgn.py:118-122 | between x1 and x2, the interpolated value lies between y1 and y2 |
| TrafoMaps.InterpolateMonotone | rgn/rgn.py:122 | for y1 <= y2, the line does not decrease |
| TrafoMaps.TrafoValueOnSegment | rgn/rgn.py:111-122 | on each segment between adjacent keys, endpoints included, the transform is the line through the two stored points |
| TrafoMaps.TrafoValueAtKey | rgn/rgn.py:115-116 | a key maps to its stored value |
| TrafoMaps.TrafoValueClamps | Gaussian_Normalization.py:77-80 | inputs at or below the least key give its value, and inputs at or above the greatest key give that key's value |
| TrafoMaps.TrafoValueInterior | Gaussian_Normalization.py:83-88 | an interior input that is not a key lies strictly inside its bracket, and maps between the two bracketing values |
| TrafoMaps.TrafoValueBounds | rgn/rgn.py:108-123 | with non-decreasing values, every output lies between the first and the last stored value |
| TrafoMaps.TrafoValueMonotone | rgn/rgn.py:108-123 | with non-decreasing values, the transform preserves the order of inputs |
| TrafoMaps.TrafoValueMonotoneInside | rgn/rgn.py:117-122 | with non-decreasing values, two inputs strictly inside the key range keep their order, on one segment or on two |
| TrafoMaps.SegmentsOrdered | rgn/rgn.py:122 | with non-decreasing values, a smaller input on the same or an earlier segment is interpolated no higher |
| TrafoMaps.MidpointExample | Gaussian_Normalization.py:88 | the map {0: 0, 10: 1} sends 5 to 0.5 |
| RankGauss.Rank | rgn/rgn.py:79 | the rank cnt/N of a sample value lies in [0, 1) |
| RankGauss.Rescale | rgn/rgn.py:80 | the rescaled rank lies in [0.001, 0.999), strictly inside (0, 1) |
| RankGauss.RankQuantile | Gaussian_Normalization.py:46-48 | the wrapper succeeds on every rescaled rank, so the domain error of the inverse CDF is never raised from the builder |
| RankGauss.RawQuantiles | rgn/rgn.py:78-81 | one quantile per key, each the wrapper's successful result on that key's rescaled rank |
| RankGauss.WeightedSumSnoc | rgn/rgn.py:83 | `mean += hist[it] * rankV`: appending a key and its value adds that key's multiplicity times the value to the weighted sum |
| RankGauss.Shifted | rgn/rgn.py:87-88 | centring keeps the number of stored values |
| RankGauss.ShiftedKeepsOrder | rgn/rgn.py:87-88 | centring keeps every difference between two stored values, so they are non-decreasing after centring exactly when they were before |
| RankGauss.WeightedSumShift | Gaussian_Normalization.py:54-55 | lowering every stored value by c lowers the count-weighted sum by c times the total multiplicity |
| RankGauss.RankGaussTrafo | Gaussian_Normalization.py:27-57 | a built map is a valid map whose keys are the sorted distinct values; the only failure is the quantile-range assertion, and only with three or more keys |
| RankGauss.FitNoData | rgn/rgn.py:63-64 | no data gives the empty map |
| RankGauss.FitOneValue | rgn/rgn.py:65-67 | one distinct value v gives {v: 0.0}, not centred |
| RankGauss.FitTwoValues | rgn/rgn.py:68-71 | two distinct values a < b give {a: 0.0, b: 1.0}, not centred |
| RankGauss.RanksStrictlyIncrease | rgn/rgn.py:78-85 | along the ascending keys, the running count `cnt` and the rescaled ranks strictly increase |
| RankGauss.RescaledRankBelowHalf | rgn/rgn.py:79-80 | a key's rescaled rank is below 1/2 exactly when fewer than half of the samples lie below the key |
| RankGauss.GridRank | rgn/rgn.py:79-80 | the rescaled rank of a count c out of n samples lies in [0.001, 0.999) |
| RankGauss.FitIsCentred | Gaussian_Normalization.py:44-55 | in the general case every stored value is its quantile minus one common constant, and the count-weighted sum of stored values is exactly zero |
| RankGauss.CentredSumIsZero | rgn/rgn.py:83-88 | subtracting the weighted mean from values whose weights total N leaves a weighted sum of zero |
| RankGauss.TransformedSum | rgn/rgn.py:55-57 | transforming the samples through a map keyed by their own values gives outputs that sum to the count-weighted sum of the stored values |
| RankGauss.TransformedSamplesSumToZero | rgn/rgn.py:55-57 | in the general case the transformed training samples sum to zero |
| RankGauss.FitSucceedsWhenBounded | rgn/rgn.py:82 | assuming the scaled quantile stays in [-3, 3] on the rank range, the builder's assertion never fails |
| RankGauss.FitNonDecreasingOnEachHalf | rgn/rgn.py:78-88 | if sqrt(-2 ln p) does not increase in p, two keys with fewer than half of the samples below both, or at least half below both, keep their order in the map |
| RankGauss.FitAcrossHalf | rgn/rgn.py:78-88 | under the assumption `OrderedAcrossHalf`, two keys on opposite sides of the median keep their order in the map |
| RankGauss.FitNonDecreasing | rgn/rgn.py:78-88 | if sqrt(-2 ln p) does not increase in p and `OrderedAcrossHalf` holds for the sample size, the stored values do not decrease along the keys |
| RankGauss.FitDropsAtHalf | rgn/rgn.py:78-88 | with 10^8 samples, a key with 49,999,999 samples below it is stored above the next key, which has 5 * 10^7 below it |
| RankGauss.AnchoredRanksOrdered | rgn/rgn.py:78-81 | with the corrected quantile, the keys' quantiles keep rank order for every sample, assuming only that sqrt(-2 ln p) does not increase in p |
| RankGauss.WeightedSumOfPermutation | Gaussian_Normalization.py:50 | samples with the same multiset give the same weighted sum |
| RankGauss.FitPermutationInvariant | Gaussian_Normalization.py:27-57 | the map depends only on the multiset of samples, not on their order |
| RankGauss.FittedTransformPreservesOrder | rgn/rgn.py:55-123 | under the two assumptions of `FitNonDecreasing`, transforming with the map built from the sample never reverses the order of two inputs |
| GaussianNormalization.BuildRankGaussTrafo | Gaussian_Normalization.py:27-57 | the builder's loops compute exactly `RankGaussTrafo`, including its failure |
| GaussianNormalization.SampleSize | Gaussian_Normalization.py:40-42 | the first loop sums the multiplicities of the keys |
| GaussianNormalization.RankQuantiles | Gaussian_Normalization.py:44-52 | the main loop stores the quantile of each key's rank, accumulates the count-weighted sum, and stops with the assertion error exactly when some quantile leaves [-3, 3] |
| GaussianNormalization.QuantileStep | Gaussian_Normalization.py:50-52 | one iteration extends the key prefix, the value prefix, the running count and the weighted sum by the current key's share |
| GaussianNormalization.KeyQuantile | Gaussian_Normalization.py:46-48 | the three statements on `rankV` yield that key's quantile, and the wrapper cannot fail there |
| GaussianNormalization.RankOfKey | Gaussian_Normalization.py:46-48 | when `cnt` is the number of samples below a key, the loop's rescaled rank is that key's rank, and the wrapper succeeds with its quantile |
| GaussianNormalization.Centre | Gaussian_Normalization.py:53-55 | the centring loop lowers every stored value by the mean, in place, and keeps the keys |
| GaussianNormalization.BinarySearch | Gaussian_Normalization.py:59-67 | with one key it returns that key twice; with two or more keys it returns the keys at the bracket and the position after, which enclose any val in [keys[0], keys[-1]) |
| GaussianNormalization.TransformOne | Gaussian_Normalization.py:75-88 | the four cases of the loop body, in the source's order, compute `TrafoValue` of the input |
| GaussianNormalization.ApplyRankTrafo | Gaussian_Normalization.py:69-90 | fails exactly on an empty map; otherwise returns one output per input, in order, each equal to `TrafoValue` of its input |
| GaussianNormalization.ApplyRankTrafoAsWritten | Gaussian_Normalization.py:69-90 | the code as written fails with a name error exactly when some input needs interpolation; every other input is mapped as intended |
| GaussianNormalization.UndefinedNameCounterexample | Gaussian_Normalization.py:88 | the input 5 with the map {0: 0, 10: 1} reaches the interpolation branch, where the intended result is 0.5 |
| Rgn.RGN.constructor | rgn/rgn.py:6-12 | an object made without data has no data, no map and no output |
| Rgn.RGN.Create | rgn/rgn.py:6-14 | with data, creation fits and transforms it; it fails when the assertion fails or the data is empty, and otherwise holds the built map and the transformed data |
| Rgn.RGN.Fit | rgn/rgn.py:59-90 | records the data first; replaces the map with `RankGaussTrafo` of the data on success; on the assertion error keeps the old map and leaves the output alone |
| Rgn.RGN.Transform | rgn/rgn.py:102-126 | fails before any fit and on an empty map, without touching the output; otherwise it returns and records the transform of every input |
| Rgn.RGN.FitTransform | rgn/rgn.py:55-57 | fits, then transforms the same data; a failed fit stops it; empty data ends in the empty-map error; with three or more distinct values the output has mean zero |
| Rgn.NoKeysIffNoData | rgn/rgn.py:63-64 | the map has no keys exactly when there is no data |

## Left out

- Floating point. Every number is an exact `real`, so rounding, NaN and
  infinities are not modelled. So is the float32 cast of the output
  (`np.asarray(..., dtype=self.precision)` in `transform`).
- The square root and the logarithm in the inverse normal CDF. The value
  sqrt(-2 ln p) is the parameter `tail`, and only its non-negativity is
  used.
- Three assumptions are stated, not proved. The lemmas that need them take
  them as preconditions.
  - InverseCdf.WithinThreeOnRankRange: the scaled quantile stays in
    [-3, 3] on [0.001, 0.999). It holds for the real sqrt and log, but
    cannot be proved without them.
  - InverseCdf.TailNonIncreasing: sqrt(-2 ln p) does not increase in p. It
    holds for the real sqrt and log, but cannot be proved without them.
  - RankGauss.OrderedAcrossHalf: keys on opposite sides of the median keep
    their order. It is false for large samples: a numerical estimate puts
    the limit near 1.2e7 samples, and `RankGauss.FitDropsAtHalf` fails it
    at 10^8.
- RankGauss.FitNonDecreasing: rank order of the stored values is promised
  only under `TailNonIncreasing` and `OrderedAcrossHalf`. The source's
  quantile drops at 1/2, so for very large samples the order is not kept
  (see "## Findings").
- RankGauss.FittedTransformPreservesOrder: order preservation of the whole
  transform is promised only under the same two assumptions.
- The `precision` property and its setter, which checks for a type. So are
  the read-only `data` and `output` properties; the fields are read directly
  here.
- The `__main__` demo, the unused matplotlib import and the packaging
  script.
- The hashing and iteration order of `Counter`. Only the multiplicities
  matter for the sums.
  - The one place an order shows is `list(hist.keys())[0]` with a single
    distinct value, and there only one key exists.
- GaussianNormalization.ApplyRankTrafo requires a valid map: one value per
  key, keys strictly ascending. The source accepts any dictionary.
  - Every map the builder produces is valid (`RankGaussTrafo`).
  - On unsorted keys the source's search brackets nothing meaningful.
- GaussianNormalization.BinarySearch requires at least one strictly
  ascending key. The source's interpolator only calls it with two or more
  keys and an input strictly inside their range.
- Rgn.RGN.Transform reports a missing map as the error `NotFitted`. In the
  source, transforming before any fit fails when it reads the keys of
  `None`.

## Findings

| source | as written | input that shows it | evidently intended | confidence | as-written member | corrected member |
|---|---|---|---|---|---|---|
| Gaussian_Normalization.py:15-17 | the two branches of the inverse CDF do not meet at p = 1/2: the scaled quantile is about +5.3e-8 just below 1/2 and about -7.07e-8 at 1/2, so it drops there | 10^8 samples, 0 taken 49,999,999 times, 1 once and 2 taken 5 * 10^7 times: keys 1 and 2 get rescaled ranks 0.49999999002 and 0.5, and 1 is stored above 2 | a quantile that does not decrease, so that the map keeps rank order; shifting both branches by the value at 1/2 restores it | not executed | InverseCdf.QuantileDropsAtHalf, RankGauss.FitDropsAtHalf | InverseCdf.AnchoredScaledQuantileNonDecreasing, RankGauss.AnchoredRanksOrdered |
| Gaussian_Normalization.py:88 | the interpolation uses `x`, a name bound nowhere, so the branch raises a name error | map {0.0: 0.0, 10.0: 1.0}, data [5.0]: 5 lies strictly between the keys and is not a key | use the input `val`, as rgn/rgn.py:122 does, giving 0.5 | not executed | GaussianNormalization.ApplyRankTrafoAsWritten, GaussianNormalization.UndefinedNameCounterexample | GaussianNormalization.ApplyRankTrafo |

The drop at 1/2 is far below the approximation's documented error of
4.5e-4, so the builder is modelled with the quantile as written. The
corrected quantile `InverseCdf.AnchoredScaledQuantile` is the alternative
that keeps order. `InverseCdf.AnchoredScaledQuantileNonDecreasing` and
`RankGauss.AnchoredRanksOrdered` prove that it does.
