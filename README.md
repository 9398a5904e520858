# trading-toolkit indicators in Dafny

A model of the technical-analysis indicators of the `trading-toolkit` Rust crate.

- `src/indicator/` holds the simple and exponential moving averages, the envelope and Bollinger channels, and the MACD. It also holds the stochastic oscillator, the Elder Ray and the force index.
- The two older, unwired variants in `trend_following.rs` and `oscillator.rs` are modelled too.
- So are the two millisecond `Time` types: `src/types/time.rs` (u128) and `src/indicator/time.rs` (u64).

Every `f64` of the source is an exact `real`. The integer widths (`u64`, `u128`, `usize` on a 64-bit target) are subset types. An overflow or underflow of an integer is a precondition: it panics in a debug build of the Rust code and wraps around in a release build, and the model promises nothing for either.

Most indicators take the same structural steps:
1. `exponential`, `bollinger`, the MACD of macd.rs, `fast`, `slow`, `into_slow` and the legacy `exponential` stably sort a copy of their input by `epoch_time`. `simple` (and the legacy `simple`), `ForceIndex::new`, the windowing of the legacy MACD of oscillator.rs (its averages sort each slice on their own) and Elder Ray's own extremes loop work on the input as given.
2. The MACDs cut windows off the end of their input: macd.rs off the sorted copy, oscillator.rs off the input as given.
3. `fast` and Elder Ray fold with accumulators that start from fixed values (0, `f64::MAX`).
4. Each returns a tagged result, or an error (`EmptyData`, `DataNotEnough`, `InvalidData`) where it checks its input.

The model mirrors those steps:
- **Sort.** `Vec::sort_by_key` becomes `StableSort.SortBy`, a stable insertion sort. `StableSort.SortInPlace` performs it in place on an array. `StableSort.SortedCopy` is the clone-then-sort those indicators begin with.
- **Loops.** Each accumulating loop of the source is a Dafny method with loop invariants. Each is proved equal to a specification function: `SumBy`, `MaxFrom`, `MinFrom` or `EmaRecurrence`.
- **Properties.** Lemmas about those functions state what the indicators promise:
  - the closed form of the rank-weighted average;
  - bounds and order-independence;
  - the windows MACD reads;
  - agreement of the legacy variants with the current ones;
  - the exact fixture values of the crate's tests.

Modules, one per source file:
- `ToolkitTypes` (`types.dfy`): data capabilities, errors, integer widths.
- `StableSort`, `Folds`: the sort and the accumulators.
- `MovingAverages`, `Channels`, `Macd`, `Stochastics`, `ElderRays`, `ForceIndexes`, `TrendFollowing`, `Oscillator`: the indicators.
- `Times`, `IndicatorTimes`: the two `Time` types.
- `Fixtures`: the tests' data and expected values.

## Model

| member | source | states |
|---|---|---|
| MovingAverages.MovingAverage.Inner | src/indicator/moving_average.rs:67-71 | the payload of either tag, with the tag unchanged |
| MovingAverages.SimpleMovingAverage | src/indicator/moving_average.rs:11-22 | on a non-empty input the result is `Simple` of the sum of the values over their count |
| MovingAverages.MeanWithinBounds | src/indicator/moving_average.rs:11-22 | the simple average lies between any lower and upper bound of the values |
| MovingAverages.MeanPermutationInvariant | src/indicator/moving_average.rs:15-21 | the simple average does not depend on the order of the input |
| MovingAverages.SimpleFrom | src/indicator/moving_average.rs:25-32 | `Simple`, equal to `prev + (x − prev)/scope`; `prev` when `x == prev`; `x` when `scope == 1` |
| MovingAverages.SimpleFromSlidesWindow | src/indicator/moving_average.rs:25-32 | when the value leaving a window equals its mean, `simple_from` gives the exact mean of the window slid by one |
| MovingAverages.ExponentialMovingAverage | src/indicator/moving_average.rs:36-55 | the result is `Exponential` of the rank-weighted recurrence over the values sorted by timestamp (seeded by the first, weight 2/(i+1) at rank i) |
| MovingAverages.EmaClosedForm | src/indicator/moving_average.rs:42-53 | over exact values the recurrence equals `Σ i·v_i / Σ i` with 1-based ranks |
| MovingAverages.EmaWithinBounds | src/indicator/moving_average.rs:45-53 | every step is a convex blend, so the recurrence stays within any bounds of the values |
| MovingAverages.ExponentialWithinBounds | src/indicator/moving_average.rs:36-55 | `exponential` of a non-empty input lies between any lower and upper bound of its values |
| MovingAverages.ExponentialEdgeCases | src/indicator/moving_average.rs:42-54 | the empty input gives 0 and a single element gives its own value |
| MovingAverages.ExponentialPermutationInvariant | src/indicator/moving_average.rs:40-41 | with pairwise distinct timestamps, reordering the input does not change `exponential` |
| MovingAverages.ExponentialFrom | src/indicator/moving_average.rs:59-65 | `Exponential`; `prev` when `x == prev`; between `prev` and `x` for `scope ≥ 1` |
| MovingAverages.EmaIsIncrementalStep | src/indicator/moving_average.rs:46-51 | appending a value to the recurrence is one `exponential_from` step whose `scope` is the new value's rank |
| StableSort.SortBySorted | src/indicator/moving_average.rs:40-41 | the sort by timestamp yields a non-decreasing order |
| StableSort.SortByPermutation | src/indicator/moving_average.rs:40-41 | the sort yields a permutation of its input (same length, same multiset) |
| StableSort.SortByStable | src/indicator/moving_average.rs:40-41 | elements with equal timestamps keep their input order |
| StableSort.SortByCharacterized | src/indicator/moving_average.rs:40-41 | any sorted sequence that keeps each timestamp's elements in input order is the sort's result |
| StableSort.SortBySortedInput | src/indicator/moving_average.rs:40-41 | sorting an input already in time order changes nothing |
| StableSort.SortBySortedSlice | src/indicator/macd.rs:21-24 | a slice of a sorted sequence is left unchanged by sorting it again |
| StableSort.SortByStrict | src/indicator/moving_average.rs:40-41 | with pairwise distinct timestamps the sorted result is strictly increasing |
| StableSort.StrictlySortedUnique | src/indicator/moving_average.rs:40-41 | a strictly sorted sequence is the only sorted arrangement of its elements |
| StableSort.SortByPermutationInvariant | src/indicator/moving_average.rs:40-41 | with pairwise distinct timestamps, permutations of the input sort to the same sequence |
| StableSort.SortByOlderPrefix | src/indicator/macd.rs:19-21 | elements all strictly older than the rest sort to the front, ahead of the sorted rest |
| StableSort.SortByLastIsLatest | src/indicator/stochastic.rs:21-26 | the last element after sorting is an input element and carries the largest timestamp |
| StableSort.LastBy | src/indicator/stochastic.rs:21-26 | `data.last()` after the sort: an input element with the latest timestamp |
| StableSort.LastByKeyPermutation | src/indicator/stochastic.rs:45-48 | the timestamp of the last sorted element does not depend on the input order, ties included |
| StableSort.SortByMap | src/indicator/trend_following.rs:28-29 | sorting commutes with a map that keeps the timestamps |
| StableSort.MapPermutation | src/indicator/channel.rs:57-58 | mapping commutes with permuting |
| StableSort.InsertInPlace | src/indicator/moving_average.rs:40-41 | one in-place insertion step: the prefix up to `i` becomes the stable insertion of `a[i]`, the rest is untouched |
| StableSort.SortInPlace | src/indicator/moving_average.rs:40-41 | the array afterwards holds `SortBy` of its old contents |
| StableSort.SortedCopy | src/indicator/moving_average.rs:40-41 | clone then `sort_by_key`: the result is `SortBy` of the input |
| Folds.RealMax | src/indicator/stochastic.rs:28 | `f64::max` on exact values: an upper bound of both arguments, equal to one of them |
| Folds.RealMin | src/indicator/stochastic.rs:29 | `f64::min` on exact values: a lower bound of both arguments, equal to one of them |
| Folds.SumByPermutation | src/indicator/channel.rs:57-68 | a running sum does not depend on the order of its terms |
| Folds.SumByBounds | src/indicator/moving_average.rs:17-20 | a sum of terms in [lo, hi] lies in [n·lo, n·hi] |
| Folds.SumByNonNegative | src/indicator/channel.rs:66-69 | a sum of non-negative terms is non-negative |
| Folds.SumByMonotone | src/indicator/stochastic.rs:49-52 | sums are monotone in their terms |
| Folds.MaxFromIsMax | src/indicator/stochastic.rs:24-30 | the running maximum bounds the seed and every term, and equals the seed or some term |
| Folds.MinFromIsMin | src/indicator/stochastic.rs:24-30 | the running minimum is below the seed and every term, and equals the seed or some term |
| Folds.MaxFromPermutation | src/indicator/elder_ray.rs:23-26 | the running maximum does not depend on the order of the terms |
| Folds.MinFromPermutation | src/indicator/elder_ray.rs:23-26 | the running minimum does not depend on the order of the terms |
| Channels.Channel.Inner | src/indicator/channel.rs:21-25 | the band of either tag |
| Channels.EnvelopeFrom | src/indicator/channel.rs:37-44 | tagged `Envelope`, mid is the average, both half-widths are `ema·c`, and the band is ordered for `ema ≥ 0, c ≥ 0` |
| Channels.EnvelopeOf | src/indicator/channel.rs:26-36 | mid is `exponential(data)` and the band equals `envelope_from(exponential(data), c)` |
| Channels.TypicalSum | src/indicator/channel.rs:62-64 | the first loop sums the typical prices `(open+high+low)/3` |
| Channels.VariationSum | src/indicator/channel.rs:66-69 | the second loop sums the squared deviations from the mean |
| Channels.BollingerStatistics | src/indicator/channel.rs:57-69 | the sorted copy, the mean typical price and the variation (a sum, not divided by N), both independent of input order |
| Channels.BollingerBand | src/indicator/channel.rs:72-80 | mid is the exponential average of the sorted bars or the mean; `upper − mid == mid − lower == dev_mul·stdev`; ordered for non-negative factors |
| Channels.BollingerOf | src/indicator/channel.rs:46-81 | `EmptyData` exactly for the empty input, otherwise `Bollinger` of the band for `stdev = sqrt(variation)` |
| Channels.VariationNonNegative | src/indicator/channel.rs:66-69 | the variation is never negative |
| Channels.BollingerWidth | src/indicator/channel.rs:70-80 | with an exact root `s` of the variation, the half-width squared is `dev_mul²·variation`, and the band is ordered for `dev_mul ≥ 0` |
| Channels.BollingerMidIsEnvelopeMid | src/indicator/channel.rs:72-74 | with distinct timestamps, the exponential Bollinger mid line equals the envelope's mid line |
| Channels.BasesPermutation | src/indicator/channel.rs:57-58 | taking the `BaseData` views commutes with permuting the bars |
| Macd.Latest | src/indicator/macd.rs:19-21 | the 26 (or n) latest elements: n of them, drawn from the input |
| Macd.LatestOfLatest | src/indicator/macd.rs:21-24 | the last m of the latest n are the latest m |
| Macd.LatestSorted | src/indicator/macd.rs:19-21 | the latest elements are in time order |
| Macd.MovingAverageConvergenceDivergence.Fast | src/indicator/macd.rs:33-35 | the MACD line is positive, zero or negative exactly as the 12-element average is above, equal to or below the 26-element one |
| Macd.MovingAverageConvergenceDivergence.Slow | src/indicator/macd.rs:38-40 | the signal line is the stored 9-element average of the values, not an average of the MACD line |
| Macd.MovingAverageConvergenceDivergence.MacdHistogram | src/indicator/macd.rs:43-45 | the histogram is positive, zero or negative exactly as the MACD line is above, equal to or below the signal line |
| Macd.MacdOf | src/indicator/macd.rs:12-30 | `DataNotEnough` exactly when fewer than 26 elements; `ema_26` is the exponential average of the latest 26 |
| Macd.New | src/indicator/macd.rs:12-30 | sorting once, keeping the last 26 and slicing 12 and 9 off that window gives `MacdOf` |
| Macd.MacdIgnoresOlder | src/indicator/macd.rs:19-21 | prepending elements strictly older than 26 others does not change the result |
| Macd.LatestIgnoresOlder | src/indicator/macd.rs:19-21 | the latest n of older plus recent elements are the latest n of the recent ones |
| Macd.MacdPermutationInvariant | src/indicator/macd.rs:19-20 | with distinct timestamps the result does not depend on the input order |
| Macd.MacdRanksRestart | src/indicator/macd.rs:22-24 | each of the three averages is the rank-weighted mean of its own slice, with ranks restarting at 1 |
| Macd.MacdBounds | src/indicator/macd.rs:33-45 | with values in [lo, hi]: signal line in [lo, hi], MACD line within ±(hi − lo), histogram within the sum of both bounds |
| Stochastics.Stochastic.Inner | src/indicator/stochastic.rs:59-63 | the payload of either tag, with the timestamp unchanged |
| Stochastics.Stochastic.Value | src/indicator/stochastic.rs:88-92 | `value()` equals `inner()` |
| Stochastics.Stochastic.AsBase | src/indicator/stochastic.rs:87-103 | the `BaseData` view: the payload, weight 1, the stored timestamp |
| Stochastics.FastOf | src/indicator/stochastic.rs:14-35 | `EmptyData` exactly for the empty input; otherwise `Fast`, stamped with the latest bar's timestamp |
| Stochastics.Extremes | src/indicator/stochastic.rs:24-30 | the loop yields the running maximum high (from 0) and minimum low (from `f64::MAX`) |
| Stochastics.FastStochastic | src/indicator/stochastic.rs:14-35 | the sort, the loop and the division give `FastOf` |
| Stochastics.SlowOf | src/indicator/stochastic.rs:37-57 | `EmptyData` exactly for the empty input; otherwise `Slow`, stamped with the latest bar's timestamp |
| Stochastics.SlowSums | src/indicator/stochastic.rs:46-52 | the loop yields `Σ(close − low)` and `Σ(high − low)` |
| Stochastics.SlowStochastic | src/indicator/stochastic.rs:37-57 | the sort, the two sums and the division give `SlowOf` |
| Stochastics.SlowCount | src/indicator/stochastic.rs:66-73 | the count of slow values is 0 exactly when every element is fast |
| Stochastics.IntoSlowOf | src/indicator/stochastic.rs:65-84 | `InvalidData` exactly when some element is slow; otherwise `Slow` with the latest timestamp |
| Stochastics.IntoSlow | src/indicator/stochastic.rs:65-84 | the check, the sort and `simple` give `IntoSlowOf` on a non-empty input |
| Stochastics.IntoSlowAsWritten | src/indicator/stochastic.rs:65-84 | as written, a call panics exactly on the empty input and otherwise returns `IntoSlowOf` |
| Stochastics.IntoSlowEmptyPanics | src/indicator/stochastic.rs:77-79 | the empty input passes the slow-value check and panics at `unwrap` |
| Stochastics.IntoSlowChecked | src/indicator/stochastic.rs:65-84 | the corrected `into_slow`: `EmptyData` exactly for the empty input, otherwise as written |
| Stochastics.LatestTimestamp | src/indicator/stochastic.rs:26 | the result's timestamp is the maximum timestamp of the input, and occurs in it |
| Stochastics.ExtremesBracket | src/indicator/stochastic.rs:27-30 | with every close between its bar's low and high, every close lies between the extremes |
| Stochastics.FastInRange | src/indicator/stochastic.rs:27-32 | with the latest close between the lowest low and the highest high, and the highest high above the lowest low, fast %K lies in [0, 100] |
| Stochastics.FastInRangeWellFormed | src/indicator/stochastic.rs:21-32 | in particular, with every close between its bar's low and high and a non-zero range, fast %K lies in [0, 100] |
| Stochastics.FastExtremes | src/indicator/stochastic.rs:31-34 | fast %K is 100 exactly when the last close is the highest high and 0 exactly when it is the lowest low |
| Stochastics.FastPermutationInvariant | src/indicator/stochastic.rs:21-30 | with distinct timestamps `fast` does not depend on the input order |
| Stochastics.SlowPermutationInvariant | src/indicator/stochastic.rs:44-56 | `slow` does not depend on the input order, ties included |
| Stochastics.SlowInRange | src/indicator/stochastic.rs:49-55 | with every close between its bar's low and high, slow %K lies in [0, 100] |
| Stochastics.IntoSlowInRange | src/indicator/stochastic.rs:77-83 | the slow line of fast values in [0, 100] lies in [0, 100] |
| Stochastics.IntoSlowPermutationInvariant | src/indicator/stochastic.rs:77-83 | `into_slow` does not depend on the input order, ties included |
| Stochastics.SlowCountPermutation | src/indicator/stochastic.rs:66-73 | whether any value is slow does not depend on the order |
| ElderRays.ElderRayOf | src/indicator/elder_ray.rs:13-32 | `EmptyData` exactly for the empty input; otherwise ask = lowest price (from `f64::MAX`) − ema and bid = highest price (from 0) − ema |
| ElderRays.New | src/indicator/elder_ray.rs:13-32 | the average and the unsorted loop give `ElderRayOf` |
| ElderRays.AskAtMostBid | src/indicator/elder_ray.rs:24-30 | the seller's force never exceeds the buyer's |
| ElderRays.ForcesStraddleZero | src/indicator/elder_ray.rs:22-30 | for every non-empty input, prices of any sign included, ask ≤ 0 ≤ bid |
| ElderRays.NegativePriceKeepsZeroHigh | src/indicator/elder_ray.rs:20-24 | a single negative price leaves the high at its seed 0, so bid is −price |
| ElderRays.ElderRayPermutationInvariant | src/indicator/elder_ray.rs:22-26 | with distinct timestamps the input order does not matter |
| ForceIndexes.ForceIndex.Inner | src/indicator/force_index.rs:35-37 | the stored force, which with the timestamp determines the index |
| ForceIndexes.ForceIndex.AsBase | src/indicator/force_index.rs:10-22 | the `BaseData` view: the force, weight 1, the stored timestamp |
| ForceIndexes.New | src/indicator/force_index.rs:25-33 | timestamp of `curr`; zero exactly for equal closes or zero volume; positive exactly for a rise with volume; negative exactly for a fall with volume |
| ForceIndexes.ProductSign | src/indicator/force_index.rs:30 | the sign of the change times a non-negative volume |
| ForceIndexes.OnlyPreviousClose | src/indicator/force_index.rs:29-32 | of the earlier bar only the close matters |
| ForceIndexes.ForceScalesWithVolume | src/indicator/force_index.rs:30 | doubling the later bar's volume doubles the force |
| TrendFollowing.SimpleMovingAverage | src/indicator/trend_following.rs:11-22 | on a non-empty input the result is `Simple` of the summed prices over their count |
| TrendFollowing.ExponentialMovingAverage | src/indicator/trend_following.rs:24-43 | the result is `Exponential` of the rank-weighted recurrence over the prices sorted by timestamp |
| TrendFollowing.SumOfPrices | src/indicator/trend_following.rs:15-21 | summing the prices of `Data` readings equals summing the values |
| TrendFollowing.AgreesWithMovingAverage | src/indicator/trend_following.rs:11-43 | on equal values and timestamps both legacy averages equal those of moving_average.rs |
| TrendFollowing.PriceExponentialEdgeCases | src/indicator/trend_following.rs:30-42 | the empty input gives 0 and a single element gives its price |
| Oscillator.LegacyMacdOf | src/indicator/oscillator.rs:15-31 | `DataNotEnough` exactly when fewer than 26 elements |
| Oscillator.New | src/indicator/oscillator.rs:15-31 | slicing the last 26 positions and averaging the window, its last 12 and its last 9 gives `LegacyMacdOf` |
| Oscillator.LegacyMacdIgnoresPrefix | src/indicator/oscillator.rs:22-25 | elements before the last 26 positions never matter, whatever their timestamps |
| Oscillator.SuffixOfAppend | src/indicator/oscillator.rs:22 | the last n positions of prefix plus recent are the last n of recent |
| Oscillator.ExecEmaAgrees | src/indicator/oscillator.rs:23-25 | the legacy average of executions equals `exponential` of their `BaseData` readings |
| Oscillator.LegacyMacdAgreesOnSortedInput | src/indicator/oscillator.rs:15-31 | on input already in time order the legacy MACD equals the MACD of macd.rs |
| Oscillator.LongInputAgrees | src/indicator/oscillator.rs:22-30 | the same for inputs of at least 26 elements |
| Oscillator.SuffixAgrees | src/indicator/oscillator.rs:22-25 | on ordered input the last n positions are the latest n readings |
| Oscillator.ExecBasesInOrder | src/indicator/oscillator.rs:55-67 | executions in time order give readings in time order |
| Oscillator.ExecView | src/indicator/oscillator.rs:55-67 | the `Exec` view of the legacy force index: price = inner, volume 1, the stored timestamp |
| Oscillator.ForceAverageAgrees | src/indicator/oscillator.rs:55-67 | averaging legacy force indices through their `Exec` view gives the `exponential` of their `BaseData` readings from force_index.rs |
| Times.Time.Inner | src/types/time.rs:66-68 | the milliseconds, which determine the time |
| Times.Time.Less | src/types/time.rs:28-29 | the derived `Ord`: one time precedes another exactly when its milliseconds are fewer; no time precedes itself |
| Times.Time.Add | src/types/time.rs:72-78 | the milliseconds add, without overflow of u128 |
| Times.Time.Sub | src/types/time.rs:86-92 | the milliseconds subtract, the left operand not the smaller |
| Times.From | src/types/time.rs:31-35 | `From<u128>` keeps the milliseconds |
| Times.FromDays | src/types/time.rs:46-49 | `days · 86 400 000` ms |
| Times.FromHours | src/types/time.rs:51-54 | `hours · 3 600 000` ms |
| Times.FromMinutes | src/types/time.rs:56-59 | `minutes · 60 000` ms |
| Times.FromSeconds | src/types/time.rs:61-64 | `seconds · 1000` ms |
| Times.TimeCell.constructor | src/types/time.rs:28-29 | a place holding the given time |
| Times.TimeCell.AddAssign | src/types/time.rs:80-84 | `+=` leaves the cell holding `old + rhs` |
| Times.TimeCell.SubAssign | src/types/time.rs:94-98 | `-=` leaves the cell holding `old − rhs` |
| Times.UnitsChain | src/types/time.rs:4-7 | a day is 24 hours, an hour 60 minutes, a minute 60 seconds |
| Times.FromInnerRoundTrip | src/types/time.rs:31-35 | `From` then `inner`, and `inner` then `From`, are identities |
| Times.AddSubRoundTrip | src/types/time.rs:72-92 | `(a + b) − b == a` and `(a − b) + b == a` where defined |
| Times.EqualityOfInner | src/types/time.rs:100-104 | two times are equal exactly when their milliseconds are |
| Times.OrderIsTotal | src/types/time.rs:28-29 | the derived order is a strict total order, compatible with adding a duration |
| Times.AddThenSubAssign | src/types/time.rs:80-98 | `+= d` then `-= d` restores the cell |
| IndicatorTimes.Time.Inner | src/indicator/time.rs:21-23 | the milliseconds, which determine the time |
| IndicatorTimes.Time.Add | src/indicator/time.rs:26-32 | the milliseconds add, without overflow of u64 |
| IndicatorTimes.Time.Sub | src/indicator/time.rs:40-46 | the milliseconds subtract, the left operand not the smaller |
| IndicatorTimes.From | src/indicator/time.rs:11-15 | `From<u64>` keeps the milliseconds |
| IndicatorTimes.FromDays | src/indicator/time.rs:18-20 | `days · 86 400 000` ms, provided that fits in u64 |
| IndicatorTimes.FromDaysLimit | src/indicator/time.rs:3-6 | the largest accepted day count is 213 503 982 334 |
| IndicatorTimes.TimeCell.constructor | src/indicator/time.rs:8-9 | a place holding the given time |
| IndicatorTimes.TimeCell.AddAssign | src/indicator/time.rs:34-38 | `+=` leaves the cell holding `old + rhs` |
| IndicatorTimes.TimeCell.SubAssign | src/indicator/time.rs:48-52 | `-=` leaves the cell holding `old − rhs` |
| IndicatorTimes.FromInnerRoundTrip | src/indicator/time.rs:11-23 | `From` then `inner`, and `inner` then `From`, are identities |
| IndicatorTimes.AddSubRoundTrip | src/indicator/time.rs:26-46 | `(a + b) − b == a` and `(a − b) + b == a` where defined |
| IndicatorTimes.EqualityOfInner | src/indicator/time.rs:54-58 | two times are equal exactly when their milliseconds are |
| Fixtures.MovingAverageFixture | src/indicator/test.rs:110-123 | `simple` is 7550/7 and `exponential` 7400/7 on the seven rows |
| Fixtures.TrendFollowingFixture | src/indicator/trend_following.rs:76-97 | the legacy averages give the same 7550/7 and 7400/7 |
| Fixtures.EnvelopeFixture | src/indicator/test.rs:134-205 | `envelope(&data, 0.1)` is the band 7920/7, 7200/7, 6480/7 |
| Fixtures.BollingerStatisticsFixture | src/indicator/test.rs:134-202 | mean typical price 7500/7, variation 4225000/63, exponential mid 7200/7 |
| Fixtures.BollingerFixture | src/indicator/test.rs:134-209 | with the exact root of the variation the band is within 1e-10 of the test's upper and lower, mid 7200/7 |
| Fixtures.MacdFixture | src/indicator/test.rs:212-250 | averages 30500/27, 13850/13, 9560/9: fast −22550/351, slow 9560/9, histogram −395390/351 |
| Fixtures.ForceIndexFixture | src/indicator/test.rs:253-277 | the force of the two bars is 50000, stamped one day ago |
| Fixtures.ElderRayFixture | src/indicator/test.rs:280-317 | ask −25450/93 and bid 76850/93 |
| Fixtures.FirstFastFixture | src/indicator/test.rs:388-391 | `fast` of bars 0..3 is 400/7, stamped with the third bar's time |
| Fixtures.SecondFastFixture | src/indicator/test.rs:389-392 | `fast` of bars 3..6 is 25, stamped with the sixth bar's time |
| Fixtures.IntoSlowFixture | src/indicator/test.rs:399-402 | `into_slow` of the two fast values is 575/14, stamped with the later time |

## Left out

- `Time::now` (src/types/time.rs:40-44) reads the system clock. The fixtures take `now` as a parameter instead: any time at least 30 days after the epoch.
- IEEE-754 behaviour is not modelled: rounding, NaN, infinities, and overflow past `f64::MAX`. Exact reals replace `f64`, so the tests' 1e-10 tolerance plays no part. The fixtures state exact rationals that lie within it.
- The unguarded divisions are preconditions instead of modelled NaN or infinity results. They are: `simple` on an empty input (0/0), `simple_from` with `scope == 0` (src/indicator/moving_average.rs:31, the `requires scope > 0` of `MovingAverages.SimpleFrom`), `fast` when the highest high equals the lowest low, and `slow` when the ranges sum to zero.
- `f64::sqrt` in `bollinger` is a parameter `sqrt` of `Channels.BollingerOf`. The lemmas about the band take any exact non-negative root `s` with `s·s == variation`. Dafny has no real square root.
- `Channels.BollingerOf`: leaves the value of `sqrt` open, so it states the band for `stdev = sqrt(variation)` and nothing about `stdev` itself.
- `Macd.MacdOf`: its own contract states the error case and `ema_26` only. `ema_12` and `ema_9` are stated by `Macd.MacdRanksRestart` and `Macd.New`.
- `Oscillator.LegacyMacdOf`: its own contract states the error case only. The values are stated by `Oscillator.New` and tied to macd.rs by `Oscillator.LegacyMacdAgreesOnSortedInput`.
- `Vec::sort_by_key` is standard-library code. It is modelled as a stable insertion sort with the same result, since a stable sort's output is unique (`StableSort.SortByCharacterized`). Its running time and its own algorithm are not modelled.
- The test functions, the `#[cfg(test)]` wiring and the tests' helper records are used only as fixture data. The `simple_from` call at src/indicator/test.rs:125 passes four arguments; the function at src/indicator/moving_average.rs:25 takes three. That call and its expected value are not modelled.
- src/indicator/mod.rs declares and re-exports modules only. It does not declare `stochastic`, `trend_following` or `oscillator`; those are modelled anyway.
- The traits are plain records (`ToolkitTypes`): `BaseData`, `Stock`, and a `StockBase` that implements both with separate views. Generics, `Clone` bounds and the `thiserror` messages are not modelled.
- `Exec` and `Data` do not exist in src/types/data.rs, and `Exec` does not implement `BaseData`, though src/indicator/elder_ray.rs:22 passes it to `exponential`. The model reads an execution as the `BaseData` with its price, volume and timestamp.
- src/indicator/data.rs declares a 64-bit timestamp for `Data`. The test record of trend_following.rs (src/indicator/trend_following.rs:67-74) implements a `crate::types::data::Data` that src/types/data.rs does not declare, with a 128-bit timestamp. oscillator.rs implements only `Exec` (src/indicator/oscillator.rs:55-67), whose timestamp is 128-bit. The model uses 128 bits for `Data`; only comparisons matter.
- oscillator.rs declares its own `MovingAverageConvergenceDivergence` and `ForceIndex` structs, with the same fields as macd.rs and force_index.rs. The model reuses `Macd.MovingAverageConvergenceDivergence` and `ForceIndexes.ForceIndex`. Its `ForceIndex::new` (src/indicator/oscillator.rs:69-79) is `ForceIndexes.New`. The model adds only what differs: the unsorted windowing and the `Exec` view.
- No lemma characterises a zero variation (all typical prices equal). The solver cannot prove it cheaply over nonlinear real arithmetic. Only non-negativity is proved (`Channels.VariationNonNegative`).

## Findings

| source | as written | input that shows it | evidently intended | confidence | as-written member | corrected member |
|---|---|---|---|---|---|---|
| src/indicator/stochastic.rs:65-84 | `into_slow` refuses slow values, then takes `data.last().unwrap()`; the comment at :79 assumes the length is positive, but nothing checks it | `Stochastic::into_slow(&vec![])`: it passes the slow-value check and panics at `unwrap` | return `Err(EmptyData)` on the empty input, as `fast` and `slow` do | not executed | Stochastics.IntoSlowAsWritten (with Stochastics.IntoSlowEmptyPanics) | Stochastics.IntoSlowChecked |
