/** The stochastic oscillator of src/indicator/stochastic.rs: the fast %K of a
    run of bars, the slow %K, and the slow line as the simple average of fast
    values. */
module Stochastics {
  import opened ToolkitTypes
  import opened StableSort
  import opened Folds
  import opened MovingAverages

  /** A %K value, tagged fast or slow, with the timestamp of the latest bar. */
  datatype Stochastic = Fast(k: real, epochTime: u128) | Slow(k: real, epochTime: u128) {
    /** `inner`: the payload, whatever the tag. */
    function Inner(): (r: real)
      ensures this == Fast(r, epochTime) || this == Slow(r, epochTime)
    {
      match this
      case Fast(f, _) => f
      case Slow(f, _) => f
    }

    /** `value` of the `BaseData` implementation. */
    function Value(): (r: real)
      ensures r == Inner()
    {
      k
    }

    /** The `BaseData` implementation: the payload, weight 1, and the timestamp. */
    function AsBase(): (r: BaseData)
      ensures r.value == Inner() && r.weight == 1 && r.epochTime == epochTime
    {
      BaseData(Value(), 1, epochTime)
    }
  }

  function High(b: Stock): real { b.high }
  function Low(b: Stock): real { b.low }
  /** `close − low` and `high − low` of one bar: the terms of the slow %K. */
  function CloseAboveLow(b: Stock): real { b.close - b.low }
  function Range(b: Stock): real { b.high - b.low }

  /** The running maximum of the highs, started at 0 as in the source. */
  function HighestHigh(data: seq<Stock>): real { MaxFrom(0.0, data, High) }

  /** The running minimum of the lows, started at `f64::MAX` as in the source. */
  function LowestLow(data: seq<Stock>): real { MinFrom(F64_MAX, data, Low) }

  /** The bar that `data.last()` yields after the stable sort. */
  function LatestBar(data: seq<Stock>): Stock
    requires |data| > 0
  {
    LastBy(data, BarEpoch)
  }

  /** The result of `fast`. The division is unguarded in the source, so the
      highest high must differ from the lowest low. */
  function FastOf(data: seq<Stock>): (r: Result<Stochastic>)
    requires |data| > 0 ==> HighestHigh(data) != LowestLow(data)
    ensures |data| == 0 <==> r == Err(EmptyData)
    ensures r.Ok? ==> r.value.Fast? && r.value.epochTime == LatestBar(data).epochTime
  {
    if |data| == 0 then Err(EmptyData)
    else
      var lo := LowestLow(data);
      Ok(Fast((LatestBar(data).close - lo) / (HighestHigh(data) - lo) * 100.0, LatestBar(data).epochTime))
  }

  /** The result of `slow`. The division is unguarded in the source, so the
      ranges must not sum to zero. */
  function SlowOf(data: seq<Stock>): (r: Result<Stochastic>)
    requires |data| > 0 ==> SumBy(data, Range) != 0.0
    ensures |data| == 0 <==> r == Err(EmptyData)
    ensures r.Ok? ==> r.value.Slow? && r.value.epochTime == LatestBar(data).epochTime
  {
    if |data| == 0 then Err(EmptyData)
    else Ok(Slow(SumBy(data, CloseAboveLow) / SumBy(data, Range) * 100.0, LatestBar(data).epochTime))
  }

  // ---------------------------------------------------------------------
  // The operations

  /** The loop of `fast`: the running maximum of the highs and minimum of the lows. */
  method Extremes(sorted: seq<Stock>) returns (maxHigh: real, minLow: real)
    ensures maxHigh == HighestHigh(sorted) && minLow == LowestLow(sorted)
  {
    maxHigh, minLow := 0.0, F64_MAX;
    for n := 0 to |sorted|
      invariant maxHigh == MaxFrom(0.0, sorted[..n], High)
      invariant minLow == MinFrom(F64_MAX, sorted[..n], Low)
    {
      assert sorted[..n + 1][..n] == sorted[..n];
      maxHigh := RealMax(maxHigh, sorted[n].high);
      minLow := RealMin(minLow, sorted[n].low);
    }
    assert sorted[..|sorted|] == sorted;
  }

  /** `fast`: sort a copy, take the last close and timestamp, and scale the
      close within the extreme range to a percentage. */
  method FastStochastic(data: seq<Stock>) returns (r: Result<Stochastic>)
    requires |data| > 0 ==> HighestHigh(data) != LowestLow(data)
    ensures r == FastOf(data)
  {
    if |data| == 0 {
      return Err(EmptyData);
    }
    var sorted := SortedCopy(data, BarEpoch);
    SortByPermutation(data, BarEpoch);
    var lastClose := sorted[|sorted| - 1].close;
    var lastEpochTime := sorted[|sorted| - 1].epochTime;
    var maxHigh, minLow := Extremes(sorted);
    MaxFromPermutation(0.0, sorted, data, High);
    MinFromPermutation(F64_MAX, sorted, data, Low);
    r := Ok(Fast((lastClose - minLow) / (maxHigh - minLow) * 100.0, lastEpochTime));
  }

  /** The loop of `slow`: the two running sums. */
  method SlowSums(sorted: seq<Stock>) returns (sumNumerator: real, sumDenominator: real)
    ensures sumNumerator == SumBy(sorted, CloseAboveLow) && sumDenominator == SumBy(sorted, Range)
  {
    sumNumerator, sumDenominator := 0.0, 0.0;
    for n := 0 to |sorted|
      invariant sumNumerator == SumBy(sorted[..n], CloseAboveLow)
      invariant sumDenominator == SumBy(sorted[..n], Range)
    {
      assert sorted[..n + 1][..n] == sorted[..n];
      sumNumerator := sumNumerator + (sorted[n].close - sorted[n].low);
      sumDenominator := sumDenominator + (sorted[n].high - sorted[n].low);
    }
    assert sorted[..|sorted|] == sorted;
  }

  /** `slow`: sort a copy and divide the summed `close − low` by the summed range. */
  method SlowStochastic(data: seq<Stock>) returns (r: Result<Stochastic>)
    requires |data| > 0 ==> SumBy(data, Range) != 0.0
    ensures r == SlowOf(data)
  {
    if |data| == 0 {
      return Err(EmptyData);
    }
    var sorted := SortedCopy(data, BarEpoch);
    SortByPermutation(data, BarEpoch);
    var lastEpochTime := sorted[|sorted| - 1].epochTime;
    var sumNumerator, sumDenominator := SlowSums(sorted);
    SumByPermutation(sorted, data, CloseAboveLow);
    SumByPermutation(sorted, data, Range);
    r := Ok(Slow(sumNumerator / sumDenominator * 100.0, lastEpochTime));
  }

  function StochasticEpoch(s: Stochastic): int { s.epochTime }
  function StochasticBase(s: Stochastic): BaseData { s.AsBase() }

  /** `filter(Slow).count()`: the number of slow values. */
  function SlowCount(data: seq<Stochastic>): (r: nat)
    ensures r == 0 <==> forall i :: 0 <= i < |data| ==> data[i].Fast?
    decreases |data|
  {
    if |data| == 0 then 0
    else SlowCount(data[..|data| - 1]) + (if data[|data| - 1].Slow? then 1 else 0)
  }

  /** The result of `into_slow` on a non-empty input. */
  function IntoSlowOf(data: seq<Stochastic>): (r: Result<Stochastic>)
    requires |data| > 0
    ensures SlowCount(data) > 0 <==> r == Err(InvalidData)
    ensures r.Ok? ==> r.value.Slow? && r.value.epochTime == LastBy(data, StochasticEpoch).epochTime
  {
    if SlowCount(data) > 0 then Err(InvalidData)
    else Ok(Slow(Mean(Map(data, StochasticBase)), LastBy(data, StochasticEpoch).epochTime))
  }

  /** What a call of `into_slow` as written does: return a result, or panic. */
  datatype Outcome = Returns(result: Result<Stochastic>) | Panics

  /** `into_slow` as written, over every input: any slow value is refused, an
      empty input passes that check and panics at `unwrap`, and every other
      input gets the slow line. */
  function IntoSlowAsWritten(data: seq<Stochastic>): (r: Outcome)
    ensures r == Panics <==> |data| == 0
    ensures |data| > 0 ==> r == Returns(IntoSlowOf(data))
  {
    if SlowCount(data) > 0 then Returns(Err(InvalidData))
    else if |data| == 0 then Panics
    else Returns(IntoSlowOf(data))
  }

  /** `into_slow` as written: refuse any slow value, then sort a copy and take
      the simple average of the payloads with the latest timestamp. An empty
      input passes the check and then panics at `unwrap`, hence the precondition. */
  method IntoSlow(data: seq<Stochastic>) returns (r: Result<Stochastic>)
    requires |data| > 0
    ensures r == IntoSlowOf(data)
  {
    if SlowCount(data) > 0 {
      return Err(InvalidData);
    }
    var sorted := SortedCopy(data, StochasticEpoch);
    SortByPermutation(data, StochasticEpoch);
    var lastEpochTime := sorted[|sorted| - 1].epochTime;
    var bases := Map(sorted, StochasticBase);
    var avg := SimpleMovingAverage(bases);
    MapPermutation(sorted, data, StochasticBase);
    MeanPermutationInvariant(bases, Map(data, StochasticBase));
    r := Ok(Slow(avg.Inner(), lastEpochTime));
  }

  /** `into_slow` with the empty input answered by `EmptyData`, as `fast` and
      `slow` do, instead of the panic. */
  method IntoSlowChecked(data: seq<Stochastic>) returns (r: Result<Stochastic>)
    ensures |data| == 0 <==> r == Err(EmptyData)
    ensures |data| > 0 ==> r == IntoSlowOf(data)
  {
    if |data| == 0 {
      return Err(EmptyData);
    }
    r := IntoSlow(data);
  }

  // ---------------------------------------------------------------------
  // Properties

  /** The empty input passes the slow-value check of `into_slow` and reaches
      the `unwrap` of the last element, which does not exist. */
  lemma IntoSlowEmptyPanics()
    ensures IntoSlowAsWritten([]) == Panics
  {
  }

  /** The timestamp of `fast`, `slow` and `into_slow` is the latest timestamp of the input. */
  lemma LatestTimestamp(data: seq<Stock>)
    requires |data| > 0
    ensures exists i :: 0 <= i < |data| && data[i].epochTime == LatestBar(data).epochTime
    ensures forall i :: 0 <= i < |data| ==> data[i].epochTime <= LatestBar(data).epochTime
  {
    var b := LatestBar(data);
    var i :| 0 <= i < |data| && data[i] == b;
  }

  /** The extremes bracket the close of every bar whose close lies between its low and its high. */
  lemma ExtremesBracket(data: seq<Stock>, j: int)
    requires 0 <= j < |data|
    requires forall i :: 0 <= i < |data| ==> data[i].low <= data[i].close <= data[i].high
    ensures LowestLow(data) <= data[j].close <= HighestHigh(data)
  {
    MaxFromIsMax(0.0, data, High);
    MinFromIsMin(F64_MAX, data, Low);
  }

  /** With the latest close between the lowest low and the highest high, and a
      non-zero range, fast %K lies in [0, 100]. */
  lemma FastInRange(data: seq<Stock>)
    requires |data| > 0 && HighestHigh(data) > LowestLow(data)
    requires LowestLow(data) <= LatestBar(data).close <= HighestHigh(data)
    ensures 0.0 <= FastOf(data).value.k <= 100.0
  {
    FractionInRange(LatestBar(data).close - LowestLow(data), HighestHigh(data) - LowestLow(data));
  }

  /** In particular, when every bar's close lies between its low and its high. */
  lemma FastInRangeWellFormed(data: seq<Stock>)
    requires |data| > 0 && HighestHigh(data) != LowestLow(data)
    requires forall i :: 0 <= i < |data| ==> data[i].low <= data[i].close <= data[i].high
    ensures 0.0 <= FastOf(data).value.k <= 100.0
  {
    var b := LatestBar(data);
    var j :| 0 <= j < |data| && data[j] == b;
    ExtremesBracket(data, j);
    FastInRange(data);
  }

  /** Fast %K is 100 exactly when the latest close is the highest high, and 0
      exactly when it is the lowest low. */
  lemma FastExtremes(data: seq<Stock>)
    requires |data| > 0 && HighestHigh(data) != LowestLow(data)
    ensures FastOf(data).value.k == 100.0 <==> LatestBar(data).close == HighestHigh(data)
    ensures FastOf(data).value.k == 0.0 <==> LatestBar(data).close == LowestLow(data)
  {
    var lo, hi, c := LowestLow(data), HighestHigh(data), LatestBar(data).close;
    Percentage(c - lo, hi - lo);
  }

  lemma FractionInRange(a: real, b: real)
    requires 0.0 <= a <= b && b != 0.0
    ensures 0.0 <= a / b * 100.0 <= 100.0
  {
    assert a / b <= 1.0;
  }

  lemma Percentage(a: real, b: real)
    requires b != 0.0
    ensures a / b * 100.0 == 100.0 <==> a == b
    ensures a / b * 100.0 == 0.0 <==> a == 0.0
  {
    assert a / b * b == a;
  }

  /** With pairwise distinct timestamps the input order does not matter to `fast`. */
  lemma FastPermutationInvariant(data: seq<Stock>, data': seq<Stock>)
    requires DistinctKeys(data, BarEpoch)
    requires multiset(data) == multiset(data')
    requires |data| > 0 ==> HighestHigh(data) != LowestLow(data)
    ensures |data'| > 0 ==> HighestHigh(data') != LowestLow(data')
    ensures FastOf(data) == FastOf(data')
  {
    assert |data| == |multiset(data)| == |multiset(data')| == |data'|;
    MaxFromPermutation(0.0, data, data', High);
    MinFromPermutation(F64_MAX, data, data', Low);
    SortByPermutationInvariant(data, data', BarEpoch);
  }

  /** `slow` does not depend on the input order at all, ties included: its sums
      ignore order and its timestamp is the latest one. */
  lemma SlowPermutationInvariant(data: seq<Stock>, data': seq<Stock>)
    requires multiset(data) == multiset(data')
    requires |data| > 0 ==> SumBy(data, Range) != 0.0
    ensures |data'| > 0 ==> SumBy(data', Range) != 0.0
    ensures SlowOf(data) == SlowOf(data')
  {
    assert |data| == |multiset(data)| == |multiset(data')| == |data'|;
    SumByPermutation(data, data', CloseAboveLow);
    SumByPermutation(data, data', Range);
    if |data| > 0 {
      LastByKeyPermutation(data, data', BarEpoch);
    }
  }

  /** With every bar's close between its low and its high, slow %K lies in [0, 100]. */
  lemma SlowInRange(data: seq<Stock>)
    requires |data| > 0 && SumBy(data, Range) != 0.0
    requires forall i :: 0 <= i < |data| ==> data[i].low <= data[i].close <= data[i].high
    ensures 0.0 <= SlowOf(data).value.k <= 100.0
  {
    SumByNonNegative(data, CloseAboveLow);
    SumByMonotone(data, CloseAboveLow, Range);
    FractionInRange(SumBy(data, CloseAboveLow), SumBy(data, Range));
  }

  /** The slow line of fast values in [0, 100] lies in [0, 100]. */
  lemma IntoSlowInRange(data: seq<Stochastic>)
    requires |data| > 0 && SlowCount(data) == 0
    requires forall i :: 0 <= i < |data| ==> 0.0 <= data[i].k <= 100.0
    ensures 0.0 <= IntoSlowOf(data).value.k <= 100.0
  {
    var bases := Map(data, StochasticBase);
    MeanWithinBounds(bases, 0.0, 100.0);
  }

  /** `into_slow` does not depend on the input order, ties included. */
  lemma IntoSlowPermutationInvariant(data: seq<Stochastic>, data': seq<Stochastic>)
    requires |data| > 0 && multiset(data) == multiset(data')
    ensures |data'| > 0 && IntoSlowOf(data) == IntoSlowOf(data')
  {
    assert |data| == |multiset(data)| == |multiset(data')| == |data'|;
    LastByKeyPermutation(data, data', StochasticEpoch);
    MapPermutation(data, data', StochasticBase);
    MeanPermutationInvariant(Map(data, StochasticBase), Map(data', StochasticBase));
    SlowCountPermutation(data, data');
  }

  lemma SlowCountPermutation(data: seq<Stochastic>, data': seq<Stochastic>)
    requires multiset(data) == multiset(data')
    ensures SlowCount(data) == 0 <==> SlowCount(data') == 0
  {
    if SlowCount(data) != 0 {
      var i :| 0 <= i < |data| && data[i].Slow?;
      assert data[i] in multiset(data');
    }
    if SlowCount(data') != 0 {
      var i :| 0 <= i < |data'| && data'[i].Slow?;
      assert data'[i] in multiset(data);
    }
  }
}
