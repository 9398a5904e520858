/** The legacy moving averages of src/indicator/trend_following.rs, over the
    `price()` of `Data` instead of the `value()` of `BaseData`. They share the
    result type and the recurrence with src/indicator/moving_average.rs. */
module TrendFollowing {
  import opened ToolkitTypes
  import opened StableSort
  import opened Folds
  import MA = MovingAverages

  function Price(d: Data): real { d.price }

  /** The mean price. */
  function PriceMean(data: seq<Data>): real
    requires |data| > 0
  {
    SumBy(data, Price) / |data| as real
  }

  /** `exponential(data).inner()`: the rank-weighted recurrence over the prices
      sorted by timestamp. */
  function PriceExponential(data: seq<Data>): real {
    MA.EmaRecurrence(Map(SortBy(data, DataEpoch), Price))
  }

  /** `simple`: the summed prices over their count; no guard for the empty input. */
  method SimpleMovingAverage(data: seq<Data>) returns (r: MA.MovingAverage)
    requires |data| > 0
    ensures r == MA.Simple(PriceMean(data))
  {
    var sum := 0.0;
    var count := 0.0;
    for n := 0 to |data|
      invariant sum == SumBy(data[..n], Price)
      invariant count == n as real
    {
      assert data[..n + 1][..n] == data[..n];
      sum := sum + data[n].price;
      count := count + 1.0;
    }
    assert data[..|data|] == data;
    r := MA.Simple(sum / count);
  }

  /** `exponential`: sort a copy by timestamp and run the recurrence. */
  method ExponentialMovingAverage(data: seq<Data>) returns (r: MA.MovingAverage)
    ensures r == MA.Exponential(PriceExponential(data))
  {
    var sorted := SortedCopy(data, DataEpoch);
    ghost var ps := Map(sorted, Price);
    var first := true;
    var result := 0.0;
    var i := 1.0;
    for n := 0 to |sorted|
      invariant i == n as real + 1.0
      invariant first <==> n == 0
      invariant result == MA.EmaRecurrence(ps[..n])
    {
      var curr := sorted[n];
      var k := 2.0 / (i + 1.0);
      if first {
        result := curr.price;
        first := false;
      }
      result := MA.Blend(curr.price, result, k);
      i := i + 1.0;
      assert ps[..n + 1][..n] == ps[..n];
    }
    assert ps[..|sorted|] == ps;
    r := MA.Exponential(result);
  }

  // ---------------------------------------------------------------------
  // Properties

  /** The `Data` reading of a `BaseData` element: same value, same timestamp. */
  function AsData(b: BaseData): Data { Data(b.value, b.epochTime) }

  lemma {:induction false} SumOfPrices(bs: seq<BaseData>)
    ensures SumBy(Map(bs, AsData), Price) == SumBy(bs, MA.Value)
    decreases |bs|
  {
    if |bs| > 0 {
      assert Map(bs, AsData)[..|bs| - 1] == Map(bs[..|bs| - 1], AsData);
      SumOfPrices(bs[..|bs| - 1]);
    }
  }

  /** On the same values and timestamps the legacy averages agree with those
      of src/indicator/moving_average.rs. */
  lemma AgreesWithMovingAverage(data: seq<Data>, bs: seq<BaseData>)
    requires |data| == |bs|
    requires forall i :: 0 <= i < |bs| ==> data[i].price == bs[i].value && data[i].epochTime == bs[i].epochTime
    ensures |data| > 0 ==> PriceMean(data) == MA.Mean(bs)
    ensures PriceExponential(data) == MA.ExponentialValue(bs)
  {
    assert data == Map(bs, AsData);
    SumOfPrices(bs);
    SortByMap(bs, AsData, BaseEpoch, DataEpoch);
    var sorted := SortBy(bs, BaseEpoch);
    assert Map(Map(sorted, AsData), Price) == Values(sorted);
  }

  /** The empty input gives 0 and a single element gives its price. */
  lemma PriceExponentialEdgeCases(d: Data)
    ensures PriceExponential([]) == 0.0
    ensures PriceExponential([d]) == d.price
  {
    assert Map([d], Price) == [d.price];
    MA.BlendSame(d.price, 1.0);
  }
}
