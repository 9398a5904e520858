/** The Elder Ray of src/indicator/elder_ray.rs: the distance of the lowest and
    of the highest price from their exponential average. */
module ElderRays {
  import opened ToolkitTypes
  import opened StableSort
  import opened Folds
  import opened MovingAverages

  /** The seller's force `ask` and the buyer's force `bid`. */
  datatype ElderRay = ElderRay(askForce: real, bidForce: real)

  function Price(e: Exec): real { e.price }

  /** The exponential average of the prices, sorted by timestamp. */
  function PriceEma(data: seq<Exec>): real {
    ExponentialValue(Map(data, ExecBase))
  }

  /** The result of `new`: high and low start at 0 and `f64::MAX`. */
  function ElderRayOf(data: seq<Exec>): (r: Result<ElderRay>)
    ensures |data| == 0 <==> r == Err(EmptyData)
    ensures r.Ok? ==>
      r.value.askForce == MinFrom(F64_MAX, data, Price) - PriceEma(data) &&
      r.value.bidForce == MaxFrom(0.0, data, Price) - PriceEma(data)
  {
    if |data| == 0 then Err(EmptyData)
    else
      var ema := PriceEma(data);
      Ok(ElderRay(MinFrom(F64_MAX, data, Price) - ema, MaxFrom(0.0, data, Price) - ema))
  }

  /** `new`: the exponential average, then one pass over the input (unsorted)
      for the highest and the lowest price. */
  method New(data: seq<Exec>) returns (r: Result<ElderRay>)
    ensures r == ElderRayOf(data)
  {
    if |data| == 0 {
      return Err(EmptyData);
    }
    var highPrice, lowPrice := 0.0, F64_MAX;
    var ema := ExponentialMovingAverage(Map(data, ExecBase));
    for n := 0 to |data|
      invariant highPrice == MaxFrom(0.0, data[..n], Price)
      invariant lowPrice == MinFrom(F64_MAX, data[..n], Price)
    {
      assert data[..n + 1][..n] == data[..n];
      highPrice := RealMax(highPrice, data[n].price);
      lowPrice := RealMin(lowPrice, data[n].price);
    }
    assert data[..|data|] == data;
    r := Ok(ElderRay(lowPrice - ema.Inner(), highPrice - ema.Inner()));
  }

  // ---------------------------------------------------------------------
  // Properties

  /** The seller's force never exceeds the buyer's force. */
  lemma AskAtMostBid(data: seq<Exec>)
    requires |data| > 0
    ensures ElderRayOf(data).value.askForce <= ElderRayOf(data).value.bidForce
  {
    MaxFromIsMax(0.0, data, Price);
    MinFromIsMin(F64_MAX, data, Price);
  }

  /** The average lies between the lowest price and the highest, and the
      accumulators' seeds only widen that range (the low is at most the lowest
      price, the high at least the highest), so the seller's force is at most 0
      and the buyer's at least 0, for prices of any sign. */
  lemma ForcesStraddleZero(data: seq<Exec>)
    requires |data| > 0
    ensures ElderRayOf(data).value.askForce <= 0.0 <= ElderRayOf(data).value.bidForce
  {
    MaxFromIsMax(0.0, data, Price);
    MinFromIsMin(F64_MAX, data, Price);
    var lo, hi := MinFrom(F64_MAX, data, Price), MaxFrom(0.0, data, Price);
    var bases := Map(data, ExecBase);
    ExponentialWithinBounds(bases, lo, hi);
  }

  /** Without the bounds on the prices the seeds show through: a single negative
      price leaves the high at 0, so the buyer's force is not the distance of the
      highest price from the average. */
  lemma NegativePriceKeepsZeroHigh(e: Exec)
    requires e.price < 0.0
    ensures ElderRayOf([e]).value.bidForce == -e.price
  {
    ExponentialEdgeCases(ExecBase(e));
    assert Map([e], ExecBase) == [ExecBase(e)];
    assert [e][..0] == [];
    assert MaxFrom(0.0, [e], Price) == RealMax(0.0, e.price) == 0.0;
  }

  /** With pairwise distinct timestamps the input order does not matter. */
  lemma ElderRayPermutationInvariant(data: seq<Exec>, data': seq<Exec>)
    requires DistinctKeys(Map(data, ExecBase), BaseEpoch)
    requires multiset(data) == multiset(data')
    ensures ElderRayOf(data) == ElderRayOf(data')
  {
    assert |data| == |multiset(data)| == |multiset(data')| == |data'|;
    MaxFromPermutation(0.0, data, data', Price);
    MinFromPermutation(F64_MAX, data, data', Price);
    MapPermutation(data, data', ExecBase);
    ExponentialPermutationInvariant(Map(data, ExecBase), Map(data', ExecBase));
  }
}
