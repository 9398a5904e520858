/** Price channels of src/indicator/channel.rs: the envelope (the exponential
    average scaled by 1 ± c) and the Bollinger band (a mid line plus and minus a
    multiple of the standard deviation of the typical price). */
module Channels {
  import opened ToolkitTypes
  import opened StableSort
  import opened Folds
  import opened MovingAverages

  datatype Band = Band(upper: real, mid: real, lower: real)

  datatype Channel = Envelope(band: Band) | Bollinger(band: Band) {
    /** `inner`: the band, whatever the tag. */
    function Inner(): (r: Band)
      ensures this == Envelope(r) || this == Bollinger(r)
    {
      match this
      case Envelope(b) => b
      case Bollinger(b) => b
    }
  }

  // ---------------------------------------------------------------------
  // Envelope

  /** `envelope_from`: the band `ema·(1+c)`, `ema`, `ema·(1−c)`. */
  function EnvelopeFrom(ema: MovingAverage, coefficient: real): (r: Channel)
    ensures r.Envelope?
    ensures r.Inner().mid == ema.Inner()
    ensures r.Inner().upper - r.Inner().mid == r.Inner().mid - r.Inner().lower == ema.Inner() * coefficient
    ensures ema.Inner() >= 0.0 && coefficient >= 0.0 ==>
      r.Inner().lower <= r.Inner().mid <= r.Inner().upper
  {
    var e := ema.Inner();
    HalfWidth(e, coefficient);
    Envelope(Band(e * (1.0 + coefficient), e, e * (1.0 - coefficient)))
  }

  /** `envelope`: the envelope around the exponential average of `data`. */
  method EnvelopeOf(data: seq<BaseData>, coefficient: real) returns (r: Channel)
    ensures r.Envelope? && r.Inner().mid == ExponentialValue(data)
    ensures r.Inner() == EnvelopeFrom(Exponential(ExponentialValue(data)), coefficient).Inner()
  {
    var ema := ExponentialMovingAverage(data);
    var e := ema.Inner();
    r := Envelope(Band(e * (1.0 + coefficient), e, e * (1.0 - coefficient)));
  }

  lemma HalfWidth(e: real, c: real)
    ensures e * (1.0 + c) - e == e - e * (1.0 - c) == e * c
    ensures e >= 0.0 && c >= 0.0 ==> e * (1.0 - c) <= e <= e * (1.0 + c)
  {
    if e >= 0.0 && c >= 0.0 {
      assert e * c >= 0.0;
    }
  }

  // ---------------------------------------------------------------------
  // Bollinger band

  /** The typical price `(open + high + low) / 3` of one bar. */
  function Typical(s: StockBase): real {
    (s.stock.open + s.stock.high + s.stock.low) / 3.0
  }

  /** The mean typical price. */
  function TypicalMean(data: seq<StockBase>): real
    requires |data| > 0
  {
    SumBy(data, Typical) / |data| as real
  }

  /** The squared distance of a bar's typical price from `mean`. */
  function SquaredDeviation(mean: real): StockBase -> real {
    s => (mean - Typical(s)) * (mean - Typical(s))
  }

  /** The `variation`: the sum (not the mean) of the squared deviations. */
  function Variation(data: seq<StockBase>): real
    requires |data| > 0
  {
    SumBy(data, SquaredDeviation(TypicalMean(data)))
  }

  /** The mid line: the exponential average of the `BaseData` views of the bars
      (sorted by their `Stock` timestamp) or the mean typical price. */
  function BollingerMid(data: seq<StockBase>, exponential: bool): real
    requires |data| > 0
  {
    if exponential then ExponentialValue(Bases(SortBy(data, StockEpoch))) else TypicalMean(data)
  }

  /** The band for a given standard deviation `stdev`. */
  function BollingerBand(data: seq<StockBase>, devMul: real, exponential: bool, stdev: real): (r: Band)
    requires |data| > 0
    ensures r.mid == BollingerMid(data, exponential)
    ensures r.upper - r.mid == r.mid - r.lower == devMul * stdev
    ensures devMul >= 0.0 && stdev >= 0.0 ==> r.lower <= r.mid <= r.upper
  {
    var mid := BollingerMid(data, exponential);
    NonNegativeProduct(devMul, stdev);
    Band(mid + devMul * stdev, mid, mid - devMul * stdev)
  }

  /** The first loop of `bollinger`: the sum of the typical prices. */
  method TypicalSum(sorted: seq<StockBase>) returns (sum: real)
    ensures sum == SumBy(sorted, Typical)
  {
    sum := 0.0;
    for n := 0 to |sorted|
      invariant sum == SumBy(sorted[..n], Typical)
    {
      assert sorted[..n + 1][..n] == sorted[..n];
      var elem := sorted[n].stock;
      sum := sum + (elem.open + elem.high + elem.low) / 3.0;
    }
    assert sorted[..|sorted|] == sorted;
  }

  /** The second loop of `bollinger`: the sum of the squared deviations from `mean`. */
  method VariationSum(sorted: seq<StockBase>, mean: real) returns (variation: real)
    ensures variation == SumBy(sorted, SquaredDeviation(mean))
  {
    variation := 0.0;
    for n := 0 to |sorted|
      invariant variation == SumBy(sorted[..n], SquaredDeviation(mean))
    {
      assert sorted[..n + 1][..n] == sorted[..n];
      var elem := sorted[n].stock;
      var dev := mean - (elem.open + elem.high + elem.low) / 3.0;
      variation := variation + dev * dev;
    }
    assert sorted[..|sorted|] == sorted;
  }

  /** The sorting and the two accumulating loops of `bollinger`. */
  method BollingerStatistics(data: seq<StockBase>) returns (sorted: seq<StockBase>, mean: real, variation: real)
    requires |data| > 0
    ensures sorted == SortBy(data, StockEpoch)
    ensures mean == TypicalMean(data) && variation == Variation(data)
  {
    sorted := SortedCopy(data, StockEpoch);
    SortByPermutation(data, StockEpoch);
    var sum := TypicalSum(sorted);
    SumByPermutation(sorted, data, Typical);
    mean := sum / |sorted| as real;
    variation := VariationSum(sorted, mean);
    SumByPermutation(sorted, data, SquaredDeviation(mean));
  }

  /** `bollinger`. The square root is the caller-supplied `sqrt`, applied to the
      variation as the source applies `f64::sqrt`. The sums run over the sorted
      copy; the contract states them over the input, whose order they ignore. */
  method BollingerOf(data: seq<StockBase>, devMul: real, exponential: bool, sqrt: real -> real)
    returns (r: Result<Channel>)
    ensures |data| == 0 <==> r == Err(EmptyData)
    ensures |data| > 0 ==>
      r.Ok? && r.value.Bollinger? &&
      r.value.Inner() == BollingerBand(data, devMul, exponential, sqrt(Variation(data)))
  {
    if |data| == 0 {
      return Err(EmptyData);
    }
    var sorted, mean, variation := BollingerStatistics(data);
    var stdev := sqrt(variation);
    var mid;
    if exponential {
      var ema := ExponentialMovingAverage(Bases(sorted));
      mid := ema.Inner();
    } else {
      mid := mean;
    }
    ghost var band := BollingerBand(data, devMul, exponential, stdev);
    assert band == Band(mid + devMul * stdev, mid, mid - devMul * stdev);
    r := Ok(Bollinger(Band(mid + devMul * stdev, mid, mid - devMul * stdev)));
  }

  // ---------------------------------------------------------------------
  // Properties

  /** The variation is a sum of squares, hence never negative. */
  lemma VariationNonNegative(data: seq<StockBase>)
    requires |data| > 0
    ensures Variation(data) >= 0.0
  {
    var f := SquaredDeviation(TypicalMean(data));
    forall i | 0 <= i < |data| ensures f(data[i]) >= 0.0 {
      Square(TypicalMean(data) - Typical(data[i]));
    }
    SumByNonNegative(data, f);
  }

  lemma NonNegativeProduct(a: real, b: real)
    ensures a >= 0.0 && b >= 0.0 ==> a * b >= 0.0
  {
  }

  lemma Square(x: real)
    ensures x * x >= 0.0
  {
  }

  /** With an exact square root `s` of the variation, the band's half-width
      squared is `devMul² · variation` and the band is ordered for `devMul ≥ 0`. */
  lemma BollingerWidth(data: seq<StockBase>, devMul: real, exponential: bool, s: real)
    requires |data| > 0
    requires s >= 0.0 && s * s == Variation(data)
    ensures var b := BollingerBand(data, devMul, exponential, s);
      (b.upper - b.mid) * (b.upper - b.mid) == devMul * devMul * Variation(data) &&
      (devMul >= 0.0 ==> b.lower <= b.mid <= b.upper)
  {
    var b := BollingerBand(data, devMul, exponential, s);
    assert b.upper - b.mid == devMul * s;
    assert (devMul * s) * (devMul * s) == devMul * devMul * (s * s);
  }

  /** The exponential mid line is the envelope's mid line over the `BaseData`
      views when those have distinct timestamps: sorting by the `Stock`
      timestamp first does not change the exponential average then. */
  lemma BollingerMidIsEnvelopeMid(data: seq<StockBase>, devMul: real, c: real, s: real)
    requires |data| > 0
    requires DistinctKeys(Bases(data), BaseEpoch)
    ensures BollingerBand(data, devMul, true, s).mid ==
      EnvelopeFrom(Exponential(ExponentialValue(Bases(data))), c).Inner().mid
  {
    var sorted := SortBy(data, StockEpoch);
    SortByPermutation(data, StockEpoch);
    BasesPermutation(sorted, data);
    ExponentialPermutationInvariant(Bases(data), Bases(sorted));
  }

  function BaseOf(s: StockBase): BaseData { s.base }

  /** Taking the `BaseData` views commutes with permuting the bars. */
  lemma BasesPermutation(s: seq<StockBase>, t: seq<StockBase>)
    requires multiset(s) == multiset(t)
    ensures multiset(Bases(s)) == multiset(Bases(t))
  {
    MapPermutation(s, t, BaseOf);
    assert Bases(s) == Map(s, BaseOf);
    assert Bases(t) == Map(t, BaseOf);
  }
}
