/** Moving averages of src/indicator/moving_average.rs: the simple mean, the
    rank-weighted exponential average (sorted by timestamp first) and the two
    O(1) incremental updates. */
module MovingAverages {
  import opened ToolkitTypes
  import opened StableSort
  import opened Folds

  /** The result, tagged with the kind of average that produced it. */
  datatype MovingAverage = Simple(avg: real) | Exponential(avg: real) {
    /** `inner`: the payload, whatever the tag. */
    function Inner(): (r: real)
      ensures this == Simple(r) || this == Exponential(r)
    {
      match this
      case Simple(f) => f
      case Exponential(f) => f
    }
  }

  function Value(d: BaseData): real { d.value }

  /** The arithmetic mean of the values. */
  function Mean(data: seq<BaseData>): real
    requires |data| > 0
  {
    SumBy(data, Value) / |data| as real
  }

  /** The blending step shared by `exponential` and `exponential_from`:
      `value·k + previous·(1 − k)`. */
  function Blend(v: real, prev: real, k: real): real {
    v * k + prev * (1.0 - k)
  }

  /** The recurrence of `exponential` over values already in time order:
      the first value seeds the result, then the value of rank `i` (counted
      from 1) is blended in with weight `k = 2/(i+1)`. */
  function EmaRecurrence(vs: seq<real>): real
    decreases |vs|
  {
    if |vs| == 0 then 0.0
    else
      var k := 2.0 / (|vs| as real + 1.0);
      var prev := if |vs| == 1 then vs[0] else EmaRecurrence(vs[..|vs| - 1]);
      Blend(vs[|vs| - 1], prev, k)
  }

  /** `exponential(data).inner()`: the recurrence over the values sorted by time. */
  function ExponentialValue(data: seq<BaseData>): real {
    EmaRecurrence(Values(SortBy(data, BaseEpoch)))
  }

  /** An independent reference: the sum of `i · v_i` over the 1-based ranks `i`. */
  function RankWeightedSum(vs: seq<real>): real
    decreases |vs|
  {
    if |vs| == 0 then 0.0 else RankWeightedSum(vs[..|vs| - 1]) + |vs| as real * vs[|vs| - 1]
  }

  /** The sum of the ranks 1 + 2 + … + n. */
  function RankTotal(n: nat): real {
    n as real * (n as real + 1.0) / 2.0
  }

  // ---------------------------------------------------------------------
  // The operations

  /** `simple`: the sum of `value()` over the input divided by its length.
      The source does not guard the empty input (0/0 in floating point). */
  method SimpleMovingAverage(data: seq<BaseData>) returns (r: MovingAverage)
    requires |data| > 0
    ensures r == Simple(Mean(data))
  {
    var sum := 0.0;
    var count := 0.0;
    for n := 0 to |data|
      invariant sum == SumBy(data[..n], Value)
      invariant count == n as real
    {
      assert data[..n + 1][..n] == data[..n];
      sum := sum + data[n].value;
      count := count + 1.0;
    }
    assert data[..|data|] == data;
    r := Simple(sum / count);
  }

  /** `simple_from`: an O(1) update that assumes the value leaving a window of
      `scope` elements equals the previous average. */
  function SimpleFrom(scope: usize, prev: MovingAverage, newData: BaseData): (r: MovingAverage)
    requires scope > 0
    ensures r.Simple?
    ensures r.Inner() == prev.Inner() + (newData.value - prev.Inner()) / scope as real
    ensures newData.value == prev.Inner() ==> r.Inner() == prev.Inner()
    ensures scope == 1 ==> r.Inner() == newData.value
  {
    var p := prev.Inner();
    var numerator := p * scope as real;
    Simple((numerator - p + newData.value) / scope as real)
  }

  /** `exponential`: sort a copy by timestamp, then run the rank-weighted recurrence. */
  method ExponentialMovingAverage(data: seq<BaseData>) returns (r: MovingAverage)
    ensures r == Exponential(ExponentialValue(data))
  {
    var sorted := SortedCopy(data, BaseEpoch);
    ghost var vs := Values(sorted);
    var first := true;
    var result := 0.0;
    var i := 1.0;
    for n := 0 to |sorted|
      invariant i == n as real + 1.0
      invariant first <==> n == 0
      invariant result == EmaRecurrence(vs[..n])
    {
      var curr := sorted[n];
      var k := 2.0 / (i + 1.0);
      if first {
        result := curr.value;
        first := false;
      }
      result := Blend(curr.value, result, k);
      i := i + 1.0;
      assert vs[..n + 1][..n] == vs[..n];
    }
    assert vs[..|sorted|] == vs;
    r := Exponential(result);
  }

  /** `exponential_from`: one step of a conventional EMA with the fixed
      smoothing constant `k = 2/(scope+1)`. `scope + 1` must not overflow `usize`. */
  function ExponentialFrom(scope: usize, prev: MovingAverage, newData: BaseData): (r: MovingAverage)
    requires scope + 1 < U64_LIMIT
    ensures r.Exponential?
    ensures newData.value == prev.Inner() ==> r.Inner() == prev.Inner()
    ensures scope >= 1 ==>
      RealMin(prev.Inner(), newData.value) <= r.Inner() <= RealMax(prev.Inner(), newData.value)
  {
    var k := 2.0 / (scope + 1) as real;
    var p, x := prev.Inner(), newData.value;
    BlendSame(p, k);
    if scope >= 1 then
      ConvexBlend(x, p, k, RealMin(p, x), RealMax(p, x));
      Exponential(Blend(x, p, k))
    else
      Exponential(Blend(x, p, k))
  }

  // ---------------------------------------------------------------------
  // Properties

  /** A blend with weight in [0, 1] of two values in [lo, hi] stays in [lo, hi]. */
  lemma ConvexBlend(v: real, p: real, k: real, lo: real, hi: real)
    requires 0.0 <= k <= 1.0 && lo <= v <= hi && lo <= p <= hi
    ensures lo <= Blend(v, p, k) <= hi
  {
    assert (v - lo) * k >= 0.0;
    assert (p - lo) * (1.0 - k) >= 0.0;
    assert (hi - v) * k >= 0.0;
    assert (hi - p) * (1.0 - k) >= 0.0;
  }

  /** Blending a value with itself gives that value, whatever the weight. */
  lemma BlendSame(p: real, k: real)
    ensures Blend(p, p, k) == p
  {
  }

  /** One step of the recurrence, in closed form. */
  lemma EmaStepAlgebra(a: real, v: real, s: real)
    requires a >= 2.0
    ensures Blend(v, s / ((a - 1.0) * a / 2.0), 2.0 / (a + 1.0)) == (s + a * v) / (a * (a + 1.0) / 2.0)
  {
    var k := 2.0 / (a + 1.0);
    assert 1.0 - k == (a - 1.0) / (a + 1.0);
    var t := (a - 1.0) * a / 2.0;
    assert (s / t) * ((a - 1.0) / (a + 1.0)) == 2.0 * s / (a * (a + 1.0));
    assert v * k == 2.0 * a * v / (a * (a + 1.0));
  }

  /** Over exact values the recurrence equals the rank-weighted mean
      `Σ i·v_i / Σ i`. */
  lemma {:induction false} EmaClosedForm(vs: seq<real>)
    requires |vs| > 0
    ensures EmaRecurrence(vs) == RankWeightedSum(vs) / RankTotal(|vs|)
    decreases |vs|
  {
    if |vs| > 1 {
      var init := vs[..|vs| - 1];
      var a, v := |vs| as real, vs[|vs| - 1];
      EmaClosedForm(init);
      RankTotalSteps(|vs|);
      EmaRecurrenceStep(vs);
      ClosedFormStep(EmaRecurrence(vs), EmaRecurrence(init), v, RankWeightedSum(init), a,
        RankTotal(|init|), RankTotal(|vs|), RankWeightedSum(vs));
    }
  }

  lemma RankTotalSteps(n: nat)
    requires n > 0
    ensures RankTotal(n - 1) == (n as real - 1.0) * n as real / 2.0
    ensures RankTotal(n) == n as real * (n as real + 1.0) / 2.0
  {
    assert (n - 1) as real == n as real - 1.0;
  }

  lemma EmaRecurrenceStep(vs: seq<real>)
    requires |vs| > 1
    ensures EmaRecurrence(vs) == Blend(vs[|vs| - 1], EmaRecurrence(vs[..|vs| - 1]), 2.0 / (|vs| as real + 1.0))
    ensures RankWeightedSum(vs) == RankWeightedSum(vs[..|vs| - 1]) + |vs| as real * vs[|vs| - 1]
  {
  }

  /** The algebra of one step of the closed form, on plain values. */
  lemma ClosedFormStep(e: real, prev: real, v: real, s: real, a: real, tPrev: real, t: real, w: real)
    requires a >= 2.0 && tPrev == (a - 1.0) * a / 2.0 && t == a * (a + 1.0) / 2.0
    requires prev == s / tPrev && e == Blend(v, prev, 2.0 / (a + 1.0)) && w == s + a * v
    ensures e == w / t
  {
    EmaStepAlgebra(a, v, s);
  }

  /** Each step is a convex blend, so the result stays within the range of the values. */
  lemma {:induction false} EmaWithinBounds(vs: seq<real>, lo: real, hi: real)
    requires |vs| > 0
    requires forall i :: 0 <= i < |vs| ==> lo <= vs[i] <= hi
    ensures lo <= EmaRecurrence(vs) <= hi
    decreases |vs|
  {
    var prev := if |vs| == 1 then vs[0] else EmaRecurrence(vs[..|vs| - 1]);
    if |vs| > 1 {
      EmaWithinBounds(vs[..|vs| - 1], lo, hi);
    }
    var k := 2.0 / (|vs| as real + 1.0);
    ConvexBlend(vs[|vs| - 1], prev, k, lo, hi);
  }

  /** The empty input gives 0 and a single element gives its own value. */
  lemma ExponentialEdgeCases(d: BaseData)
    ensures ExponentialValue([]) == 0.0
    ensures ExponentialValue([d]) == d.value
  {
    assert SortBy([d], BaseEpoch) == [d] by {
      assert [d][..0] == [];
    }
  }

  /** The exponential average of the input lies between its smallest and largest value. */
  lemma ExponentialWithinBounds(data: seq<BaseData>, lo: real, hi: real)
    requires |data| > 0
    requires forall i :: 0 <= i < |data| ==> lo <= data[i].value <= hi
    ensures lo <= ExponentialValue(data) <= hi
  {
    var sorted := SortBy(data, BaseEpoch);
    SortByPermutation(data, BaseEpoch);
    forall i | 0 <= i < |sorted| ensures lo <= Values(sorted)[i] <= hi {
      assert sorted[i] in multiset(data);
      var j :| 0 <= j < |data| && data[j] == sorted[i];
    }
    EmaWithinBounds(Values(sorted), lo, hi);
  }

  /** Reordering an input whose timestamps are pairwise distinct does not change
      the exponential average (the sort restores the same order). */
  lemma ExponentialPermutationInvariant(data: seq<BaseData>, data': seq<BaseData>)
    requires DistinctKeys(data, BaseEpoch)
    requires multiset(data) == multiset(data')
    ensures ExponentialValue(data) == ExponentialValue(data')
  {
    SortByPermutationInvariant(data, data', BaseEpoch);
  }

  lemma EmaSnoc(vs: seq<real>, v: real)
    requires |vs| > 0
    ensures EmaRecurrence(vs + [v]) == Blend(v, EmaRecurrence(vs), 2.0 / (|vs| as real + 2.0))
  {
    var w := vs + [v];
    assert w[..|w| - 1] == vs && w[|w| - 1] == v;
  }

  lemma ExponentialFromValue(scope: usize, p: real, x: BaseData)
    requires scope + 1 < U64_LIMIT
    ensures ExponentialFrom(scope, Exponential(p), x).Inner() == Blend(x.value, p, 2.0 / (scope as real + 1.0))
  {
  }

  /** The rank-weighted recurrence is `exponential_from` with `scope` equal to
      the rank of the new value: appending one value is one incremental step. */
  lemma EmaIsIncrementalStep(vs: seq<real>, x: BaseData)
    requires |vs| > 0 && |vs| + 2 < U64_LIMIT
    ensures EmaRecurrence(vs + [x.value])
         == ExponentialFrom(|vs| + 1, Exponential(EmaRecurrence(vs)), x).Inner()
  {
    EmaSnoc(vs, x.value);
    ExponentialFromValue(|vs| + 1, EmaRecurrence(vs), x);
  }

  /** The simple mean does not depend on the order of the input. */
  lemma MeanPermutationInvariant(data: seq<BaseData>, data': seq<BaseData>)
    requires |data| > 0 && multiset(data) == multiset(data')
    ensures |data'| == |data| && Mean(data) == Mean(data')
  {
    assert |data| == |multiset(data)| == |multiset(data')| == |data'|;
    SumByPermutation(data, data', Value);
  }

  /** The simple mean lies between the smallest and largest value. */
  lemma MeanWithinBounds(data: seq<BaseData>, lo: real, hi: real)
    requires |data| > 0
    requires forall i :: 0 <= i < |data| ==> lo <= data[i].value <= hi
    ensures lo <= Mean(data) <= hi
  {
    SumByBounds(data, Value, lo, hi);
    var n := |data| as real;
    assert SumBy(data, Value) / n >= (n * lo) / n;
    assert SumBy(data, Value) / n <= (n * hi) / n;
  }

  lemma {:induction false} SumByFront<T>(s: seq<T>, f: T -> real)
    requires |s| > 0
    ensures SumBy(s, f) == f(s[0]) + SumBy(s[1..], f)
  {
    assert s == [s[0]] + s[1..];
    SumByAppend([s[0]], s[1..], f);
    assert [s[0]] == [] + [s[0]];
    SumBySnoc([], s[0], f);
  }

  /** `simple_from` is exact for a window whose oldest value equals the average:
      it then gives the mean of the window slid by one element. */
  lemma SimpleFromSlidesWindow(window: seq<BaseData>, x: BaseData)
    requires 0 < |window| < U64_LIMIT
    requires window[0].value == Mean(window)
    ensures SimpleFrom(|window|, Simple(Mean(window)), x).Inner() == Mean(window[1..] + [x])
  {
    var n := |window| as real;
    var m := Mean(window);
    SumByFront(window, Value);
    SumBySnoc(window[1..], x, Value);
    assert |window[1..] + [x]| == |window|;
    assert SumBy(window, Value) == m * n;
    assert SumBy(window[1..] + [x], Value) == m * n - m + x.value;
  }
}
