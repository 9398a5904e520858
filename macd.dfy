/** The MACD of src/indicator/macd.rs: exponential averages over the latest 26,
    12 and 9 elements of the input sorted by timestamp. */
module Macd {
  import opened ToolkitTypes
  import opened StableSort
  import opened MovingAverages

  /** The number of latest elements the indicator keeps, and the two spans
      taken from the end of that window. */
  const WINDOW: nat := 26
  const FAST_SPAN: nat := 12
  const SIGNAL_SPAN: nat := 9

  datatype MovingAverageConvergenceDivergence = Macd(ema9: real, ema12: real, ema26: real) {
    /** `fast`: the MACD line, positive exactly when the 12-element average is
        above the 26-element one. */
    function Fast(): (r: real)
      ensures r > 0.0 <==> ema12 > ema26
      ensures r == 0.0 <==> ema12 == ema26
      ensures r < 0.0 <==> ema12 < ema26
    {
      ema12 - ema26
    }

    /** `slow`: the signal line, the 9-element average of the input values
        (not an average of the MACD line). */
    function Slow(): (r: real)
      ensures r == ema9
    {
      ema9
    }

    /** `macd_histogram`: positive exactly when the MACD line is above the
        signal line. */
    function MacdHistogram(): (r: real)
      ensures r > 0.0 <==> Fast() > Slow()
      ensures r == 0.0 <==> Fast() == Slow()
      ensures r < 0.0 <==> Fast() < Slow()
    {
      Fast() - Slow()
    }
  }

  /** The `n` latest elements: the last `n` of the stable sort by timestamp. */
  function Latest(data: seq<BaseData>, n: nat): (r: seq<BaseData>)
    requires n <= |data|
    ensures |r| == n
    ensures multiset(r) <= multiset(data)
  {
    SortByPermutation(data, BaseEpoch);
    var s := SortBy(data, BaseEpoch);
    assert s == s[..|s| - n] + s[|s| - n..];
    s[|s| - n..]
  }

  /** The last `m` of the latest `n` are the latest `m`. */
  lemma LatestOfLatest(data: seq<BaseData>, n: nat, m: nat)
    requires m <= n <= |data|
    ensures Latest(data, n)[n - m..n] == Latest(data, m)
  {
    SortByPermutation(data, BaseEpoch);
  }

  /** The result of `new`, stated over the latest elements: the three averages
      cover the latest 26, 12 and 9 elements respectively. */
  function MacdOf(data: seq<BaseData>): (r: Result<MovingAverageConvergenceDivergence>)
    ensures |data| < WINDOW <==> r == Err(DataNotEnough)
    ensures r.Ok? ==> r.value.ema26 == ExponentialValue(Latest(data, WINDOW))
  {
    if |data| < WINDOW then Err(DataNotEnough)
    else
      Ok(Macd(ExponentialValue(Latest(data, SIGNAL_SPAN)),
              ExponentialValue(Latest(data, FAST_SPAN)),
              ExponentialValue(Latest(data, WINDOW))))
  }

  /** `new`: sort a copy, keep its last 26 elements, and average the whole
      window, its last 12 and its last 9 (each slice is sorted again inside
      `exponential`). */
  method New(data: seq<BaseData>) returns (r: Result<MovingAverageConvergenceDivergence>)
    ensures r == MacdOf(data)
  {
    if |data| < WINDOW {
      return Err(DataNotEnough);
    }
    var sorted := SortedCopy(data, BaseEpoch);
    SortByPermutation(data, BaseEpoch);
    var window := sorted[|sorted| - WINDOW..];
    assert window == Latest(data, WINDOW);
    LatestOfLatest(data, WINDOW, FAST_SPAN);
    LatestOfLatest(data, WINDOW, SIGNAL_SPAN);
    var ema26 := ExponentialMovingAverage(window[0..WINDOW]);
    var ema12 := ExponentialMovingAverage(window[WINDOW - FAST_SPAN..WINDOW]);
    var ema9 := ExponentialMovingAverage(window[WINDOW - SIGNAL_SPAN..WINDOW]);
    assert window[0..WINDOW] == window;
    r := Ok(Macd(ema9.Inner(), ema12.Inner(), ema26.Inner()));
  }

  // ---------------------------------------------------------------------
  // Properties

  /** The latest elements are in time order. */
  lemma LatestSorted(data: seq<BaseData>, n: nat)
    requires n <= |data|
    ensures SortedBy(Latest(data, n), BaseEpoch)
  {
    SortBySorted(data, BaseEpoch);
    SortByPermutation(data, BaseEpoch);
    var s := SortBy(data, BaseEpoch);
    var w := s[|s| - n..];
    assert Latest(data, n) == w;
    forall i | 0 < i < |w| ensures BaseEpoch(w[i - 1]) <= BaseEpoch(w[i]) {
      assert w[i - 1] == s[|s| - n + i - 1] && w[i] == s[|s| - n + i];
    }
  }

  /** Elements strictly older than at least 26 others never reach the result. */
  lemma MacdIgnoresOlder(older: seq<BaseData>, recent: seq<BaseData>)
    requires |recent| >= WINDOW
    requires forall i, j :: 0 <= i < |older| && 0 <= j < |recent| ==>
      older[i].epochTime < recent[j].epochTime
    ensures MacdOf(older + recent) == MacdOf(recent)
  {
    LatestIgnoresOlder(older, recent, WINDOW);
    LatestIgnoresOlder(older, recent, FAST_SPAN);
    LatestIgnoresOlder(older, recent, SIGNAL_SPAN);
  }

  /** The latest `n` of the older and the recent together are the latest `n`
      of the recent ones, when `n` does not exceed their number. */
  lemma LatestIgnoresOlder(older: seq<BaseData>, recent: seq<BaseData>, n: nat)
    requires n <= |recent|
    requires forall i, j :: 0 <= i < |older| && 0 <= j < |recent| ==>
      older[i].epochTime < recent[j].epochTime
    ensures Latest(older + recent, n) == Latest(recent, n)
  {
    var c := older + recent;
    var a, b := SortBy(older, BaseEpoch), SortBy(recent, BaseEpoch);
    SortByOlderPrefix(older, recent, BaseEpoch);
    SortByPermutation(older, BaseEpoch);
    SortByPermutation(recent, BaseEpoch);
    assert |c| == |a| + |b|;
    LatestIsSuffix(c, n);
    LatestIsSuffix(recent, n);
    assert (a + b)[|a| + |b| - n..] == b[|b| - n..];
  }

  lemma LatestIsSuffix(data: seq<BaseData>, n: nat)
    requires n <= |data|
    ensures |SortBy(data, BaseEpoch)| == |data|
    ensures Latest(data, n) == SortBy(data, BaseEpoch)[|data| - n..]
  {
    SortByPermutation(data, BaseEpoch);
  }

  /** With pairwise distinct timestamps the input order does not matter. */
  lemma MacdPermutationInvariant(data: seq<BaseData>, data': seq<BaseData>)
    requires DistinctKeys(data, BaseEpoch)
    requires multiset(data) == multiset(data')
    ensures MacdOf(data) == MacdOf(data')
  {
    SortByPermutationInvariant(data, data', BaseEpoch);
    assert |data| == |multiset(data)| == |multiset(data')| == |data'|;
  }

  /** Each of the three averages restarts its rank at 1 on its own slice: it is
      the rank-weighted mean of the latest `n` values with ranks 1..n. */
  lemma MacdRanksRestart(data: seq<BaseData>)
    requires |data| >= WINDOW
    ensures var m := MacdOf(data).value;
      m.ema26 == RankWeightedSum(Values(Latest(data, WINDOW))) / RankTotal(WINDOW) &&
      m.ema12 == RankWeightedSum(Values(Latest(data, FAST_SPAN))) / RankTotal(FAST_SPAN) &&
      m.ema9 == RankWeightedSum(Values(Latest(data, SIGNAL_SPAN))) / RankTotal(SIGNAL_SPAN)
  {
    forall n: nat | 0 < n <= |data|
      ensures ExponentialValue(Latest(data, n)) == RankWeightedSum(Values(Latest(data, n))) / RankTotal(n)
    {
      LatestSorted(data, n);
      SortBySortedInput(Latest(data, n), BaseEpoch);
      EmaClosedForm(Values(Latest(data, n)));
    }
  }

  /** With every input value in [lo, hi], the signal line lies in [lo, hi] and
      the MACD line and the histogram are bounded by the spread hi − lo. */
  lemma MacdBounds(data: seq<BaseData>, lo: real, hi: real)
    requires |data| >= WINDOW
    requires forall i :: 0 <= i < |data| ==> lo <= data[i].value <= hi
    ensures var m := MacdOf(data).value;
      lo <= m.Slow() <= hi &&
      lo - hi <= m.Fast() <= hi - lo &&
      lo - hi - hi <= m.MacdHistogram() <= hi - lo - lo
  {
    forall n: nat | 0 < n <= |data| ensures lo <= ExponentialValue(Latest(data, n)) <= hi {
      var w := Latest(data, n);
      forall i | 0 <= i < |w| ensures lo <= w[i].value <= hi {
        assert w[i] in multiset(data);
        var j :| 0 <= j < |data| && data[j] == w[i];
      }
      ExponentialWithinBounds(w, lo, hi);
    }
  }
}
