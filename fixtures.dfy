/** The fixtures of src/indicator/test.rs (and of the test in
    src/indicator/trend_following.rs), stated as lemmas over exact values.
    Each test stamps its rows `now - Time::from_days(d)`; here `now` is any time
    at least 30 days after the epoch, so the results hold whatever the clock
    says. The tests compare with a tolerance of 1e-10; the exact values below
    lie within it of the constants the tests name. */
module Fixtures {
  import opened ToolkitTypes
  import opened StableSort
  import opened Folds
  import opened MovingAverages
  import T = Times
  import TF = TrendFollowing
  import M = Macd
  import E = ElderRays
  import Ch = Channels
  import St = Stochastics
  import FI = ForceIndexes

  /** A `now` from which every row of the tests can be dated. */
  predicate ValidNow(now: T.Time) {
    now.ms >= 30 * T.DAY_IN_MILLISEC
  }

  /** `now - Time::from_days(days)`, in milliseconds. */
  function DaysAgo(now: T.Time, days: nat): (r: u128)
    requires ValidNow(now) && days <= 30
    ensures r == now.ms - days * 86400000
  {
    now.Sub(T.FromDays(days)).Inner()
  }

  // ---------------------------------------------------------------------
  // Sums evaluated from the front, so that they compute on literal rows

  function Real(x: real): real { x }

  function FrontSumBy<T>(s: seq<T>, f: T -> real): real {
    if |s| == 0 then 0.0 else f(s[0]) + FrontSumBy(s[1..], f)
  }

  /** `Σ r·f(s_i)` with ranks `r` counted from `rank`. */
  function FrontRankedBy<T>(s: seq<T>, f: T -> real, rank: real): real {
    if |s| == 0 then 0.0 else rank * f(s[0]) + FrontRankedBy(s[1..], f, rank + 1.0)
  }

  lemma {:induction false} FrontSumBySum<T>(s: seq<T>, f: T -> real)
    ensures FrontSumBy(s, f) == SumBy(s, f)
  {
    if |s| > 0 {
      SumByFront(s, f);
      FrontSumBySum(s[1..], f);
    }
  }

  /** Peeling the first rank off the rank-weighted sum. */
  lemma {:induction false} RankedFront<T>(s: seq<T>, f: T -> real)
    requires |s| > 0
    ensures RankWeightedSum(Map(s, f)) == f(s[0]) + RankWeightedSum(Map(s[1..], f)) + SumBy(s[1..], f)
    decreases |s|
  {
    if |s| > 1 {
      var init, last := s[..|s| - 1], s[|s| - 1];
      var n, v := |s| as real, f(last);
      RankedFront(init, f);
      assert Map(s, f)[..|s| - 1] == Map(init, f);
      assert RankWeightedSum(Map(s, f)) == RankWeightedSum(Map(init, f)) + n * v;
      assert init[1..] == s[1..][..|s| - 2];
      assert Map(s[1..], f)[..|s| - 2] == Map(init[1..], f);
      assert RankWeightedSum(Map(s[1..], f)) == RankWeightedSum(Map(init[1..], f)) + (n - 1.0) * v;
      SumBySnoc(init[1..], last, f);
      assert s[1..] == init[1..] + [last];
      assert n * v == (n - 1.0) * v + v;
    }
  }

  lemma {:induction false} FrontRankedByIsRanked<T>(s: seq<T>, f: T -> real, rank: real)
    ensures FrontRankedBy(s, f, rank) == RankWeightedSum(Map(s, f)) + (rank - 1.0) * SumBy(s, f)
    decreases |s|
  {
    if |s| > 0 {
      FrontRankedByIsRanked(s[1..], f, rank + 1.0);
      RankedFront(s, f);
      SumByFront(s, f);
    }
  }

  lemma {:induction false} FrontRankedByAppend<T>(a: seq<T>, b: seq<T>, f: T -> real, rank: real)
    ensures FrontRankedBy(a + b, f, rank) == FrontRankedBy(a, f, rank) + FrontRankedBy(b, f, rank + |a| as real)
    decreases |a|
  {
    if |a| > 0 {
      assert (a + b)[1..] == a[1..] + b;
      FrontRankedByAppend(a[1..], b, f, rank + 1.0);
    } else {
      assert a + b == b;
    }
  }

  lemma FrontRankedByFromOne<T>(s: seq<T>, f: T -> real)
    ensures FrontRankedBy(s, f, 1.0) == RankWeightedSum(Map(s, f))
  {
    FrontRankedByIsRanked(s, f, 1.0);
  }

  /** The exponential average of rows already in time order: the closed form. */
  lemma OrderedClosedForm(data: seq<BaseData>)
    requires |data| > 0 && SortedBy(data, BaseEpoch)
    ensures ExponentialValue(data) == RankWeightedSum(Values(data)) / RankTotal(|data|)
  {
    SortBySortedInput(data, BaseEpoch);
    EmaClosedForm(Values(data));
  }

  /** The exponential average of rows already in time order whose values are
      `f` of `rows`, computed from the front. */
  lemma OrderedExponential<T>(data: seq<BaseData>, rows: seq<T>, f: T -> real, n: nat)
    requires |data| == |rows| == n > 0 && SortedBy(data, BaseEpoch)
    requires forall i :: 0 <= i < n ==> data[i].value == f(rows[i])
    ensures ExponentialValue(data) == FrontRankedBy(rows, f, 1.0) / RankTotal(n)
  {
    assert Map(rows, f) == Values(data);
    OrderedClosedForm(data);
    FrontRankedByFromOne(rows, f);
  }

  // ---------------------------------------------------------------------
  // Rows of `RawBaseData`

  /** Day counts that are at most 30 and strictly decreasing: rows given
      oldest first. */
  predicate OldestFirst(days: seq<nat>) {
    forall i :: 0 <= i < |days| ==> days[i] <= 30 && (i > 0 ==> days[i - 1] > days[i])
  }

  /** `RawBaseData::new(price, volume, now - Time::from_days(day))` for each row. */
  function Raw(now: T.Time, prices: seq<real>, volumes: seq<u64>, days: seq<nat>): (r: seq<BaseData>)
    requires ValidNow(now) && |prices| == |volumes| == |days| && OldestFirst(days)
    ensures |r| == |prices|
    ensures forall i :: 0 <= i < |r| ==> r[i] == BaseData(prices[i], volumes[i], DaysAgo(now, days[i]))
    ensures StrictlySortedBy(r, BaseEpoch) && SortedBy(r, BaseEpoch)
  {
    seq(|prices|, i requires 0 <= i < |prices| => BaseData(prices[i], volumes[i], DaysAgo(now, days[i])))
  }

  // ---------------------------------------------------------------------
  // test_moving_average and the test of src/indicator/trend_following.rs

  const MA_PRICES: seq<real> := [1100.0, 1000.0, 1200.0, 1150.0, 1200.0, 1000.0, 900.0]
  const MA_VOLUMES: seq<u64> := [1, 2, 1, 3, 4, 1, 1]
  const MA_DAYS: seq<nat> := [7, 6, 5, 4, 3, 2, 1]

  function MovingAverageData(now: T.Time): seq<BaseData>
    requires ValidNow(now)
  {
    Raw(now, MA_PRICES, MA_VOLUMES, MA_DAYS)
  }

  /** `simple` gives 7550/7 (about 1078.5714285714287) and `exponential` 7400/7
      (about 1057.1428571428573). */
  lemma MovingAverageFixture(now: T.Time)
    requires ValidNow(now)
    ensures Mean(MovingAverageData(now)) == 7550.0 / 7.0
    ensures ExponentialValue(MovingAverageData(now)) == 7400.0 / 7.0
  {
    MovingAverageMean(now);
    MovingAverageExponential(now);
  }

  lemma MovingAverageMean(now: T.Time)
    requires ValidNow(now)
    ensures Mean(MovingAverageData(now)) == 7550.0 / 7.0
  {
    SumByPointwise(MovingAverageData(now), Value, MA_PRICES, Real);
    FrontSumBySum(MA_PRICES, Real);
  }

  lemma MovingAverageExponential(now: T.Time)
    requires ValidNow(now)
    ensures ExponentialValue(MovingAverageData(now)) == 7400.0 / 7.0
  {
    OrderedExponential(MovingAverageData(now), MA_PRICES, Real, 7);
  }

  /** The same rows read as `Data` (price and timestamp) give the same two
      averages through the legacy functions. */
  lemma TrendFollowingFixture(now: T.Time)
    requires ValidNow(now)
    ensures TF.PriceMean(Map(MovingAverageData(now), TF.AsData)) == 7550.0 / 7.0
    ensures TF.PriceExponential(Map(MovingAverageData(now), TF.AsData)) == 7400.0 / 7.0
  {
    MovingAverageFixture(now);
    TF.AgreesWithMovingAverage(Map(MovingAverageData(now), TF.AsData), MovingAverageData(now));
  }

  /** Sums of pointwise equal terms are equal. */
  lemma {:induction false} SumByPointwise<T, U>(s: seq<T>, f: T -> real, t: seq<U>, g: U -> real)
    requires |s| == |t| && forall i :: 0 <= i < |s| ==> f(s[i]) == g(t[i])
    ensures SumBy(s, f) == SumBy(t, g)
    decreases |s|
  {
    if |s| > 0 {
      SumByPointwise(s[..|s| - 1], f, t[..|t| - 1], g);
    }
  }

  // ---------------------------------------------------------------------
  // test_moving_average_convergence_divergence and test_elder_ray

  /** The 30 prices, split where the windows of `new` begin (the latest 26
      start after the first piece, the latest 12 after the third, the latest 9
      after the fourth) and into pieces short enough to evaluate. */
  const OLDEST_PRICES: seq<real> := [2000.0, 1900.0, 1950.0, 1850.0]
  const SLOW_EARLY_PRICES: seq<real> := [1750.0, 1700.0, 1600.0, 1800.0, 1750.0, 1500.0, 1300.0]
  const SLOW_LATE_PRICES: seq<real> := [1250.0, 1300.0, 1350.0, 1200.0, 1300.0, 1100.0, 950.0]
  const FAST_ONLY_PRICES: seq<real> := [900.0, 1000.0, 1150.0]
  const SIGNAL_PRICES: seq<real> := [1100.0, 1000.0, 1100.0, 1000.0, 1200.0, 1150.0, 1200.0, 1000.0, 900.0]
  const FAST_PRICES: seq<real> := FAST_ONLY_PRICES + SIGNAL_PRICES
  const SLOW_PRICES: seq<real> := SLOW_EARLY_PRICES + SLOW_LATE_PRICES + FAST_PRICES
  const LONG_PRICES: seq<real> := OLDEST_PRICES + SLOW_PRICES
  const LONG_VOLUMES: seq<u64> := [
    1, 1, 1, 1, 1, 1, 1, 1, 1, 1, 1, 1, 1, 1, 1, 1, 1, 1, 1, 1, 1, 1, 1, 1, 2, 1, 3, 4, 1, 1]
  /** Days 30 down to 2, then 0 (no row is dated one day ago). */
  const LONG_DAYS: seq<nat> := [
    30, 29, 28, 27, 26, 25, 24, 23, 22, 21, 20, 19, 18, 17, 16, 15, 14, 13, 12, 11,
    10, 9, 8, 7, 6, 5, 4, 3, 2, 0]

  function MacdData(now: T.Time): (r: seq<BaseData>)
    requires ValidNow(now)
    ensures |r| == 30 && SortedBy(r, BaseEpoch)
    ensures forall i :: 0 <= i < 30 ==> r[i].value == LONG_PRICES[i]
  {
    Raw(now, LONG_PRICES, LONG_VOLUMES, LONG_DAYS)
  }

  /** The latest `n` rows of an ordered input are its last `n`, in order. */
  lemma OrderedLatest(data: seq<BaseData>, n: nat)
    requires n <= |data| && SortedBy(data, BaseEpoch)
    ensures M.Latest(data, n) == data[|data| - n..]
  {
    SortBySortedInput(data, BaseEpoch);
  }

  // Rank-weighted sums of the pieces, each evaluated on its own.
  lemma SignalRanks()
    ensures FrontRankedBy(SIGNAL_PRICES, Real, 1.0) == 47800.0
    ensures FrontRankedBy(SIGNAL_PRICES, Real, 4.0) == 76750.0
  {
  }

  lemma SignalRanksLate()
    ensures FrontRankedBy(SIGNAL_PRICES, Real, 18.0) == 211850.0
    ensures FrontRankedBy(SIGNAL_PRICES, Real, 22.0) == 250450.0
  {
  }

  lemma FastOnlyRanks()
    ensures FrontRankedBy(FAST_ONLY_PRICES, Real, 1.0) == 6350.0
    ensures FrontRankedBy(FAST_ONLY_PRICES, Real, 15.0) == 49050.0
    ensures FrontRankedBy(FAST_ONLY_PRICES, Real, 19.0) == 61250.0
  {
  }

  lemma SlowEarlyRanks()
    ensures FrontRankedBy(SLOW_EARLY_PRICES, Real, 1.0) == 44000.0
    ensures FrontRankedBy(SLOW_EARLY_PRICES, Real, 5.0) == 89600.0
  {
  }

  lemma SlowLateRanks()
    ensures FrontRankedBy(SLOW_LATE_PRICES, Real, 8.0) == 91600.0
    ensures FrontRankedBy(SLOW_LATE_PRICES, Real, 12.0) == 125400.0
  {
  }

  lemma OldestRanks()
    ensures FrontRankedBy(OLDEST_PRICES, Real, 1.0) == 19050.0
  {
  }

  /** The rank-weighted sums of the latest 12 and of the latest 26 prices. */
  lemma FastRanks()
    ensures FrontRankedBy(FAST_PRICES, Real, 1.0) == 83100.0
  {
    FastOnlyRanks();
    SignalRanks();
    FrontRankedByAppend(FAST_ONLY_PRICES, SIGNAL_PRICES, Real, 1.0);
  }

  lemma SlowRanks()
    ensures FrontRankedBy(SLOW_PRICES, Real, 1.0) == 396500.0
  {
    FastOnlyRanks();
    SignalRanksLate();
    SlowEarlyRanks();
    SlowLateRanks();
    FrontRankedByAppend(FAST_ONLY_PRICES, SIGNAL_PRICES, Real, 15.0);
    FrontRankedByAppend(SLOW_EARLY_PRICES, SLOW_LATE_PRICES, Real, 1.0);
    FrontRankedByAppend(SLOW_EARLY_PRICES + SLOW_LATE_PRICES, FAST_PRICES, Real, 1.0);
  }

  /** The windows of `new` are the suffixes named by the pieces. */
  lemma LongSuffixes()
    ensures |LONG_PRICES| == 30
    ensures LONG_PRICES[4..] == SLOW_PRICES
    ensures LONG_PRICES[18..] == FAST_PRICES
    ensures LONG_PRICES[21..] == SIGNAL_PRICES
  {
    assert LONG_PRICES[4..] == SLOW_PRICES;
    assert SLOW_PRICES[14..] == FAST_PRICES;
    assert FAST_PRICES[3..] == SIGNAL_PRICES;
  }

  /** The exponential average of the latest `n` of ordered rows whose values
      are `prices`, given the rank-weighted sum `total` of the last `n` prices. */
  lemma LatestOfOrdered(data: seq<BaseData>, prices: seq<real>, n: nat, total: real)
    requires |data| == |prices| && 0 < n <= |data| && SortedBy(data, BaseEpoch)
    requires forall i :: 0 <= i < |data| ==> data[i].value == prices[i]
    requires FrontRankedBy(prices[|prices| - n..], Real, 1.0) == total
    ensures ExponentialValue(M.Latest(data, n)) == total / RankTotal(n)
  {
    var k := |data| - n;
    var w := data[k..];
    OrderedLatest(data, n);
    forall i | 0 < i < |w| ensures BaseEpoch(w[i - 1]) <= BaseEpoch(w[i]) {
      assert w[i - 1] == data[k + i - 1] && w[i] == data[k + i];
    }
    OrderedExponential(w, prices[k..], Real, n);
  }

  /** The rank-weighted sums of the latest 26, 12 and 9 prices. */
  lemma SlowTotal()
    ensures |LONG_PRICES| == 30 && FrontRankedBy(LONG_PRICES[4..], Real, 1.0) == 396500.0
  {
    SlowRanks();
    LongSuffixes();
  }

  lemma FastTotal()
    ensures |LONG_PRICES| == 30 && FrontRankedBy(LONG_PRICES[18..], Real, 1.0) == 83100.0
  {
    FastRanks();
    LongSuffixes();
  }

  lemma SignalTotal()
    ensures |LONG_PRICES| == 30 && FrontRankedBy(LONG_PRICES[21..], Real, 1.0) == 47800.0
  {
    SignalRanks();
    LongSuffixes();
  }

  /** The exponential averages of the latest 26, 12 and 9 rows. */
  lemma LatestSlowAverage(now: T.Time)
    requires ValidNow(now)
    ensures ExponentialValue(M.Latest(MacdData(now), 26)) == 30500.0 / 27.0
  {
    SlowTotal();
    LatestOfOrdered(MacdData(now), LONG_PRICES, 26, 396500.0);
  }

  lemma LatestFastAverage(now: T.Time)
    requires ValidNow(now)
    ensures ExponentialValue(M.Latest(MacdData(now), 12)) == 13850.0 / 13.0
  {
    FastTotal();
    LatestOfOrdered(MacdData(now), LONG_PRICES, 12, 83100.0);
  }

  lemma LatestSignalAverage(now: T.Time)
    requires ValidNow(now)
    ensures ExponentialValue(M.Latest(MacdData(now), 9)) == 9560.0 / 9.0
  {
    SignalTotal();
    LatestOfOrdered(MacdData(now), LONG_PRICES, 9, 47800.0);
  }

  /** The averages are 30500/27, 13850/13 and 9560/9, so `fast` is −22550/351
      (about −64.24501424501454), `slow` 9560/9 (about 1062.2222222222226) and
      `macd_histogram` −395390/351 (about −1126.4672364672372). */
  lemma MacdFixture(now: T.Time)
    requires ValidNow(now)
    ensures M.MacdOf(MacdData(now)).Ok?
    ensures var m := M.MacdOf(MacdData(now)).value;
      m.ema26 == 30500.0 / 27.0 && m.ema12 == 13850.0 / 13.0 && m.ema9 == 9560.0 / 9.0 &&
      m.Fast() == -22550.0 / 351.0 && m.Slow() == 9560.0 / 9.0 && m.MacdHistogram() == -395390.0 / 351.0
  {
    assert |MacdData(now)| == 30;
    LatestSlowAverage(now);
    LatestFastAverage(now);
    LatestSignalAverage(now);
  }

  /** The rows of `test_elder_ray` as `Exec` ticks: the same prices, volumes
      and dates as `test_moving_average_convergence_divergence`. */
  function ElderRayData(now: T.Time): (r: seq<Exec>)
    requires ValidNow(now)
    ensures |r| == 30
    ensures Map(r, ExecBase) == MacdData(now)
    ensures forall i :: 0 <= i < |r| ==> r[i].price == LONG_PRICES[i]
  {
    var raw := MacdData(now);
    var r := seq(|raw|, i requires 0 <= i < |raw| => Exec(raw[i].value, raw[i].weight, raw[i].epochTime));
    assert Map(r, ExecBase) == raw;
    r
  }

  /** Every price of the long fixture lies in [900, 2000]. */
  lemma LongPriceRange()
    ensures forall x :: x in LONG_PRICES ==> 900.0 <= x <= 2000.0
  {
    assert forall x :: x in OLDEST_PRICES ==> 900.0 <= x <= 2000.0;
    assert forall x :: x in SLOW_EARLY_PRICES ==> 900.0 <= x <= 2000.0;
    assert forall x :: x in SLOW_LATE_PRICES ==> 900.0 <= x <= 2000.0;
    assert forall x :: x in FAST_ONLY_PRICES ==> 900.0 <= x <= 2000.0;
    assert forall x :: x in SIGNAL_PRICES ==> 900.0 <= x <= 2000.0;
  }

  /** The rank-weighted sum of all 30 prices. */
  lemma LongRanks()
    ensures FrontRankedBy(LONG_PRICES, Real, 1.0) == 545750.0
  {
    OldestRanks();
    SlowRanksFromFive();
    FrontRankedByAppend(OLDEST_PRICES, SLOW_PRICES, Real, 1.0);
  }

  /** The slow window ranked from 5, as it sits inside the long fixture. */
  lemma SlowRanksFromFive()
    ensures FrontRankedBy(SLOW_PRICES, Real, 5.0) == 526700.0
  {
    SlowEarlyRanks();
    FastRanksFromNineteen();
    SlowTailRanks();
    FrontRankedByAppend(SLOW_EARLY_PRICES, SLOW_LATE_PRICES + FAST_PRICES, Real, 5.0);
    assert SLOW_PRICES == SLOW_EARLY_PRICES + (SLOW_LATE_PRICES + FAST_PRICES);
  }

  /** The fast window ranked from 19. */
  lemma FastRanksFromNineteen()
    ensures FrontRankedBy(FAST_PRICES, Real, 19.0) == 311700.0
  {
    FastOnlyRanks();
    SignalRanksLate();
    FrontRankedByAppend(FAST_ONLY_PRICES, SIGNAL_PRICES, Real, 19.0);
  }

  /** The slow window after its first seven rows, ranked from 12. */
  lemma SlowTailRanks()
    ensures FrontRankedBy(SLOW_LATE_PRICES + FAST_PRICES, Real, 12.0) == 437100.0
  {
    SlowLateRanks();
    FastRanksFromNineteen();
    FrontRankedByAppend(SLOW_LATE_PRICES, FAST_PRICES, Real, 12.0);
  }

  /** The exponential average of the Elder Ray fixture is 109150/93. */
  lemma ElderRayAverage(now: T.Time)
    requires ValidNow(now)
    ensures E.PriceEma(ElderRayData(now)) == 109150.0 / 93.0
  {
    LongRanks();
    OrderedExponential(MacdData(now), LONG_PRICES, Real, 30);
  }

  /** Its lowest price is 900 and its highest 2000. */
  lemma ElderRayExtremes(now: T.Time)
    requires ValidNow(now)
    ensures MinFrom(F64_MAX, ElderRayData(now), E.Price) == 900.0
    ensures MaxFrom(0.0, ElderRayData(now), E.Price) == 2000.0
  {
    var data := ElderRayData(now);
    LongPriceRange();
    assert data[0].price == 2000.0 && data[29].price == 900.0;
    MinFromIsMin(F64_MAX, data, E.Price);
    MaxFromIsMax(0.0, data, E.Price);
    forall i | 0 <= i < |data| ensures 900.0 <= E.Price(data[i]) <= 2000.0 {
      assert LONG_PRICES[i] in LONG_PRICES;
    }
  }

  /** `ask_force` is −25450/93 (about −273.6559139784947) and `bid_force`
      76850/93 (about 826.3440860215053). */
  lemma ElderRayFixture(now: T.Time)
    requires ValidNow(now)
    ensures E.ElderRayOf(ElderRayData(now)) == Ok(E.ElderRay(-25450.0 / 93.0, 76850.0 / 93.0))
  {
    ElderRayAverage(now);
    ElderRayExtremes(now);
  }

  // ---------------------------------------------------------------------
  // Rows of `StockData`: test_channel, test_stochastic and test_force_index

  /** The arguments of one `StockData::new`, with the day count of its date. */
  datatype BarRow = BarRow(open: real, high: real, low: real, close: real,
                           amount: real, volume: u64, day: nat)

  const BAR_ROWS: seq<BarRow> := [
    BarRow(1200.0, 1200.0, 1000.0, 1100.0, 1050.0 * 1000.0, 1000, 7),
    BarRow(1000.0, 1200.0, 950.0, 1200.0, 1100.0 * 2000.0, 2000, 6),
    BarRow(1200.0, 1300.0, 1100.0, 1150.0, 1200.0 * 2500.0, 2500, 5),
    BarRow(1150.0, 1200.0, 1000.0, 1200.0, 1150.0 * 2000.0, 2000, 4),
    BarRow(1200.0, 1200.0, 1000.0, 1000.0, 1050.0 * 2000.0, 2000, 3),
    BarRow(1000.0, 1100.0, 800.0, 900.0, 900.0 * 3000.0, 3000, 2),
    BarRow(900.0, 1000.0, 800.0, 950.0, 900.0 * 1000.0, 1000, 1)]

  function RowClose(r: BarRow): real { r.close }
  function RowTypical(r: BarRow): real { (r.open + r.high + r.low) / 3.0 }
  /** The squared deviation of a row's typical price from the fixture's mean 7500/7. */
  function RowDeviation(r: BarRow): real {
    var d := 7500.0 / 7.0 - RowTypical(r);
    d * d
  }

  /** The bars of the fixture, oldest first. */
  function Bars(now: T.Time): (r: seq<Stock>)
    requires ValidNow(now)
    ensures |r| == |BAR_ROWS|
    ensures forall i :: 0 <= i < |r| ==> r[i] == Stock(BAR_ROWS[i].open, BAR_ROWS[i].high, BAR_ROWS[i].low,
      BAR_ROWS[i].close, BAR_ROWS[i].amount, BAR_ROWS[i].volume, DaysAgo(now, BAR_ROWS[i].day))
    ensures StrictlySortedBy(r, BarEpoch) && SortedBy(r, BarEpoch)
  {
    var rows := BAR_ROWS;
    assert forall i :: 0 <= i < |rows| ==> rows[i].day == 7 - i;
    seq(|rows|, i requires 0 <= i < |rows| => Stock(rows[i].open, rows[i].high, rows[i].low,
      rows[i].close, rows[i].amount, rows[i].volume, DaysAgo(now, rows[i].day)))
  }

  /** `StockData` read through both traits: its `BaseData` view is the close,
      the volume and the bar's own timestamp. */
  function StockData(now: T.Time): (r: seq<StockBase>)
    requires ValidNow(now)
    ensures |r| == |BAR_ROWS|
    ensures forall i :: 0 <= i < |r| ==>
      r[i].stock == Bars(now)[i] &&
      r[i].base == BaseData(BAR_ROWS[i].close, BAR_ROWS[i].volume, Bars(now)[i].epochTime)
  {
    var bars := Bars(now);
    seq(|bars|, i requires 0 <= i < |bars| =>
      StockBase(bars[i], BaseData(bars[i].close, bars[i].totExecVolume, bars[i].epochTime)))
  }

  lemma BarCloseRanks()
    ensures FrontRankedBy(BAR_ROWS, RowClose, 1.0) == 28800.0
  {
  }

  lemma BarTypicalSum()
    ensures FrontSumBy(BAR_ROWS, RowTypical) == 7500.0
  {
  }

  lemma BarDeviationSum()
    ensures FrontSumBy(BAR_ROWS, RowDeviation) == 4225000.0 / 63.0
  {
  }

  /** The bars are in time order. */
  lemma StockDataSorted(now: T.Time)
    requires ValidNow(now)
    ensures SortBy(StockData(now), StockEpoch) == StockData(now)
    ensures SortedBy(Bases(StockData(now)), BaseEpoch)
  {
    var data := StockData(now);
    assert SortedBy(data, StockEpoch);
    SortBySortedInput(data, StockEpoch);
  }

  /** The `BaseData` views average to 7200/7. */
  lemma StockDataExponential(now: T.Time)
    requires ValidNow(now)
    ensures ExponentialValue(Bases(StockData(now))) == 7200.0 / 7.0
  {
    StockDataSorted(now);
    StockDataCloses(now);
    BarCloseRanks();
    OrderedExponential(Bases(StockData(now)), BAR_ROWS, RowClose, 7);
  }

  /** The `BaseData` view of each bar carries the bar's close. */
  lemma StockDataCloses(now: T.Time)
    requires ValidNow(now)
    ensures |Bases(StockData(now))| == |BAR_ROWS|
    ensures forall i :: 0 <= i < 7 ==> Bases(StockData(now))[i].value == RowClose(BAR_ROWS[i])
  {
    var bases := Bases(StockData(now));
    forall i | 0 <= i < 7 ensures bases[i].value == RowClose(BAR_ROWS[i]) {
      assert bases[i] == StockData(now)[i].base;
    }
  }

  /** `envelope(&data, 0.1)` is the band 7920/7, 7200/7, 6480/7 (about
      1131.4285714285716, 1028.5714285714287 and 925.7142857142858). */
  lemma EnvelopeFixture(now: T.Time)
    requires ValidNow(now)
    ensures Ch.EnvelopeFrom(Exponential(ExponentialValue(Bases(StockData(now)))), 0.1).Inner() ==
      Ch.Band(7920.0 / 7.0, 7200.0 / 7.0, 6480.0 / 7.0)
  {
    StockDataExponential(now);
  }

  /** The mean typical price is 7500/7. */
  lemma TypicalMeanFixture(now: T.Time)
    requires ValidNow(now)
    ensures Ch.TypicalMean(StockData(now)) == 7500.0 / 7.0
  {
    BarTypicalSum();
    SumByPointwise(StockData(now), Ch.Typical, BAR_ROWS, RowTypical);
    FrontSumBySum(BAR_ROWS, RowTypical);
  }

  /** The variation is 4225000/63. */
  lemma VariationFixture(now: T.Time)
    requires ValidNow(now)
    ensures Ch.Variation(StockData(now)) == 4225000.0 / 63.0
  {
    var data := StockData(now);
    var f := Ch.SquaredDeviation(7500.0 / 7.0);
    TypicalMeanFixture(now);
    forall i | 0 <= i < |data| ensures f(data[i]) == RowDeviation(BAR_ROWS[i]) {
      var d := 7500.0 / 7.0 - RowTypical(BAR_ROWS[i]);
      assert 7500.0 / 7.0 - Ch.Typical(data[i]) == d;
    }
    BarDeviationSum();
    SumByPointwise(data, f, BAR_ROWS, RowDeviation);
    FrontSumBySum(BAR_ROWS, RowDeviation);
  }

  /** The statistics of `bollinger`: the mean typical price is 7500/7, the
      variation 4225000/63, and the exponential mid line 7200/7. */
  lemma BollingerStatisticsFixture(now: T.Time)
    requires ValidNow(now)
    ensures Ch.TypicalMean(StockData(now)) == 7500.0 / 7.0
    ensures Ch.Variation(StockData(now)) == 4225000.0 / 63.0
    ensures Ch.BollingerMid(StockData(now), true) == 7200.0 / 7.0
  {
    StockDataSorted(now);
    StockDataExponential(now);
    TypicalMeanFixture(now);
    VariationFixture(now);
  }

  /** A square root pinned between two bounds by its square. */
  lemma RootBetween(s: real, v: real, a: real, b: real)
    requires 0.0 <= a <= b && 0.0 <= s && s * s == v && a * a < v < b * b
    ensures a < s < b
  {
  }

  /** `bollinger(&data, 2, true)` with the exact standard deviation `s` of the
      variation: mid 7200/7 and the band edges within 1e-10 of the test's
      1546.503825949666 and 510.6390311931914. */
  lemma BollingerFixture(now: T.Time, s: real)
    requires ValidNow(now)
    requires s >= 0.0 && s * s == 4225000.0 / 63.0
    ensures var b := Ch.BollingerBand(StockData(now), 2.0, true, s);
      b.mid == 7200.0 / 7.0 &&
      -0.0000000001 < b.upper - 1546.503825949666 < 0.0000000001 &&
      -0.0000000001 < b.lower - 510.6390311931914 < 0.0000000001
  {
    BollingerStatisticsFixture(now);
    RootBetween(s, 4225000.0 / 63.0, 258.96619868911, 258.96619868912);
  }

  // ---------------------------------------------------------------------
  // Stochastic and force index fixtures: the same seven bars

  /** The latest bar of a run of consecutive fixture bars is its last one. */
  lemma WindowLatest(now: T.Time, i: nat, j: nat)
    requires ValidNow(now) && i < j <= 7
    ensures St.LatestBar(Bars(now)[i..j]) == Bars(now)[j - 1]
  {
    SortBySortedSlice(Bars(now), BarEpoch, i, j);
  }

  /** The three oldest bars: highest high 1300, lowest low 950. */
  lemma FirstWindowExtremes(now: T.Time)
    requires ValidNow(now)
    ensures St.HighestHigh(Bars(now)[0..3]) == 1300.0
    ensures St.LowestLow(Bars(now)[0..3]) == 950.0
  {
    var w := Bars(now)[0..3];
    assert w[0].high == 1200.0 && w[1].high == 1200.0 && w[2].high == 1300.0;
    assert w[0].low == 1000.0 && w[1].low == 950.0 && w[2].low == 1100.0;
    MaxFromIsMax(0.0, w, St.High);
    MinFromIsMin(F64_MAX, w, St.Low);
  }

  /** The next three bars: highest high 1200, lowest low 800. */
  lemma SecondWindowExtremes(now: T.Time)
    requires ValidNow(now)
    ensures St.HighestHigh(Bars(now)[3..6]) == 1200.0
    ensures St.LowestLow(Bars(now)[3..6]) == 800.0
  {
    var w := Bars(now)[3..6];
    assert w[0].high == 1200.0 && w[1].high == 1200.0 && w[2].high == 1100.0;
    assert w[0].low == 1000.0 && w[1].low == 1000.0 && w[2].low == 800.0;
    MaxFromIsMax(0.0, w, St.High);
    MinFromIsMin(F64_MAX, w, St.Low);
  }

  /** `Stochastic::fast(&data[0..3])` is 400/7 (about 57.14285714285714),
      stamped with the third bar's time. */
  lemma FirstFastFixture(now: T.Time)
    requires ValidNow(now)
    ensures St.HighestHigh(Bars(now)[0..3]) != St.LowestLow(Bars(now)[0..3])
    ensures St.FastOf(Bars(now)[0..3]) == Ok(St.Fast(400.0 / 7.0, DaysAgo(now, 5)))
  {
    FirstWindowExtremes(now);
    WindowLatest(now, 0, 3);
  }

  /** `Stochastic::fast(&data[3..6])` is 25, stamped with the sixth bar's time. */
  lemma SecondFastFixture(now: T.Time)
    requires ValidNow(now)
    ensures St.HighestHigh(Bars(now)[3..6]) != St.LowestLow(Bars(now)[3..6])
    ensures St.FastOf(Bars(now)[3..6]) == Ok(St.Fast(25.0, DaysAgo(now, 2)))
  {
    SecondWindowExtremes(now);
    WindowLatest(now, 3, 6);
  }

  /** `into_slow` of the two fast values: their mean 575/14 (about
      41.07142857142857), stamped with the later time. */
  lemma IntoSlowFixture(now: T.Time)
    requires ValidNow(now)
    ensures St.IntoSlowOf([St.Fast(400.0 / 7.0, DaysAgo(now, 5)), St.Fast(25.0, DaysAgo(now, 2))]) ==
      Ok(St.Slow(575.0 / 14.0, DaysAgo(now, 2)))
  {
    var data := [St.Fast(400.0 / 7.0, DaysAgo(now, 5)), St.Fast(25.0, DaysAgo(now, 2))];
    assert SortedBy(data, St.StochasticEpoch);
    SortBySortedInput(data, St.StochasticEpoch);
    var bases := Map(data, St.StochasticBase);
    assert bases[0].value == 400.0 / 7.0 && bases[1].value == 25.0;
    SumByFront(bases, Value);
    SumByFront(bases[1..], Value);
  }

  /** The two rows of `test_force_index` are the sixth and seventh bars of
      this fixture; their force index is 50000: the close rises by 50 on a
      volume of 1000. */
  lemma ForceIndexFixture(now: T.Time)
    requires ValidNow(now)
    ensures FI.New(Bars(now)[5], Bars(now)[6]).Inner() == 50000.0
    ensures FI.New(Bars(now)[5], Bars(now)[6]).epochTime == DaysAgo(now, 1)
  {
  }
}
