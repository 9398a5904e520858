/** The legacy oscillators of src/indicator/oscillator.rs: a MACD that takes
    the last 26 elements by position, without sorting the input first, and a
    force index readable as an `Exec`. Both lean on the legacy averages of
    src/indicator/trend_following.rs. */
module Oscillator {
  import opened ToolkitTypes
  import opened StableSort
  import MA = MovingAverages
  import TF = TrendFollowing
  import opened Macd
  import FI = ForceIndexes

  /** The `Data` reading of an execution that the legacy `exponential` averages. */
  function ExecData(e: Exec): Data { Data(e.price, e.epochTime) }

  /** The legacy exponential average of the prices of `s`. */
  function ExecEma(s: seq<Exec>): real {
    TF.PriceExponential(Map(s, ExecData))
  }

  /** The result of the legacy `new`: averages of the last 26, 12 and 9
      elements by position, each sorted only within its own slice. */
  function LegacyMacdOf(data: seq<Exec>): (r: Result<MovingAverageConvergenceDivergence>)
    ensures |data| < WINDOW <==> r == Err(DataNotEnough)
  {
    if |data| < WINDOW then Err(DataNotEnough)
    else
      Ok(Macd(ExecEma(data[|data| - SIGNAL_SPAN..]),
              ExecEma(data[|data| - FAST_SPAN..]),
              ExecEma(data[|data| - WINDOW..])))
  }

  /** The legacy `new`: keep the last 26 elements as given and average the
      window, its last 12 and its last 9. */
  method New(data: seq<Exec>) returns (r: Result<MovingAverageConvergenceDivergence>)
    ensures r == LegacyMacdOf(data)
  {
    if |data| < WINDOW {
      return Err(DataNotEnough);
    }
    var window := data[|data| - WINDOW..];
    assert window[0..WINDOW] == data[|data| - WINDOW..];
    assert window[WINDOW - FAST_SPAN..WINDOW] == data[|data| - FAST_SPAN..];
    assert window[WINDOW - SIGNAL_SPAN..WINDOW] == data[|data| - SIGNAL_SPAN..];
    var ema26 := TF.ExponentialMovingAverage(Map(window[0..WINDOW], ExecData));
    var ema12 := TF.ExponentialMovingAverage(Map(window[WINDOW - FAST_SPAN..WINDOW], ExecData));
    var ema9 := TF.ExponentialMovingAverage(Map(window[WINDOW - SIGNAL_SPAN..WINDOW], ExecData));
    r := Ok(Macd(ema9.Inner(), ema12.Inner(), ema26.Inner()));
  }

  /** The `Exec` implementation of the legacy force index: the force as the
      price, volume 1, and the stored timestamp. */
  function ExecView(f: FI.ForceIndex): (r: Exec)
    ensures r.price == f.Inner() && r.volume == 1 && r.epochTime == f.epochTime
  {
    Exec(f.inner, 1, f.epochTime)
  }

  // ---------------------------------------------------------------------
  // Properties

  /** Whatever their timestamps, elements before the last 26 positions never
      reach the legacy result. */
  lemma LegacyMacdIgnoresPrefix(prefix: seq<Exec>, recent: seq<Exec>)
    requires |recent| >= WINDOW
    ensures LegacyMacdOf(prefix + recent) == LegacyMacdOf(recent)
  {
    SuffixOfAppend(prefix, recent, WINDOW);
    SuffixOfAppend(prefix, recent, FAST_SPAN);
    SuffixOfAppend(prefix, recent, SIGNAL_SPAN);
  }

  lemma SuffixOfAppend(prefix: seq<Exec>, recent: seq<Exec>, n: nat)
    requires n <= |recent|
    ensures (prefix + recent)[|prefix + recent| - n..] == recent[|recent| - n..]
  {
  }

  /** The legacy average of executions equals the average of their `BaseData`
      readings in src/indicator/moving_average.rs. */
  lemma ExecEmaAgrees(s: seq<Exec>)
    ensures ExecEma(s) == MA.ExponentialValue(Map(s, ExecBase))
  {
    TF.AgreesWithMovingAverage(Map(s, ExecData), Map(s, ExecBase));
  }

  /** On input already in time order the legacy MACD equals the MACD of
      src/indicator/macd.rs over the `BaseData` readings. */
  lemma LegacyMacdAgreesOnSortedInput(data: seq<Exec>)
    requires SortedBy(data, ExecEpoch)
    ensures LegacyMacdOf(data) == MacdOf(Map(data, ExecBase))
  {
    if |data| >= WINDOW {
      LongInputAgrees(data);
    } else {
      assert |Map(data, ExecBase)| < WINDOW;
    }
  }

  lemma LongInputAgrees(data: seq<Exec>)
    requires SortedBy(data, ExecEpoch) && |data| >= WINDOW
    ensures LegacyMacdOf(data) == MacdOf(Map(data, ExecBase))
  {
    SuffixAgrees(data, WINDOW);
    SuffixAgrees(data, FAST_SPAN);
    SuffixAgrees(data, SIGNAL_SPAN);
    var e26 := ExecEma(data[|data| - WINDOW..]);
    var e12 := ExecEma(data[|data| - FAST_SPAN..]);
    var e9 := ExecEma(data[|data| - SIGNAL_SPAN..]);
    assert LegacyMacdOf(data) == Ok(Macd(e9, e12, e26));
  }

  /** The `BaseData` readings of executions in time order are in time order. */
  lemma ExecBasesInOrder(data: seq<Exec>)
    requires SortedBy(data, ExecEpoch)
    ensures SortedBy(Map(data, ExecBase), BaseEpoch)
  {
    var b := Map(data, ExecBase);
    forall i | 0 < i < |b| ensures BaseEpoch(b[i - 1]) <= BaseEpoch(b[i]) {
      assert ExecEpoch(data[i - 1]) <= ExecEpoch(data[i]);
    }
  }

  /** On ordered input the legacy average of the last `n` positions is the
      average of the latest `n` readings. */
  lemma SuffixAgrees(data: seq<Exec>, n: nat)
    requires n <= |data| && SortedBy(data, ExecEpoch)
    ensures ExecEma(data[|data| - n..]) == MA.ExponentialValue(Latest(Map(data, ExecBase), n))
  {
    var b := Map(data, ExecBase);
    ExecBasesInOrder(data);
    SortBySortedInput(b, BaseEpoch);
    assert Latest(b, n) == Map(data[|data| - n..], ExecBase);
    ExecEmaAgrees(data[|data| - n..]);
  }

  /** The `BaseData` reading of a force index, as force_index.rs defines it. */
  function ForceBase(f: FI.ForceIndex): BaseData { f.AsBase() }

  /** Averaging legacy force indices through their `Exec` view gives the same
      value as averaging them through force_index.rs's `BaseData` view. */
  lemma ForceAverageAgrees(fs: seq<FI.ForceIndex>)
    ensures ExecEma(Map(fs, ExecView)) == MA.ExponentialValue(Map(fs, ForceBase))
  {
    ExecEmaAgrees(Map(fs, ExecView));
    assert Map(Map(fs, ExecView), ExecBase) == Map(fs, ForceBase);
  }
}
