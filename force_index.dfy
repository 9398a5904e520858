/** The force index of src/indicator/force_index.rs: the change in close from
    one bar to the next, weighted by the later bar's volume. */
module ForceIndexes {
  import opened ToolkitTypes

  datatype ForceIndex = ForceIndex(inner: real, epochTime: u128) {
    /** `inner`: the stored force; with the timestamp it determines the index. */
    function Inner(): (r: real)
      ensures ForceIndex(r, epochTime) == this
    {
      inner
    }

    /** The `BaseData` implementation, so that force indices can be averaged:
        the force, weight 1, and the stored timestamp. */
    function AsBase(): (r: BaseData)
      ensures r.value == Inner() && r.weight == 1 && r.epochTime == epochTime
    {
      BaseData(inner, 1, epochTime)
    }
  }

  /** `new(prev, curr)`. */
  function New(prev: Stock, curr: Stock): (r: ForceIndex)
    ensures r.epochTime == curr.epochTime
    ensures r.Inner() == 0.0 <==> prev.close == curr.close || curr.totExecVolume == 0
    ensures r.Inner() > 0.0 <==> curr.close > prev.close && curr.totExecVolume > 0
    ensures r.Inner() < 0.0 <==> curr.close < prev.close && curr.totExecVolume > 0
  {
    var change := curr.close - prev.close;
    ProductSign(change, curr.totExecVolume);
    ForceIndex(change * curr.totExecVolume as real, curr.epochTime)
  }

  /** The sign of `change · volume` for a non-negative volume. */
  lemma ProductSign(change: real, volume: nat)
    ensures change * volume as real > 0.0 <==> change > 0.0 && volume > 0
    ensures change * volume as real < 0.0 <==> change < 0.0 && volume > 0
    ensures change * volume as real == 0.0 <==> change == 0.0 || volume == 0
  {
    var v := volume as real;
    if volume > 0 {
      if change > 0.0 {
        assert change * v > 0.0;
      } else if change < 0.0 {
        assert change * v < 0.0;
      }
    }
  }

  /** Of the earlier bar only the close matters. */
  lemma OnlyPreviousClose(prev: Stock, prev': Stock, curr: Stock)
    requires prev.close == prev'.close
    ensures New(prev, curr) == New(prev', curr)
  {
  }

  /** The force index scales with the volume: twice the volume, twice the force. */
  lemma ForceScalesWithVolume(prev: Stock, curr: Stock, curr': Stock)
    requires curr' == curr.(totExecVolume := curr'.totExecVolume)
    requires curr'.totExecVolume == 2 * curr.totExecVolume
    ensures New(prev, curr').Inner() == 2.0 * New(prev, curr).Inner()
  {
    var change, v := curr.close - prev.close, curr.totExecVolume as real;
    assert New(prev, curr').Inner() == change * (2.0 * v);
    assert New(prev, curr).Inner() == change * v;
    assert change * (2.0 * v) == 2.0 * (change * v);
  }
}
