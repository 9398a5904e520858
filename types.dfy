/** The data-access capabilities the indicators read (src/types/data.rs,
    src/indicator/data.rs and the `Exec` view used by src/indicator/elder_ray.rs),
    the error kinds (src/types/error.rs) and the integer widths of the Rust code.
    Every `f64` of the source is an exact `real` here. */
module ToolkitTypes {

  const U64_LIMIT: int := 0x1_0000_0000_0000_0000
  const U128_LIMIT: int := 0x1_0000_0000_0000_0000_0000_0000_0000_0000

  type u64 = x: int | 0 <= x < U64_LIMIT
  type u128 = x: int | 0 <= x < U128_LIMIT
  /** The crate is built for 64-bit targets. */
  type usize = u64

  /** The largest finite `f64`, 2^1024 - 2^971: the starting value of the
      running minima in the stochastic oscillator and the Elder Ray. */
  const F64_MAX: real := 179769313486231570814527423731704356798070567525844996598917476803157260780028538760589558632766878171540458953514382464234321326889464182768467546703537516986049910576551282076245490090389328944075868508455133942304583236903222948165808559332123348274797826204144723168738177180919299881250404026184124858368.0

  datatype ToolkitError = EmptyData | DataNotEnough | InvalidData

  datatype Result<T> = Ok(value: T) | Err(error: ToolkitError)

  /** `BaseData`: a value, its weight (for example a volume) and a millisecond timestamp. */
  datatype BaseData = BaseData(value: real, weight: u64, epochTime: u128)

  /** `Stock`: one OHLCV bar. */
  datatype Stock = Stock(open: real, high: real, low: real, close: real,
                         totExecAmount: real, totExecVolume: u64, epochTime: u128)

  /** A caller type that implements both `Stock` and `BaseData`. Each trait has
      its own accessors, so each view keeps its own fields (its own timestamp too). */
  datatype StockBase = StockBase(stock: Stock, base: BaseData)

  /** The `Exec` view (price, volume, timestamp) read by the Elder Ray and by the
      legacy MACD of src/indicator/oscillator.rs. */
  datatype Exec = Exec(price: real, volume: u64, epochTime: u128)

  /** `Data` of src/indicator/data.rs: a price and a millisecond timestamp, the
      input of the legacy moving averages in src/indicator/trend_following.rs.
      The trait declares a 64-bit timestamp. The test record of
      trend_following.rs implements a `crate::types::data::Data` that
      src/types/data.rs does not declare, with a 128-bit timestamp, and the
      `Exec` values that oscillator.rs averages carry 128-bit ones; only
      comparisons of timestamps matter, and the model uses the 128-bit width. */
  datatype Data = Data(price: real, epochTime: u128)

  /** Sort keys: each `sort_by_key(|k| k.epoch_time())` of the source. */
  function BaseEpoch(d: BaseData): int { d.epochTime }
  function StockEpoch(s: StockBase): int { s.stock.epochTime }
  function BarEpoch(b: Stock): int { b.epochTime }
  function DataEpoch(d: Data): int { d.epochTime }

  /** The `BaseData` reading of an execution, as `exponential` averages it:
      its price, its volume and its timestamp. */
  function ExecBase(e: Exec): BaseData { BaseData(e.price, e.volume, e.epochTime) }

  function ExecEpoch(e: Exec): int { e.epochTime }

  /** The `value()` of each element, in order. */
  function Values(s: seq<BaseData>): (r: seq<real>)
    ensures |r| == |s| && forall i :: 0 <= i < |s| ==> r[i] == s[i].value
  {
    seq(|s|, i requires 0 <= i < |s| => s[i].value)
  }

  /** The `BaseData` view of each element of a `Stock + BaseData` sequence. */
  function Bases(s: seq<StockBase>): (r: seq<BaseData>)
    ensures |r| == |s| && forall i :: 0 <= i < |s| ==> r[i] == s[i].base
  {
    seq(|s|, i requires 0 <= i < |s| => s[i].base)
  }
}
