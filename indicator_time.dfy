/** The older millisecond `Time` of src/indicator/time.rs, held as a `u64`.
    It has `from_days` only, and equality but no ordering. Arithmetic that
    would overflow or underflow `u64` panics in the source and is excluded by
    preconditions here. */
module IndicatorTimes {
  import opened ToolkitTypes

  const SEC_IN_MILLISEC: u64 := 1000
  const MINUTE_IN_MILLISEC: u64 := 60 * SEC_IN_MILLISEC
  const HOUR_IN_MILLISEC: u64 := 60 * MINUTE_IN_MILLISEC
  const DAY_IN_MILLISEC: u64 := 24 * HOUR_IN_MILLISEC

  datatype Time = Time(ms: u64) {
    /** `inner`: the milliseconds, which determine the time. */
    function Inner(): (r: u64)
      ensures Time(r) == this
    {
      ms
    }

    /** `+`. */
    function Add(rhs: Time): (r: Time)
      requires ms + rhs.ms < U64_LIMIT
      ensures r.Inner() == Inner() + rhs.Inner()
      ensures r.Inner() >= Inner() && r.Inner() >= rhs.Inner()
    {
      Time(ms + rhs.ms)
    }

    /** `-`: the left operand must not be the smaller one. */
    function Sub(rhs: Time): (r: Time)
      requires rhs.ms <= ms
      ensures r.Inner() == Inner() - rhs.Inner()
      ensures r.Inner() <= Inner()
    {
      Time(ms - rhs.ms)
    }
  }

  /** `From<u64>`. */
  function From(epoch: u64): (r: Time)
    ensures r.Inner() == epoch
  {
    Time(epoch)
  }

  /** `from_days`: `days · 86 400 000` ms, which must fit in `u64`
      (at most 213 503 982 334 days). */
  function FromDays(days: u64): (r: Time)
    requires days * 86400000 < U64_LIMIT
    ensures r.Inner() == days * 86400000
  {
    Time(days * DAY_IN_MILLISEC)
  }

  /** A `mut` place holding a `Time`: the receiver of `+=` and `-=`. */
  class TimeCell {
    var time: Time

    constructor (t: Time)
      ensures time == t
    {
      time := t;
    }

    /** `add_assign`: the same as `self = self + rhs`. */
    method AddAssign(rhs: Time)
      requires time.ms + rhs.ms < U64_LIMIT
      modifies this
      ensures time == old(time).Add(rhs)
    {
      time := Time(time.ms + rhs.ms);
    }

    /** `sub_assign`: the same as `self = self - rhs`. */
    method SubAssign(rhs: Time)
      requires rhs.ms <= time.ms
      modifies this
      ensures time == old(time).Sub(rhs)
    {
      time := Time(time.ms - rhs.ms);
    }
  }

  // ---------------------------------------------------------------------
  // Properties

  /** The largest day count `from_days` accepts. */
  lemma FromDaysLimit()
    ensures 213503982334 * 86400000 < U64_LIMIT <= 213503982335 * 86400000
  {
  }

  /** `From` then `inner` is the identity, and so is `inner` then `From`. */
  lemma FromInnerRoundTrip(epoch: u64, t: Time)
    ensures From(epoch).Inner() == epoch
    ensures From(t.Inner()) == t
  {
  }

  /** Subtracting what was added gives back the original time, and adding back
      what was subtracted too. */
  lemma AddSubRoundTrip(a: Time, b: Time)
    ensures a.ms + b.ms < U64_LIMIT ==> a.Add(b).Sub(b) == a
    ensures b.ms <= a.ms ==> a.Sub(b).Add(b) == a
  {
  }

  /** Equality is equality of the milliseconds. */
  lemma EqualityOfInner(a: Time, b: Time)
    ensures a == b <==> a.Inner() == b.Inner()
  {
  }
}
