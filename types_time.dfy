/** The millisecond `Time` of src/types/time.rs: a point in time or a duration,
    held as a `u128`. Arithmetic that would overflow or underflow `u128`
    panics in the source and is excluded by preconditions here. */
module Times {
  import opened ToolkitTypes

  const SEC_IN_MILLISEC: u128 := 1000
  const MINUTE_IN_MILLISEC: u128 := 60 * SEC_IN_MILLISEC
  const HOUR_IN_MILLISEC: u128 := 60 * MINUTE_IN_MILLISEC
  const DAY_IN_MILLISEC: u128 := 24 * HOUR_IN_MILLISEC

  datatype Time = Time(ms: u128) {
    /** `inner`: the milliseconds, which determine the time. */
    function Inner(): (r: u128)
      ensures Time(r) == this
    {
      ms
    }

    /** `+`. */
    function Add(rhs: Time): (r: Time)
      requires ms + rhs.ms < U128_LIMIT
      ensures r.Inner() == Inner() + rhs.Inner()
      ensures r.Inner() >= Inner() && r.Inner() >= rhs.Inner()
    {
      Time(ms + rhs.ms)
    }

    /** `-`: the left operand must not be the smaller one. */
    function Sub(rhs: Time): (r: Time)
      requires rhs.ms <= ms
      ensures r.Inner() == Inner() - rhs.Inner()
      ensures r.Inner() <= Inner()
    {
      Time(ms - rhs.ms)
    }

    /** The derived ordering: that of the milliseconds. It is irreflexive. */
    predicate Less(other: Time)
      ensures Less(other) <==> Inner() < other.Inner()
      ensures Less(other) ==> this != other
    {
      ms < other.ms
    }
  }

  /** `From<u128>`. */
  function From(epoch: u128): (r: Time)
    ensures r.Inner() == epoch
  {
    Time(epoch)
  }

  /** `from_days`: `days · 86 400 000` ms; no `usize` count of days overflows `u128`. */
  function FromDays(days: usize): (r: Time)
    ensures r.Inner() == days * 86400000
  {
    Time(days * DAY_IN_MILLISEC)
  }

  /** `from_hours`: `hours · 3 600 000` ms. */
  function FromHours(hours: usize): (r: Time)
    ensures r.Inner() == hours * 3600000
  {
    Time(hours * HOUR_IN_MILLISEC)
  }

  /** `from_minutes`: `minutes · 60 000` ms. */
  function FromMinutes(minutes: usize): (r: Time)
    ensures r.Inner() == minutes * 60000
  {
    Time(minutes * MINUTE_IN_MILLISEC)
  }

  /** `from_seconds`: `seconds · 1000` ms. */
  function FromSeconds(seconds: usize): (r: Time)
    ensures r.Inner() == seconds * 1000
  {
    Time(seconds * SEC_IN_MILLISEC)
  }

  /** A `mut` place holding a `Time`: the receiver of `+=` and `-=`. */
  class TimeCell {
    var time: Time

    constructor (t: Time)
      ensures time == t
    {
      time := t;
    }

    /** `add_assign`: the same as `self = self + rhs`. */
    method AddAssign(rhs: Time)
      requires time.ms + rhs.ms < U128_LIMIT
      modifies this
      ensures time == old(time).Add(rhs)
    {
      time := Time(time.ms + rhs.ms);
    }

    /** `sub_assign`: the same as `self = self - rhs`. */
    method SubAssign(rhs: Time)
      requires rhs.ms <= time.ms
      modifies this
      ensures time == old(time).Sub(rhs)
    {
      time := Time(time.ms - rhs.ms);
    }
  }

  // ---------------------------------------------------------------------
  // Properties

  /** The unit constants chain: a day is 24 hours, an hour 60 minutes, a minute 60 seconds. */
  lemma UnitsChain(n: usize)
    requires 24 * n < U64_LIMIT
    ensures FromDays(n) == FromHours(24 * n)
    ensures 60 * n < U64_LIMIT ==> FromHours(n) == FromMinutes(60 * n) && FromMinutes(n) == FromSeconds(60 * n)
  {
  }

  /** `From` then `inner` is the identity, and so is `inner` then `From`. */
  lemma FromInnerRoundTrip(epoch: u128, t: Time)
    ensures From(epoch).Inner() == epoch
    ensures From(t.Inner()) == t
  {
  }

  /** Subtracting what was added gives back the original time, and adding back
      what was subtracted too. */
  lemma AddSubRoundTrip(a: Time, b: Time)
    ensures a.ms + b.ms < U128_LIMIT ==> a.Add(b).Sub(b) == a
    ensures b.ms <= a.ms ==> a.Sub(b).Add(b) == a
  {
  }

  /** Equality is equality of the milliseconds. */
  lemma EqualityOfInner(a: Time, b: Time)
    ensures a == b <==> a.Inner() == b.Inner()
  {
  }

  /** The ordering is a strict total order, compatible with adding a duration. */
  lemma OrderIsTotal(a: Time, b: Time, c: Time)
    ensures !a.Less(a)
    ensures a.Less(b) && b.Less(c) ==> a.Less(c)
    ensures a.Less(b) || a == b || b.Less(a)
    ensures a.Less(b) && b.ms + c.ms < U128_LIMIT ==> a.Add(c).Less(b.Add(c))
  {
  }

  /** The `+=` and `-=` of a cell compose like `+` and `-`. */
  method AddThenSubAssign(cell: TimeCell, d: Time)
    requires cell.time.ms + d.ms < U128_LIMIT
    modifies cell
    ensures cell.time == old(cell.time)
  {
    cell.AddAssign(d);
    cell.SubAssign(d);
    AddSubRoundTrip(old(cell.time), d);
  }
}
