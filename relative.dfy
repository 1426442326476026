/** Relative lock times: the nSequence / OP_CHECKSEQUENCEVERIFY semantics of
    BIP 68 and BIP 112. A lock is either a number of blocks or a number of
    512-second intervals that must have elapsed since the spent output was
    confirmed. */
module Relative {
  import opened Wrappers
  import opened Integers

  /** Seconds in one relative-time interval. */
  const INTERVAL_SECONDS: int := 512

  /** The largest number of seconds that still rounds up to a 16-bit count
      of intervals (65535 * 512). */
  const MAX_CONVERTIBLE_SECONDS: int := U16_MAX * INTERVAL_SECONDS

  /** A relative lock-by-blockheight value: a 16-bit count of blocks,
      ordered by that count. */
  newtype Height = x: int | 0 <= x <= 0xFFFF
  {
    /** Relative block height 0, which any block satisfies. */
    static const ZERO: Height := 0
    static const MIN: Height := ZERO
    static const MAX: Height := 0xFFFF

    /** The inner 16-bit count. */
    function Value(): (v: u16)
      ensures v as Height == this
    {
      this as int
    }

    /** `From<u16>`: every 16-bit value is a valid height. */
    static function From(value: u16): (h: Height)
      ensures h.Value() == value
    {
      value as Height
    }
  }

  /** A relative lock-by-blocktime value: a 16-bit count of 512-second
      intervals, ordered by that count. */
  newtype Time = x: int | 0 <= x <= 0xFFFF
  {
    /** Relative block time 0, which any block satisfies. */
    static const ZERO: Time := 0
    static const MIN: Time := ZERO
    static const MAX: Time := 0xFFFF

    /** The inner 16-bit count of intervals. */
    function Value(): (v: u16)
      ensures v as Time == this
    {
      this as int
    }

    /** A time of `intervals` 512-second intervals; every 16-bit value is valid. */
    static function From512SecondIntervals(intervals: u16): (t: Time)
      ensures t.Value() == intervals
    {
      intervals as Time
    }

    /** Seconds rounded UP to whole 512-second intervals, so that the lock is
        never satisfied before `seconds` have passed. Fails exactly when the
        rounded count does not fit in 16 bits, and the error then carries the
        input. The sum `seconds + 511` is computed without wrap-around; the
        `u32` code as written is `FromSecondsCeilAsWritten`. */
    static function FromSecondsCeil(seconds: u32): (r: Result<Time, TimeOverflowError>)
      ensures r.Ok? <==> seconds <= MAX_CONVERTIBLE_SECONDS
      ensures r.Ok? ==> r.value.Value() * INTERVAL_SECONDS >= seconds
      ensures r.Ok? ==> r.value.Value() * INTERVAL_SECONDS < seconds + INTERVAL_SECONDS
      ensures r.Err? ==> r.error == TimeOverflowError(seconds) && r.error.Overflows()
    {
      var intervals := (seconds + 511) / 512;
      match TryIntoU16(intervals)
      case Some(interval) => Ok(From512SecondIntervals(interval))
      case None => Err(TimeOverflowError(seconds))
    }

    /** `from_seconds_ceil` exactly as written: the addition is Rust's `u32`
        `+`, which overflows for `seconds > u32::MAX - 511`. Below that bound
        it agrees with `FromSecondsCeil`; above it a build with overflow
        checks panics and one without them returns `Ok(Time::ZERO)`. */
    static function FromSecondsCeilAsWritten(seconds: u32, mode: OverflowMode)
      : (r: Outcome<Result<Time, TimeOverflowError>>)
      ensures seconds <= U32_MAX - 511 ==> r == Returns(FromSecondsCeil(seconds))
      ensures seconds > U32_MAX - 511 && mode == Panic ==> r == Panics
      ensures seconds > U32_MAX - 511 && mode == Wrap ==> r == Returns(Ok(ZERO))
    {
      match AddU32(seconds, 511, mode)
      case Panics => Panics
      case Returns(sum) =>
        match TryIntoU16(sum / 512)
        case Some(interval) => Returns(Ok(From512SecondIntervals(interval)))
        case None => Returns(Err(TimeOverflowError(seconds)))
    }
  }

  /** Seconds too large to be encoded as a 16-bit count of 512-second
      intervals. The field is private in the source so that it always
      holds a value that really overflows; `Overflows` is that invariant. */
  datatype TimeOverflowError = TimeOverflowError(seconds: u32)
  {
    predicate Overflows() {
      (seconds + 511) / 512 > U16_MAX
    }
  }

  /** A lock-by-blocktime lock was asked about a height. */
  datatype IncompatibleHeightError = IncompatibleHeightError(height: Height, time: Time)

  /** A lock-by-blockheight lock was asked about a time. */
  datatype IncompatibleTimeError = IncompatibleTimeError(time: Time, height: Height)

  /** A relative lock time: a block count or a count of 512-second intervals. */
  datatype LockTime = Blocks(height: Height) | Time(time: Time)
  {
    /** `From<Height>`. */
    static function FromHeight(h: Height): (l: LockTime)
      ensures l.Blocks? && l.height == h
    {
      Blocks(h)
    }

    /** `From<Time>`. */
    static function FromTime(t: Time): (l: LockTime)
      ensures l.Time? && l.time == t
    {
      Time(t)
    }

    /** Whether `height` blocks satisfy this lock; an error, carrying the
        height asked about and the lock's own time, if this is a time lock. */
    function IsSatisfiedByHeight(height: Height): (r: Result<bool, IncompatibleHeightError>)
      ensures r.Ok? <==> Blocks?
      ensures r.Ok? ==> (r.value <==> this.height <= height)
      ensures r.Err? ==> r.error == IncompatibleHeightError(height, this.time)
    {
      match this
      case Blocks(h) => Ok(h.Value() <= height.Value())
      case Time(time) => Err(IncompatibleHeightError(height, time))
    }

    /** Whether `time` intervals satisfy this lock; an error, carrying the
        time asked about and the lock's own height, if this is a height lock. */
    function IsSatisfiedByTime(time: Time): (r: Result<bool, IncompatibleTimeError>)
      ensures r.Ok? <==> Time?
      ensures r.Ok? ==> (r.value <==> this.time <= time)
      ensures r.Err? ==> r.error == IncompatibleTimeError(time, this.height)
    {
      match this
      case Time(t) => Ok(t.Value() <= time.Value())
      case Blocks(height) => Err(IncompatibleTimeError(time, height))
    }

    /** Whether this lock is satisfied by `h` elapsed blocks or by `t` elapsed
        intervals, whichever is its unit. The argument of the other unit is
        ignored: a unit mismatch is never an error, it only reads as false. */
    function IsSatisfiedBy(h: Height, t: Time): (r: bool)
      ensures Blocks? ==> (r <==> this.height <= h)
      ensures Time? ==> (r <==> this.time <= t)
    {
      if IsSatisfiedByHeight(h) == Ok(true) then true
      else IsSatisfiedByTime(t) == Ok(true)
    }

    /** Whether satisfaction of `other` implies satisfaction of this lock:
        both have the same unit and this one asks for no more than `other`.
        Locks of different units never imply one another. */
    function IsImpliedBy(other: LockTime): (r: bool)
      ensures r <==>
        || (Blocks? && other.Blocks? && this.height <= other.height)
        || (Time? && other.Time? && this.time <= other.time)
      ensures r ==> forall h: Height, t: Time :: other.IsSatisfiedBy(h, t) ==> IsSatisfiedBy(h, t)
    {
      match (this, other)
      case (Blocks(this_), Blocks(other_)) => this_.Value() <= other_.Value()
      case (Time(this_), Time(other_)) => this_.Value() <= other_.Value()
      case _ => false
    }
  }
}
