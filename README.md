# Relative lock times (BIP 68 / BIP 112)

This project models the relative lock-time values of rust-bitcoin:
`relative::LockTime` and its two 16-bit units, `Height` (blocks) and `Time`
(512-second intervals). It also models the predicates a script or
transaction validator uses to decide whether an input's nSequence /
OP_CHECKSEQUENCEVERIFY lock has been met.

- `Wrappers` (wrappers.dfy): `Option` and `Result`.
- `Integers` (integers.dfy): the ranges of `u16` and `u32`, Rust's `u32` addition with its two overflow behaviours, and `u16::try_from`.
- `Relative` (relative.dfy): newtypes `Height` and `Time` over [0, 65535], the `LockTime` datatype, the three error records and every operation of the source file.
  - The ordering on `Height` and `Time` is that of the newtype, matching the derived `Ord`.
  - `TimeOverflowError.Overflows` is the invariant the source keeps on its private field: the seconds really do not fit.
- `RelativeProperties` (relative_properties.dfy): lemmas that relate the operations.
  - Bounds and round trips.
  - Rounding up is conservative.
  - Satisfaction is monotone.
  - Implication is a partial order that is total within a unit, and it is exactly entailment of satisfaction within a unit.
  - The source's tests, stated as lemmas.

Everything is pure, so every operation is a function. No I/O, clock or chain
state is involved: the elapsed height and time are the caller's arguments.

The code, not the prose describing it, decides the bound of the seconds conversion. `(seconds + 511) / 512 <= 65535` holds exactly when `seconds <= 33_553_920`, which is 65535 * 512. A bound of 33,554,431 seconds, or the "33,554,432 seconds" in the doc comment of `Time::MAX`, is 511 or 512 seconds too high. `RelativeProperties.TimeMaxInSeconds` states the real boundary.

## Model

| member | source | states |
|---|---|---|
| `Integers.AddU32` | bitcoin/src/blockdata/locktime/relative.rs:255 | `u32` `+`: the true sum when it fits; otherwise a panic with overflow checks, or the sum minus 2^32 without them |
| `Integers.TryIntoU16` | bitcoin/src/blockdata/locktime/relative.rs:255 | `u16::try_from` succeeds iff the value is at most 65535, and then keeps the value |
| `Relative.Height.Value` | bitcoin/src/blockdata/locktime/relative.rs:207-209 | the inner `u16` identifies the height: converting it back gives the same height |
| `Relative.Height.From` | bitcoin/src/blockdata/locktime/relative.rs:212-215 | every `u16` is a height, and `value()` returns it unchanged |
| `Relative.Time.Value` | bitcoin/src/blockdata/locktime/relative.rs:262-264 | the inner `u16` identifies the time: converting it back gives the same time |
| `Relative.Time.From512SecondIntervals` | bitcoin/src/blockdata/locktime/relative.rs:241-245 | every `u16` interval count is a time, and `value()` returns it unchanged |
| `Relative.Time.FromSecondsCeil` | bitcoin/src/blockdata/locktime/relative.rs:247-260 | succeeds iff seconds <= 65535 * 512; on success the result is the least interval count covering the seconds (v * 512 >= s > (v - 1) * 512); on failure the error carries the input and it genuinely overflows |
| `Relative.Time.FromSecondsCeilAsWritten` | bitcoin/src/blockdata/locktime/relative.rs:254-260 | with the `u32` addition as written: equals `FromSecondsCeil` for seconds <= u32::MAX - 511; above that it panics with overflow checks and returns `Ok(Time::ZERO)` without them |
| `Relative.LockTime.FromHeight` | bitcoin/src/blockdata/locktime/relative.rs:163-166 | `From<Height>` gives a block lock with that height |
| `Relative.LockTime.FromTime` | bitcoin/src/blockdata/locktime/relative.rs:168-171 | `From<Time>` gives a time lock with that time |
| `Relative.LockTime.IsSatisfiedByHeight` | bitcoin/src/blockdata/locktime/relative.rs:126-133 | succeeds iff the lock is a block lock; then true iff lock height <= height; otherwise the error carries exactly the height asked about and the lock's time |
| `Relative.LockTime.IsSatisfiedByTime` | bitcoin/src/blockdata/locktime/relative.rs:153-160 | succeeds iff the lock is a time lock; then true iff lock time <= time; otherwise the error carries exactly the time asked about and the lock's height |
| `Relative.LockTime.IsSatisfiedBy` | bitcoin/src/blockdata/locktime/relative.rs:58-64 | a block lock is satisfied iff its height <= h, a time lock iff its time <= t; a unit mismatch is never an error |
| `Relative.LockTime.IsImpliedBy` | bitcoin/src/blockdata/locktime/relative.rs:98-106 | true iff both locks have the same unit and this value <= other's; and when true, every (h, t) satisfying `other` satisfies this lock (soundness) |
| `RelativeProperties.HeightBounds` | bitcoin/src/blockdata/locktime/relative.rs:197-214 | ZERO == MIN == 0, MAX == 65535, every height lies between MIN and MAX, and `From(value())` is the identity |
| `RelativeProperties.TimeBounds` | bitcoin/src/blockdata/locktime/relative.rs:231-245 | ZERO == MIN == 0, MAX == 65535, every time lies between MIN and MAX, and `from_512_second_intervals(value())` is the identity |
| `RelativeProperties.TimeMaxInSeconds` | bitcoin/src/blockdata/locktime/relative.rs:238-260 | MAX stands for 33,553,920 seconds, which converts to MAX; one second more is the overflow error |
| `RelativeProperties.OverflowErrorIsExact` | bitcoin/src/blockdata/locktime/relative.rs:273-278 | an overflow error's seconds overflow iff they exceed 33,553,920, and the conversion fails exactly on those inputs |
| `RelativeProperties.FromSecondsCeilSatisfaction` | bitcoin/src/blockdata/locktime/relative.rs:247-260 | the time lock built from s seconds is satisfied by t intervals iff t * 512 >= s: rounding up never lets the lock pass early |
| `RelativeProperties.FromSecondsCeilMonotone` | bitcoin/src/blockdata/locktime/relative.rs:254-260 | more seconds never give fewer intervals, and a smaller input converts whenever a larger one does |
| `RelativeProperties.FromSecondsCeilExamples` | bitcoin/src/blockdata/locktime/relative.rs:247-260 | 0 -> 0, 1 -> 1, 511 -> 1, 512 -> 1, 513 -> 2 intervals |
| `RelativeProperties.FromSecondsCeilWrapCounterexample` | bitcoin/src/blockdata/locktime/relative.rs:255 | for u32::MAX seconds the code as written returns a zero lock (no overflow checks) or panics (overflow checks), where the intended result is `Err(TimeOverflowError)` |
| `RelativeProperties.CombinedAgreesWithTyped` | bitcoin/src/blockdata/locktime/relative.rs:58-64 | the combined predicate returns what the typed predicate of the lock's own unit returns |
| `RelativeProperties.CombinedIgnoresOtherUnit` | bitcoin/src/blockdata/locktime/relative.rs:58-64 | the combined predicate does not depend on the argument of the other unit |
| `RelativeProperties.SatisfactionMonotone` | bitcoin/src/blockdata/locktime/relative.rs:66-71 | a satisfied lock stays satisfied as more blocks and time elapse |
| `RelativeProperties.SatisfactionExamples` | bitcoin/src/blockdata/locktime/relative.rs:332-354 | block lock 10 against heights 9/10/11 and time lock 70 against times 69/70/71, with any value of the other unit |
| `RelativeProperties.ImpliedByReflexive` | bitcoin/src/blockdata/locktime/relative.rs:98-106 | every lock implies itself |
| `RelativeProperties.ImpliedByTransitive` | bitcoin/src/blockdata/locktime/relative.rs:98-106 | implication is transitive |
| `RelativeProperties.ImpliedByAntisymmetric` | bitcoin/src/blockdata/locktime/relative.rs:98-106 | two locks that imply each other are equal |
| `RelativeProperties.ImpliedByTotalWithinUnit` | bitcoin/src/blockdata/locktime/relative.rs:98-106 | any two locks of one unit are comparable; locks of different units never imply one another |
| `RelativeProperties.ImpliedByIsEntailmentWithinUnit` | bitcoin/src/blockdata/locktime/relative.rs:66-106 | within one unit, `a.IsImpliedBy(b)` holds iff every (h, t) satisfying b satisfies a (both directions) |
| `RelativeProperties.CrossUnitEntailment` | bitcoin/src/blockdata/locktime/relative.rs:98-106 | across units implication is false; a lock of the other unit entails a only when a is the zero lock, so the answer is conservative |
| `RelativeProperties.ImplicationExamples` | bitcoin/src/blockdata/locktime/relative.rs:356-383 | block lock 10 against 9/10/11, time lock 70 against 69/70/71, and time 70 not implied by height 10 |

## Left out

- `fmt::Display` for `LockTime`, `Height`, `Time` and the three errors (lines 173-189, 219-221, 269-271, 281-285, 300-304, 319-323): presentational only. They rely on Rust's formatter and integer formatting.
- Parsing from strings (`impl_parse_str_from_int_infallible!`, lines 217 and 267): the macro and the standard integer parser it wraps are not part of this model.
- serde derives, mutagen `mutate` attributes, the `std::error::Error` impls and the `Debug`, `Hash` and `Default` derives: they carry no lock-time logic.
- `Sequence::to_relative_lock_time` and the bit-22 unit flag: the code that builds a `LockTime` from the raw sequence field is not part of this model.
- Integers.TryIntoU16: returns `None` in place of Rust's `TryFromIntError`, whose content the caller discards.

## Findings

| source | as written | input that shows it | evidently intended | confidence | as-written member | corrected member |
|---|---|---|---|---|---|---|
| bitcoin/src/blockdata/locktime/relative.rs:255 | `(seconds + 511) / 512` adds in `u32`, which overflows for seconds > u32::MAX - 511 | `from_seconds_ceil(4294967295)`: panics with overflow checks; returns `Ok(Time(0))` without them | `Err(TimeOverflowError { seconds })`, as for every other input above 33,553,920 | high; not executed | `Relative.Time.FromSecondsCeilAsWritten`, exhibited by `RelativeProperties.FromSecondsCeilWrapCounterexample` | `Relative.Time.FromSecondsCeil` |
