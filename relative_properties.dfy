/** Properties of relative lock times that relate several operations. */
module RelativeProperties {
  import opened Wrappers
  import opened Integers
  import opened Relative

  /** Every elapsed amount that satisfies `b` also satisfies `a`. */
  ghost predicate Entails(b: LockTime, a: LockTime) {
    forall h: Height, t: Time :: b.IsSatisfiedBy(h, t) ==> a.IsSatisfiedBy(h, t)
  }

  /** The lock that every elapsed amount satisfies, in either unit. */
  predicate IsTrivial(a: LockTime) {
    a == LockTime.Blocks(Height.ZERO) || a == LockTime.Time(Time.ZERO)
  }

  // ----- Heights and times -----

  lemma HeightBounds(h: Height)
    ensures Height.ZERO == Height.MIN && Height.MIN.Value() == 0
    ensures Height.MAX.Value() == U16_MAX
    ensures Height.MIN <= h <= Height.MAX
    ensures Height.From(h.Value()) == h
  {
  }

  lemma TimeBounds(t: Time)
    ensures Time.ZERO == Time.MIN && Time.MIN.Value() == 0
    ensures Time.MAX.Value() == U16_MAX
    ensures Time.MIN <= t <= Time.MAX
    ensures Time.From512SecondIntervals(t.Value()) == t
  {
  }

  /** The largest time lock stands for 65535 * 512 = 33,553,920 seconds:
      exactly the largest input `FromSecondsCeil` accepts. */
  lemma TimeMaxInSeconds()
    ensures Time.MAX.Value() * INTERVAL_SECONDS == MAX_CONVERTIBLE_SECONDS == 33_553_920
    ensures Time.FromSecondsCeil(33_553_920) == Ok(Time.MAX)
    ensures Time.FromSecondsCeil(33_553_921) == Err(TimeOverflowError(33_553_921))
  {
  }

  // ----- Seconds to intervals -----

  /** The conversion's error condition is exactly the overflow invariant. */
  lemma OverflowErrorIsExact(seconds: u32)
    ensures TimeOverflowError(seconds).Overflows() <==> seconds > MAX_CONVERTIBLE_SECONDS
    ensures Time.FromSecondsCeil(seconds).Err? <==> TimeOverflowError(seconds).Overflows()
  {
  }

  /** Rounding up is what makes the conversion safe to lock with: the lock
      built from `seconds` is satisfied by `t` intervals exactly when those
      intervals cover `seconds`. */
  lemma FromSecondsCeilSatisfaction(seconds: u32, t: Time)
    requires Time.FromSecondsCeil(seconds).Ok?
    ensures LockTime.FromTime(Time.FromSecondsCeil(seconds).value).IsSatisfiedByTime(t)
            == Ok(t.Value() * INTERVAL_SECONDS >= seconds)
  {
  }

  /** More seconds never give fewer intervals. */
  lemma FromSecondsCeilMonotone(s1: u32, s2: u32)
    requires s1 <= s2 && Time.FromSecondsCeil(s2).Ok?
    ensures Time.FromSecondsCeil(s1).Ok?
    ensures Time.FromSecondsCeil(s1).value <= Time.FromSecondsCeil(s2).value
  {
  }

  lemma FromSecondsCeilExamples()
    ensures Time.FromSecondsCeil(0) == Ok(Time.ZERO)
    ensures Time.FromSecondsCeil(1) == Ok(Time.From512SecondIntervals(1))
    ensures Time.FromSecondsCeil(511) == Ok(Time.From512SecondIntervals(1))
    ensures Time.FromSecondsCeil(512) == Ok(Time.From512SecondIntervals(1))
    ensures Time.FromSecondsCeil(513) == Ok(Time.From512SecondIntervals(2))
  {
  }

  /** The `u32` addition as written: for the largest input a build without
      overflow checks returns a zero lock, which 4,294,967,295 seconds do not
      round up to, where the intended result is the overflow error. */
  lemma FromSecondsCeilWrapCounterexample()
    ensures Time.FromSecondsCeilAsWritten(U32_MAX, Wrap) == Returns(Ok(Time.ZERO))
    ensures Time.ZERO.Value() * INTERVAL_SECONDS < U32_MAX
    ensures Time.FromSecondsCeilAsWritten(U32_MAX, Panic) == Panics
    ensures Time.FromSecondsCeil(U32_MAX) == Err(TimeOverflowError(U32_MAX))
  {
  }

  // ----- Satisfaction -----

  /** A typed predicate on a lock of its own unit and the combined predicate
      agree on every argument. */
  lemma CombinedAgreesWithTyped(l: LockTime, h: Height, t: Time)
    ensures l.Blocks? ==> l.IsSatisfiedByHeight(h) == Ok(l.IsSatisfiedBy(h, t))
    ensures l.Time? ==> l.IsSatisfiedByTime(t) == Ok(l.IsSatisfiedBy(h, t))
  {
  }

  /** The combined predicate ignores the argument of the other unit. */
  lemma CombinedIgnoresOtherUnit(l: LockTime, h1: Height, h2: Height, t1: Time, t2: Time)
    ensures l.Blocks? ==> l.IsSatisfiedBy(h1, t1) == l.IsSatisfiedBy(h1, t2)
    ensures l.Time? ==> l.IsSatisfiedBy(h1, t1) == l.IsSatisfiedBy(h2, t1)
  {
  }

  /** Once satisfied, a lock stays satisfied as more blocks or time elapse. */
  lemma SatisfactionMonotone(l: LockTime, h1: Height, h2: Height, t1: Time, t2: Time)
    requires h1 <= h2 && t1 <= t2
    requires l.IsSatisfiedBy(h1, t1)
    ensures l.IsSatisfiedBy(h2, t2)
  {
  }

  lemma SatisfactionExamples(anyHeight: Height, anyTime: Time)
    ensures var lock := LockTime.FromHeight(Height.From(10));
      && !lock.IsSatisfiedBy(Height.From(9), anyTime)
      && lock.IsSatisfiedBy(Height.From(10), anyTime)
      && lock.IsSatisfiedBy(Height.From(11), anyTime)
    ensures var lock := LockTime.FromTime(Time.From512SecondIntervals(70));
      && !lock.IsSatisfiedBy(anyHeight, Time.From512SecondIntervals(69))
      && lock.IsSatisfiedBy(anyHeight, Time.From512SecondIntervals(70))
      && lock.IsSatisfiedBy(anyHeight, Time.From512SecondIntervals(71))
  {
  }

  // ----- Implication -----

  lemma ImpliedByReflexive(a: LockTime)
    ensures a.IsImpliedBy(a)
  {
  }

  lemma ImpliedByTransitive(a: LockTime, b: LockTime, c: LockTime)
    requires a.IsImpliedBy(b) && b.IsImpliedBy(c)
    ensures a.IsImpliedBy(c)
  {
  }

  lemma ImpliedByAntisymmetric(a: LockTime, b: LockTime)
    requires a.IsImpliedBy(b) && b.IsImpliedBy(a)
    ensures a == b
  {
  }

  /** Within one unit any two locks are comparable; across units none are. */
  lemma ImpliedByTotalWithinUnit(a: LockTime, b: LockTime)
    ensures a.Blocks? == b.Blocks? ==> a.IsImpliedBy(b) || b.IsImpliedBy(a)
    ensures a.Blocks? != b.Blocks? ==> !a.IsImpliedBy(b) && !b.IsImpliedBy(a)
  {
  }

  /** Within one unit, implication is exactly entailment of satisfaction:
      `a.IsImpliedBy(b)` holds iff every elapsed amount satisfying `b`
      satisfies `a`. */
  lemma ImpliedByIsEntailmentWithinUnit(a: LockTime, b: LockTime)
    requires a.Blocks? == b.Blocks?
    ensures a.IsImpliedBy(b) <==> Entails(b, a)
  {
    if !a.IsImpliedBy(b) {
      // b's own requirement satisfies b but not a
      var h, t := if b.Blocks? then b.height else Height.ZERO, if b.Time? then b.time else Time.ZERO;
      assert b.IsSatisfiedBy(h, t) && !a.IsSatisfiedBy(h, t);
    }
  }

  /** Across units, implication is conservative: it is always false, but a
      lock of the other unit does entail `a` exactly when `a` is trivial. */
  lemma CrossUnitEntailment(a: LockTime, b: LockTime)
    requires a.Blocks? != b.Blocks?
    ensures !a.IsImpliedBy(b)
    ensures Entails(b, a) <==> IsTrivial(a)
  {
    if !IsTrivial(a) {
      // b is satisfied by the most time or blocks, a by no block or time
      var h, t := if b.Blocks? then Height.MAX else Height.ZERO, if b.Time? then Time.MAX else Time.ZERO;
      assert b.IsSatisfiedBy(h, t) && !a.IsSatisfiedBy(h, t);
    }
  }

  lemma ImplicationExamples()
    ensures var lock := LockTime.FromHeight(Height.From(10));
      && !lock.IsImpliedBy(LockTime.FromHeight(Height.From(9)))
      && lock.IsImpliedBy(LockTime.FromHeight(Height.From(10)))
      && lock.IsImpliedBy(LockTime.FromHeight(Height.From(11)))
    ensures var lock := LockTime.FromTime(Time.From512SecondIntervals(70));
      && !lock.IsImpliedBy(LockTime.FromTime(Time.From512SecondIntervals(69)))
      && lock.IsImpliedBy(LockTime.FromTime(Time.From512SecondIntervals(70)))
      && lock.IsImpliedBy(LockTime.FromTime(Time.From512SecondIntervals(71)))
      && !lock.IsImpliedBy(LockTime.FromHeight(Height.From(10)))
  {
  }
}
