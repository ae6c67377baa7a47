/** Slot arithmetic of the periodic schedules, in nanoseconds. An instant holds whole microseconds;
    periods may hold any number of nanoseconds, and sums are cut down to the microsecond. */
module Cron {
  import opened Basics

  const I128_MAX: int := 0x7FFF_FFFF_FFFF_FFFF_FFFF_FFFF_FFFF_FFFF
  const NANOS_PER_SECOND: int := 1_000_000_000
  const RESOLUTION: int := 1_000
  /** `Duration::MAX`: a `u64` of seconds and 999,999,999 nanoseconds. */
  const DURATION_MAX: int := 0xFFFF_FFFF_FFFF_FFFF * 1_000_000_000 + 999_999_999
  /** `TimeDelta::MAX`: an `i64` of milliseconds. */
  const DELTA_MAX: int := 0x7FFF_FFFF_FFFF_FFFF * 1_000_000

  type Duration = d: int | 0 <= d <= 0xFFFF_FFFF_FFFF_FFFF * 1_000_000_000 + 999_999_999

  /** The first and last instant a timestamp can hold. */
  datatype Calendar = Calendar(min: int, max: int)
  {
    ghost predicate Valid() {
      min <= 0 <= max && min % RESOLUTION == 0 && max - min <= DELTA_MAX
    }

    ghost predicate Holds(t: int) {
      min <= t <= max && t % RESOLUTION == 0
    }
  }

  datatype NextFire = At(at: int) | Never

  datatype CronError = PeriodTooShort | NoBeats | BeatsOutOfRange

  datatype Schedule = EveryBeats(beats: nat) | Every(period: Duration, anchor: int)

  /** `from_utc`: down to the microsecond, before the epoch too. */
  function Truncated(t: int): int {
    t - t % RESOLUTION
  }

  /** Whole periods in an elapsed time. */
  function Periods(elapsed: nat, period: int): (q: nat)
    requires period > 0
  {
    Quotient(elapsed, period);
    elapsed / period
  }

  lemma Quotient(elapsed: nat, period: int)
    requires period > 0
    ensures elapsed / period >= 0 && elapsed % period < period
    ensures elapsed == elapsed / period * period + elapsed % period
  {
  }

  function PeriodNanos(period: Duration): (r: Result<int, CronError>)
    ensures r.Ok? ==> r.value > 0
  {
    if period < RESOLUTION then Err(PeriodTooShort) else Ok(period)
  }

  /** `i128::checked_mul` on operands that are not negative. */
  function CheckedMul(a: nat, b: nat): NextFire {
    if a * b <= I128_MAX then At(a * b) else Never
  }

  /** Seconds first, then the rest: each conversion can fail. */
  function TimeDelta(nanos: nat): NextFire {
    var seconds := nanos / NANOS_PER_SECOND;
    if seconds > I64_MAX || seconds > I64_MAX / 1000 || nanos > DELTA_MAX then Never else At(nanos)
  }

  function CheckedAdd(cal: Calendar, t: int, delta: int): NextFire {
    if cal.min <= t + delta <= cal.max then At(Truncated(t + delta)) else Never
  }

  /** `slots` periods after the anchor. */
  function Slot(cal: Calendar, period: nat, anchor: int, slots: nat): NextFire {
    var product := CheckedMul(slots, period);
    if product.Never? then Never
    else
      var offset := TimeDelta(product.at);
      if offset.Never? then Never else CheckedAdd(cal, anchor, offset.at)
  }

  function EveryNextFire(cal: Calendar, period: Duration, anchor: int, after: int): Result<NextFire, CronError> {
    var p := PeriodNanos(period);
    if p.Err? then Err(p.error)
    else if after < anchor then Ok(At(anchor))
    else Ok(Slot(cal, p.value, anchor, Periods(after - anchor, p.value) + 1))
  }

  function EveryPreviousFire(cal: Calendar, period: Duration, anchor: int, before: int): Result<NextFire, CronError> {
    var p := PeriodNanos(period);
    if p.Err? then Err(p.error)
    else if before < anchor then Ok(Never)
    else Ok(Slot(cal, p.value, anchor, Periods(before - anchor, p.value)))
  }

  function BeatPeriod(beats: nat, beat: Duration): Result<Duration, CronError> {
    if beats == 0 then Err(NoBeats)
    else if beats * beat > DURATION_MAX then Err(BeatsOutOfRange)
    else Ok(beats * beat)
  }

  /** `EveryBeats` is an interval anchored at the epoch. */
  function Next(cal: Calendar, schedule: Schedule, after: int, beat: Duration): Result<NextFire, CronError> {
    match schedule
    case Every(period, anchor) => EveryNextFire(cal, period, anchor, after)
    case EveryBeats(beats) =>
      var p := BeatPeriod(beats, beat);
      if p.Err? then Err(p.error) else EveryNextFire(cal, p.value, 0, after)
  }

  function Previous(cal: Calendar, schedule: Schedule, before: int, beat: Duration): Result<NextFire, CronError> {
    match schedule
    case Every(period, anchor) => EveryPreviousFire(cal, period, anchor, before)
    case EveryBeats(beats) =>
      var p := BeatPeriod(beats, beat);
      if p.Err? then Err(p.error) else EveryPreviousFire(cal, p.value, 0, before)
  }

  // ---- The fires, by themselves ----

  /** Period and anchor a schedule stands for, when it stands for any. */
  ghost predicate Means(cal: Calendar, schedule: Schedule, beat: Duration, period: Duration, anchor: int) {
    && period >= RESOLUTION && cal.Holds(anchor)
    && match schedule
       case Every(p, a) => period == p && anchor == a
       case EveryBeats(beats) => beats > 0 && period == beats * beat && anchor == 0
  }

  /** The anchor, and then a period more each time. */
  ghost function Fire(period: Duration, anchor: int, n: nat): int {
    if n == 0 then anchor else Fire(period, anchor, n - 1) + period
  }

  ghost predicate IsFire(period: Duration, anchor: int, t: int) {
    exists n :: t == Fire(period, anchor, n)
  }

  lemma {:induction false} FireIsProduct(period: Duration, anchor: int, n: nat)
    ensures Fire(period, anchor, n) == anchor + n * period
  {
    if n > 0 {
      FireIsProduct(period, anchor, n - 1);
      assert n * period == (n - 1) * period + period;
    }
  }

  lemma {:induction false} FiresRise(period: Duration, anchor: int, m: nat, n: nat)
    requires m <= n
    ensures Fire(period, anchor, m) <= Fire(period, anchor, n)
  {
    if m < n {
      FiresRise(period, anchor, m, n - 1);
    }
  }

  /** Between two consecutive fires there is no other. */
  lemma FiresApart(period: Duration, anchor: int, n: nat, t: int)
    requires IsFire(period, anchor, t)
    ensures t <= Fire(period, anchor, n) || t >= Fire(period, anchor, n + 1)
  {
    var m: nat :| t == Fire(period, anchor, m);
    if m <= n {
      FiresRise(period, anchor, m, n);
    } else {
      FiresRise(period, anchor, n + 1, m);
    }
  }

  /** The checked steps lose nothing: a slot is missing exactly when it lies beyond the calendar. */
  lemma SlotIsExact(cal: Calendar, period: Duration, anchor: int, t: int, slots: nat)
    requires cal.Valid() && cal.Holds(anchor) && cal.Holds(t) && anchor <= t
    requires Fire(period, anchor, slots) <= t + period
    ensures CheckedMul(slots, period).At?
    ensures Slot(cal, period, anchor, slots) ==
            var raw := Fire(period, anchor, slots); if raw <= cal.max then At(Truncated(raw)) else Never
  {
    FireIsProduct(period, anchor, slots);
    FiresRise(period, anchor, 0, slots);
    assert DELTA_MAX + DURATION_MAX <= I128_MAX;
    var nanos := CheckedMul(slots, period).at;
    if nanos <= DELTA_MAX {
      assert nanos / NANOS_PER_SECOND <= DELTA_MAX / NANOS_PER_SECOND;
    }
  }

  // ---- Every period ----

  /** For every accepted period, an instant from the anchor on lies between two consecutive fires, and
      the two functions return them, cut to the microsecond. */
  lemma FiresAround(cal: Calendar, period: Duration, anchor: int, t: int) returns (q: nat)
    requires cal.Valid() && cal.Holds(anchor) && cal.Holds(t) && anchor <= t && period >= RESOLUTION
    ensures q == Periods(t - anchor, period)
    ensures Fire(period, anchor, q) <= t < Fire(period, anchor, q + 1)
    ensures EveryPreviousFire(cal, period, anchor, t) == Ok(At(Truncated(Fire(period, anchor, q))))
    ensures EveryNextFire(cal, period, anchor, t) ==
            var raw := Fire(period, anchor, q + 1); Ok(if raw <= cal.max then At(Truncated(raw)) else Never)
    ensures Left(period, anchor, t) == Fire(period, anchor, q + 1) - t
  {
    q := Periods(t - anchor, period);
    Quotient(t - anchor, period);
    FireIsProduct(period, anchor, q);
    SlotIsExact(cal, period, anchor, t, q);
    SlotIsExact(cal, period, anchor, t, q + 1);
  }

  /** What is left of the period an instant falls into. */
  function Left(period: Duration, anchor: int, t: int): int
    requires period > 0
  {
    period - (t - anchor) % period
  }

  /** The next fire lies strictly after the instant unless less than a microsecond is left of the
      period, and then it is the instant itself. */
  lemma StrictUnlessWithinResolution(cal: Calendar, period: Duration, anchor: int, after: int)
    requires cal.Valid() && cal.Holds(anchor) && cal.Holds(after) && period >= RESOLUTION
    requires EveryNextFire(cal, period, anchor, after).value.At?
    ensures var next := EveryNextFire(cal, period, anchor, after).value.at;
            && (next > after <==> after < anchor || Left(period, anchor, after) >= RESOLUTION)
            && (next <= after <==> next == after)
  {
    if anchor <= after {
      var q := FiresAround(cal, period, anchor, after);
      CutAbove(after, Fire(period, anchor, q + 1) - after);
    }
  }

  lemma CutAbove(t: int, d: nat)
    requires t % RESOLUTION == 0
    ensures Truncated(t + d) > t <==> d >= RESOLUTION
    ensures Truncated(t + d) >= t
  {
    assert (t + d) % RESOLUTION == d % RESOLUTION;
  }

  /** A period of 1500 nanoseconds, asked at one microsecond, answers one microsecond. */
  lemma NextFireCanReturnItsArgument(cal: Calendar)
    requires cal.Valid() && cal.max >= 2000
    ensures EveryNextFire(cal, 1500, 0, 1000) == Ok(At(1000))
  {
    var q := FiresAround(cal, 1500, 0, 1000);
    assert q == 0;
  }

  /** Two instants are in one slot exactly when the same number of periods has passed: also when the
      period is not a whole number of microseconds, no two slots share a name. */
  lemma SameSlotIffSamePeriods(cal: Calendar, period: Duration, anchor: int, a: int, b: int)
    requires cal.Valid() && cal.Holds(anchor) && cal.Holds(a) && cal.Holds(b) && period >= RESOLUTION
    requires anchor <= a <= b
    ensures EveryPreviousFire(cal, period, anchor, a) == EveryPreviousFire(cal, period, anchor, b)
            <==> Periods(a - anchor, period) == Periods(b - anchor, period)
  {
    var m := FiresAround(cal, period, anchor, a);
    var n := FiresAround(cal, period, anchor, b);
    if m < n {
      FiresRise(period, anchor, m + 1, n);
      CutApart(Fire(period, anchor, m), Fire(period, anchor, n));
    } else if n < m {
      FiresRise(period, anchor, n + 1, m);
    }
  }

  lemma CutApart(s: int, t: int)
    requires s + RESOLUTION <= t
    ensures Truncated(s) < Truncated(t)
  {
  }

  // ---- Periods of whole microseconds ----

  lemma {:induction false} FireIsWhole(period: Duration, anchor: int, n: nat)
    requires period % RESOLUTION == 0 && anchor % RESOLUTION == 0
    ensures Truncated(Fire(period, anchor, n)) == Fire(period, anchor, n)
  {
    if n > 0 {
      FireIsWhole(period, anchor, n - 1);
    }
  }

  /** The next fire is the least fire strictly after the instant; there is none exactly when the calendar
      ends first. */
  lemma NextIsLeastAfter(cal: Calendar, schedule: Schedule, beat: Duration, period: Duration, anchor: int, after: int)
    requires cal.Valid() && cal.Holds(after) && Means(cal, schedule, beat, period, anchor) && period % RESOLUTION == 0
    ensures var r := Next(cal, schedule, after, beat);
            && r.Ok?
            && (r.value.At? ==>
                  && IsFire(period, anchor, r.value.at) && after < r.value.at <= cal.max
                  && forall t :: IsFire(period, anchor, t) && after < t ==> r.value.at <= t)
            && (r.value.Never? ==> forall t :: IsFire(period, anchor, t) && after < t ==> cal.max < t)
  {
    if after < anchor {
      assert anchor == Fire(period, anchor, 0);
      forall t | IsFire(period, anchor, t) ensures anchor <= t {
        var n :| t == Fire(period, anchor, n);
        FiresRise(period, anchor, 0, n);
      }
    } else {
      var q := FiresAround(cal, period, anchor, after);
      FireIsWhole(period, anchor, q + 1);
      forall t | IsFire(period, anchor, t) && after < t ensures Fire(period, anchor, q + 1) <= t {
        FiresApart(period, anchor, q, t);
      }
    }
  }

  /** The previous fire is the greatest fire at or before the instant; there is none exactly before the
      anchor. */
  lemma PreviousIsGreatest(cal: Calendar, schedule: Schedule, beat: Duration, period: Duration, anchor: int,
                           before: int)
    requires cal.Valid() && cal.Holds(before) && Means(cal, schedule, beat, period, anchor) && period % RESOLUTION == 0
    ensures var r := Previous(cal, schedule, before, beat);
            && r.Ok?
            && (r.value.At? ==>
                  && IsFire(period, anchor, r.value.at) && r.value.at <= before
                  && forall t :: IsFire(period, anchor, t) && t <= before ==> t <= r.value.at)
            && (r.value.Never? ==> forall t :: IsFire(period, anchor, t) ==> before < t)
  {
    if before < anchor {
      forall t | IsFire(period, anchor, t) ensures anchor <= t {
        var n :| t == Fire(period, anchor, n);
        FiresRise(period, anchor, 0, n);
      }
    } else {
      var q := FiresAround(cal, period, anchor, before);
      FireIsWhole(period, anchor, q);
      forall t | IsFire(period, anchor, t) && t <= before ensures t <= Fire(period, anchor, q) {
        FiresApart(period, anchor, q, t);
      }
    }
  }

  /** Two pods that ask at different instants name one slot exactly when no fire lies between them. */
  lemma OneSlotIffNoFireBetween(cal: Calendar, schedule: Schedule, beat: Duration, period: Duration, anchor: int,
                                a: int, b: int)
    requires cal.Valid() && cal.Holds(a) && cal.Holds(b) && a <= b
    requires Means(cal, schedule, beat, period, anchor) && period % RESOLUTION == 0
    ensures Previous(cal, schedule, a, beat) == Previous(cal, schedule, b, beat)
            <==> forall t :: IsFire(period, anchor, t) ==> !(a < t <= b)
  {
    PreviousIsGreatest(cal, schedule, beat, period, anchor, a);
    PreviousIsGreatest(cal, schedule, beat, period, anchor, b);
  }

  /** From the anchor on, the two fires around an instant are one period apart, and the next fire is its
      own slot. */
  lemma FiresAreOnePeriodApart(cal: Calendar, schedule: Schedule, beat: Duration, period: Duration, anchor: int, t: int)
    requires cal.Valid() && cal.Holds(t) && anchor <= t
    requires Means(cal, schedule, beat, period, anchor) && period % RESOLUTION == 0
    requires Next(cal, schedule, t, beat).Ok? && Next(cal, schedule, t, beat).value.At?
    ensures var next := Next(cal, schedule, t, beat).value.at;
            && Previous(cal, schedule, t, beat) == Ok(At(next - period))
            && Previous(cal, schedule, next, beat) == Ok(At(next))
  {
    IsInterval(cal, schedule, beat, period, anchor, t);
    var q := FiresAround(cal, period, anchor, t);
    FireIsWhole(period, anchor, q);
    FireIsWhole(period, anchor, q + 1);
    OwnSlot(cal, schedule, beat, period, anchor, q + 1);
  }

  lemma OwnSlot(cal: Calendar, schedule: Schedule, beat: Duration, period: Duration, anchor: int, n: nat)
    requires cal.Valid() && cal.Holds(Fire(period, anchor, n))
    requires Means(cal, schedule, beat, period, anchor) && period % RESOLUTION == 0
    ensures Previous(cal, schedule, Fire(period, anchor, n), beat) == Ok(At(Fire(period, anchor, n)))
  {
    var t := Fire(period, anchor, n);
    PreviousIsGreatest(cal, schedule, beat, period, anchor, t);
    assert IsFire(period, anchor, t);
  }

  lemma IsInterval(cal: Calendar, schedule: Schedule, beat: Duration, period: Duration, anchor: int, t: int)
    requires Means(cal, schedule, beat, period, anchor)
    ensures Next(cal, schedule, t, beat) == EveryNextFire(cal, period, anchor, t)
    ensures Previous(cal, schedule, t, beat) == EveryPreviousFire(cal, period, anchor, t)
  {
  }

  /** A schedule is refused exactly when its period is missing, overflows, or is below a microsecond. */
  lemma RefusedExactly(cal: Calendar, schedule: Schedule, beat: Duration, t: int)
    requires schedule.Every? ==> cal.Holds(schedule.anchor)
    requires cal.Valid()
    ensures Next(cal, schedule, t, beat).Err? <==> Previous(cal, schedule, t, beat).Err?
    ensures Next(cal, schedule, t, beat).Ok? <==>
            exists period: Duration, anchor :: Means(cal, schedule, beat, period, anchor)
  {
    if Next(cal, schedule, t, beat).Ok? {
      match schedule
      case Every(p, a) => assert Means(cal, schedule, beat, p, a);
      case EveryBeats(beats) =>
        var p: Duration := beats * beat;
        assert Means(cal, schedule, beat, p, 0);
    }
  }
}
