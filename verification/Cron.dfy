/**
 The enabled-period test of cronutil. A schedule is known only through `Next`, which searches a
 bounded horizon: it gives the least trigger later than a time, or none if there is none within
 the horizon. Times are in any one unit.
 */
module Cron {
  import opened Options

  /** `day` is the 24 hours the lookback adds; `horizon` is how far `Next` searches. */
  datatype Clock = Clock(day: nat, horizon: nat)

  type Schedule = int -> Option<int>

  /** `next` is a search of the trigger set `at` as far as the horizon. */
  ghost predicate Searches(c: Clock, at: int -> bool, next: Schedule) {
    forall t :: Answers(c, at, t, next(t))
  }

  ghost predicate Answers(c: Clock, at: int -> bool, t: int, answer: Option<int>) {
    match answer
    case Some(u) => t < u && at(u) && (forall v :: t < v < u ==> !at(v))
    case None => forall v :: t < v <= t + c.horizon ==> !at(v)
  }

  /** `next` gives up only where no trigger follows. */
  ghost predicate Complete(at: int -> bool, next: Schedule) {
    forall t, v :: next(t).None? && t < v ==> !at(v)
  }

  /** The window is open: some trigger is at most `now` and less than `duration` ago. */
  ghost predicate Enabled(at: int -> bool, duration: nat, now: int) {
    exists t :: at(t) && t <= now < t + duration
  }

  /** The last of the triggers `next` steps through after `from` and up to `now`, else `last`. */
  function Walk(next: Schedule, from: int, now: int, last: Option<int>): Option<int>
    decreases if from < now then now - from else 0
  {
    var trigger := next(from);
    if trigger.Some? && from < trigger.value <= now then Walk(next, trigger.value, now, trigger) else last
  }

  function InEnabledPeriod(c: Clock, next: Schedule, duration: nat, now: int): bool {
    var last := Walk(next, now - (duration + c.day), now, None);
    last.Some? && now < last.value + duration
  }

  /** The latest trigger in (now - lookback, now], found by stepping forward from the far end. */
  method FindLastTriggerTime(c: Clock, ghost at: int -> bool, next: Schedule, now: int, lookback: nat)
    returns (last: Option<int>)
    requires Searches(c, at, next)
    ensures last == Walk(next, now - lookback, now, None)
    ensures last.Some? ==> at(last.value) && now - lookback < last.value <= now
    ensures lookback <= c.horizon || Complete(at, next) ==>
              forall v :: now - lookback < v <= now && at(v) ==> last.Some? && v <= last.value
  {
    last := None;
    var trigger := next(now - lookback);
    ghost var from := now - lookback;
    while trigger.Some? && trigger.value <= now
      invariant now - lookback <= from <= now && trigger == next(from)
      invariant Walk(next, from, now, last) == Walk(next, now - lookback, now, None)
      invariant from == now - lookback || (last == Some(from) && at(from))
      invariant from == now - lookback ==> last.None?
      invariant forall v :: now - lookback < v <= from && at(v) ==> last.Some? && v <= last.value
      decreases if trigger.Some? then now - trigger.value + 1 else 0
    {
      last := trigger;
      from := trigger.value;
      trigger := next(trigger.value);
    }
  }

  method IsInEnabledPeriodAt(c: Clock, ghost at: int -> bool, next: Schedule, duration: nat, now: int)
    returns (enabled: bool)
    requires Searches(c, at, next)
    ensures enabled == InEnabledPeriod(c, next, duration, now)
    ensures enabled ==> Enabled(at, duration, now)
    ensures duration + c.day <= c.horizon || Complete(at, next) ==> (enabled <==> Enabled(at, duration, now))
  {
    var last := FindLastTriggerTime(c, at, next, now, duration + c.day);
    if last.None? {
      return false;
    }
    return now < last.value + duration;
  }

  lemma {:induction false} WalkFindsLast(c: Clock, at: int -> bool, next: Schedule, from: int, now: int, last: Option<int>)
    requires Searches(c, at, next) && from <= now && (now <= from + c.horizon || Complete(at, next))
    ensures var r := Walk(next, from, now, last);
            if exists v :: from < v <= now && at(v)
            then r.Some? && at(r.value) && from < r.value <= now && (forall v :: r.value < v <= now ==> !at(v))
            else r == last
    decreases now - from
  {
    var trigger := next(from);
    if trigger.None? || trigger.value > now {
    } else {
      WalkFindsLast(c, at, next, trigger.value, now, trigger);
    }
  }

  /** The answers are right for this duration, whenever they are asked for. */
  ghost predicate Exact(c: Clock, at: int -> bool, next: Schedule, duration: nat) {
    forall now :: InEnabledPeriod(c, next, duration, now) <==> Enabled(at, duration, now)
  }

  lemma SearchIsExact(c: Clock, at: int -> bool, next: Schedule, duration: nat)
    requires Searches(c, at, next) && (duration + c.day <= c.horizon || Complete(at, next))
    ensures Exact(c, at, next, duration)
  {
    forall now ensures InEnabledPeriod(c, next, duration, now) <==> Enabled(at, duration, now) {
      WalkFindsLast(c, at, next, now - (duration + c.day), now, None);
    }
  }

  // ----- exactly for which schedules

  /** If the search gives up before trigger `v`, the window `v` opens is missed as it opens. */
  lemma Missed(c: Clock, at: int -> bool, next: Schedule, t: int, v: int)
    requires next(t).None? && at(v) && t + c.day < v
    ensures var duration: nat := v - t - c.day;
            Enabled(at, duration, v) && !InEnabledPeriod(c, next, duration, v)
  {
    assert v - ((v - t - c.day) + c.day) == t;
  }

  /** A schedule is answered right for every duration if and only if the search gives up only where
      no trigger follows. */
  lemma ScheduleExactIff(c: Clock, at: int -> bool, next: Schedule)
    requires Searches(c, at, next) && c.day <= c.horizon
    ensures (forall duration: nat | duration > 0 :: Exact(c, at, next, duration)) <==> Complete(at, next)
  {
    if Complete(at, next) {
      forall duration: nat ensures Exact(c, at, next, duration) {
        SearchIsExact(c, at, next, duration);
      }
    } else {
      var t, v :| next(t).None? && t < v && at(v);
      assert t + c.horizon < v;
      Missed(c, at, next, t, v);
      var duration: nat := v - t - c.day;
      assert !Exact(c, at, next, duration);
    }
  }

  /** A trigger follows `t` within the horizon. */
  ghost predicate Follows(c: Clock, at: int -> bool, t: int) {
    exists v :: t < v <= t + c.horizon && at(v)
  }

  /** In particular every schedule that is never quiet for a whole horizon. */
  lemma FrequentIsExact(c: Clock, at: int -> bool, next: Schedule, duration: nat)
    requires Searches(c, at, next) && forall t :: Follows(c, at, t)
    ensures Exact(c, at, next, duration)
  {
    forall t ensures next(t).Some? {
      assert Follows(c, at, t);
      assert Answers(c, at, t, next(t));
    }
    SearchIsExact(c, at, next, duration);
  }

  // ----- exactly for which durations

  /** The first trigger from `low` to `high`, both included. */
  function First(at: int -> bool, low: int, high: int): (r: Option<int>)
    ensures r.Some? ==> low <= r.value <= high && at(r.value) && forall v :: low <= v < r.value ==> !at(v)
    ensures r.None? ==> forall v :: low <= v <= high ==> !at(v)
    decreases high - low
  {
    if low > high then None else if at(low) then Some(low) else First(at, low + 1, high)
  }

  /** The search of `at` that gives up at the horizon. */
  function Within(c: Clock, at: int -> bool): Schedule {
    t => First(at, t + 1, t + c.horizon)
  }

  lemma WithinSearches(c: Clock, at: int -> bool)
    ensures Searches(c, at, Within(c, at))
  {
    forall t ensures Answers(c, at, t, Within(c, at)(t)) {
      assert Within(c, at)(t) == First(at, t + 1, t + c.horizon);
    }
  }

  lemma NothingWithin(c: Clock, at: int -> bool, t: int)
    requires forall v :: t < v <= t + c.horizon ==> !at(v)
    ensures Within(c, at)(t).None?
  {
    assert Within(c, at)(t) == First(at, t + 1, t + c.horizon);
  }

  /** A five-field expression has no year: the calendar, and so its triggers, repeat. */
  ghost predicate Recurs(at: int -> bool, period: nat) {
    period > 0 && forall t :: at(t) <==> at(t + period)
  }

  /** The answer is right for every schedule, and for every recurring one, exactly when the lookback
      fits the search horizon. */
  lemma ExactIff(c: Clock, duration: nat)
    requires duration > 0
    ensures duration + c.day <= c.horizon <==>
            forall at, next | Searches(c, at, next) :: Exact(c, at, next, duration)
    ensures duration + c.day <= c.horizon <==>
            forall at, next, period | Searches(c, at, next) && Recurs(at, period) :: Exact(c, at, next, duration)
  {
    if duration + c.day <= c.horizon {
      forall at, next | Searches(c, at, next) ensures Exact(c, at, next, duration) {
        SearchIsExact(c, at, next, duration);
      }
    } else {
      var period := duration + c.day + 1;
      var at := (t: int) => Multiple(t, period);
      Multiples(period);
      WithinSearches(c, at);
      var next := Within(c, at);
      NothingWithin(c, at, 1 - period);
      Missed(c, at, next, 1 - period, 0);
      assert !Exact(c, at, next, duration);
    }
  }

  ghost predicate Multiple(t: int, period: nat) { exists k: int :: t == k * period }

  lemma Multiples(period: nat)
    requires period > 0
    ensures Recurs(t => Multiple(t, period), period) && Multiple(0, period)
    ensures forall v :: 0 - period < v < 0 ==> !Multiple(v, period)
  {
    assert 0 == 0 * period;
    forall t ensures Multiple(t, period) <==> Multiple(t + period, period) {
      if Multiple(t, period) {
        var k: int :| t == k * period;
        assert t + period == (k + 1) * period;
      }
      if Multiple(t + period, period) {
        var k: int :| t + period == k * period;
        assert t == (k - 1) * period;
      }
    }
    forall v | Multiple(v, period) ensures v >= 0 || v <= 0 - period {
      var k: int :| v == k * period;
      if k >= 0 {
        assert k * period >= 0;
      } else {
        assert (0 - k - 1) * period >= 0;
      }
    }
  }

  // ----- an expression that is missed: midnight of 29 February

  predicate Leap(year: int) { year % 4 == 0 && (year % 100 != 0 || year % 400 == 0) }

  /** 29 February of a leap year, in days from the beginning of year 0. */
  function LeapDay(year: int): int {
    365 * year + (year + 3) / 4 - (year + 99) / 100 + (year + 399) / 400 + 59
  }

  ghost predicate LeapDays(day: int) { exists year :: Leap(year) && day == LeapDay(year) }

  lemma Fours(year: int)
    ensures (year + 4) / 4 == (year + 3) / 4 + if year % 4 == 0 then 1 else 0
  {
  }

  lemma Hundreds(year: int)
    ensures (year + 100) / 100 == (year + 99) / 100 + if year % 100 == 0 then 1 else 0
  {
  }

  lemma FourHundreds(year: int)
    ensures (year + 400) / 400 == (year + 399) / 400 + if year % 400 == 0 then 1 else 0
  {
  }

  lemma Divides(year: int)
    ensures (year % 100 == 0 ==> year % 4 == 0) && (year % 400 == 0 ==> year % 100 == 0)
  {
  }

  /** From one 29 February, or the day it would be, to the next year's a leap year has one day more. */
  lemma YearLength(year: int)
    ensures LeapDay(year + 1) - LeapDay(year) == if Leap(year) then 366 else 365
  {
    Fours(year);
    Hundreds(year);
    FourHundreds(year);
    Divides(year);
  }

  lemma LeapDayGrows(year: int, later: int)
    requires year < later
    ensures LeapDay(year) < LeapDay(later)
  {
  }

  lemma LeapRepeats(year: int)
    ensures Leap(year + 400) == Leap(year)
  {
  }

  lemma LeapDayRepeats(year: int)
    ensures LeapDay(year + 400) == LeapDay(year) + 146097
  {
    var y := year + 400;
    assert (y + 3) / 4 == (year + 3) / 4 + 100;
    assert (y + 99) / 100 == (year + 99) / 100 + 4;
    assert (y + 399) / 400 == (year + 399) / 400 + 1;
  }

  /** The triggers of "0 0 29 2 *" recur with the calendar, every 400 years. */
  lemma LeapDaysRecur()
    ensures Recurs(LeapDays, 146097)
  {
    forall t ensures LeapDays(t) <==> LeapDays(t + 146097) {
      if LeapDays(t) {
        var year :| Leap(year) && t == LeapDay(year);
        LeapRepeats(year);
        LeapDayRepeats(year);
      }
      if LeapDays(t + 146097) {
        var year :| Leap(year) && t + 146097 == LeapDay(year);
        LeapRepeats(year - 400);
        LeapDayRepeats(year - 400);
      }
    }
  }

  /** 2100 is no leap year, so 2921 days pass between the leap days of 2096 and 2104. */
  lemma LeapGap(t: int)
    requires LeapDay(2104) - 2921 < t < LeapDay(2104)
    ensures !LeapDays(t)
  {
    forall year | Leap(year) ensures LeapDay(year) != t {
      if year < 2096 {
        LeapDayGrows(year, 2096);
      } else if year > 2104 {
        LeapDayGrows(2104, year);
      }
    }
  }

  /** With any horizon of up to eight years less a day, counted in days, a window as long as the
      horizon that opens on that day of 2104 is missed. */
  lemma LeapDayMissed(horizon: nat)
    requires 1 <= horizon < 2921
    ensures var c, now := Clock(1, horizon), LeapDay(2104);
            && Searches(c, LeapDays, Within(c, LeapDays)) && Recurs(LeapDays, 146097)
            && Enabled(LeapDays, horizon, now) && !InEnabledPeriod(c, Within(c, LeapDays), horizon, now)
  {
    var c, now := Clock(1, horizon), LeapDay(2104);
    WithinSearches(c, LeapDays);
    LeapDaysRecur();
    assert Leap(2104) && LeapDays(now);
    forall t | now - horizon - 1 < t < now ensures !LeapDays(t) {
      LeapGap(t);
    }
    NothingWithin(c, LeapDays, now - horizon - 1);
    Missed(c, LeapDays, Within(c, LeapDays), now - horizon - 1, now);
  }
}
