/** The next occurrence of a schedule, whichever way it repeats. */
module ScheduleNext {
  import opened Basics
  import opened Calendar
  import opened Schedules
  import opened ScheduleDays
  import opened ScheduleMonths
  import Cron

  datatype Schedule = Schedule(expression: string, repeatEvery: int, repeatUnit: string, anchor: int)

  /** Go's zero time, the start of year 1. */
  const ZERO_TIME := 366 * DAY

  predicate ValidRepeat(s: Schedule) {
    s.expression == "" && 1 <= s.repeatEvery <= 1000 && s.anchor != ZERO_TIME
  }

  /** Past year 9999. */
  function Late(offset: int -> int): int -> bool {
    t => MonthAt(Local(offset, t)) >= 12 * 10000
  }

  /** An occurrence is answered unless it is too late. */
  function Answer(late: int -> bool, t: int): Option<int> {
    if late(t) then None else Some(t)
  }

  function SearchAnswer(occurrence: int -> int, late: int -> bool, start: int, after: int): Option<int> {
    var found := FirstFrom(occurrence, start, after, 4);
    if found.None? then None else Answer(late, occurrence(found.value))
  }

  /** The answer is some occurrence after the instant. */
  ghost predicate AnswersSome(occurrence: int -> int, late: int -> bool, after: int, next: Option<int>) {
    exists n :: n >= 1 && occurrence(n) > after && next == Answer(late, occurrence(n))
  }

  /** The answer is the first occurrence after the instant. */
  ghost predicate AnswersFirst(occurrence: int -> int, late: int -> bool, after: int, next: Option<int>) {
    exists n :: First(occurrence, after, n) && next == Answer(late, occurrence(n))
  }

  /** The answer is the least occurrence after the instant. */
  ghost predicate AnswersLeast(occurrence: int -> int, late: int -> bool, after: int, next: Option<int>) {
    exists n :: Least(occurrence, after, n) && next == Answer(late, occurrence(n))
  }

  lemma {:induction false} SomeAnswer(occurrence: int -> int, late: int -> bool, start: int, after: int)
    requires start >= 1 && FirstFrom(occurrence, start, after, 4).Some?
    ensures AnswersSome(occurrence, late, after, SearchAnswer(occurrence, late, start, after))
  {
    var n := FoundWhere(occurrence, start, after, 4);
  }

  lemma {:induction false} FirstAnswer(occurrence: int -> int, late: int -> bool, start: int, after: int)
    requires var found := FirstFrom(occurrence, start, after, 4); found.Some? && First(occurrence, after, found.value)
    ensures AnswersFirst(occurrence, late, after, SearchAnswer(occurrence, late, start, after))
  {
  }

  lemma {:induction false} LeastAnswer(occurrence: int -> int, late: int -> bool, start: int, after: int)
    requires var found := FirstFrom(occurrence, start, after, 4); found.Some? && Least(occurrence, after, found.value)
    ensures AnswersLeast(occurrence, late, after, SearchAnswer(occurrence, late, start, after))
  {
  }

  /** Minutes and hours: the first occurrence, exactly if its distance from the anchor fits 64 bits. */
  ghost predicate IntervalAnswered(anchor: int, after: int, interval: int, next: Option<int>) {
    forall n :: FirstInterval(anchor, after, interval, n) ==>
      (next == Some(anchor + n * interval) <==> n * interval <= MAX_INT64)
  }

  /**
   * Days and weeks, within 292 years of the anchor: an occurrence after the instant, and the first one if the one before
   * the search is not after it, as in every zone that never falls a day behind the anchor's offset. In a zone whose
   * offsets stay at most a day apart: then the least one, and nothing if the fourth try is not after the instant.
   */
  ghost predicate DaysAnswered(offset: int -> int, quotient: int -> int, anchor: int, after: int, days: int, late: int -> bool, next: Option<int>)
    requires days >= 1
  {
    var occurrence, start := Days(offset, anchor, days), DayCount(quotient, anchor, after, days);
    var guard := start == 1 || occurrence(start - 1) <= after;
    && (after - anchor <= MAX_INT64 ==> occurrence(start + 3) > after && AnswersSome(occurrence, late, after, next))
    && (after - anchor <= MAX_INT64 && guard ==> AnswersFirst(occurrence, late, after, next))
    && (NeverFarBehind(offset, anchor) ==> guard)
    && (Narrow(offset) && occurrence(start + 3) > after && guard ==> AnswersLeast(occurrence, late, after, next))
    && (Narrow(offset) && occurrence(start + 3) <= after ==> next.None?)
  }

  /**
   * Months: an occurrence after the instant; the first one if the one before the search is not after it; the least one
   * if, besides, the clock shows every first and last day of the months at the anchor's time.
   */
  ghost predicate MonthsAnswered(offset: int -> int, anchor: Date, after: int, now: int, step: int, late: int -> bool, next: Option<int>)
    requires step >= 1
  {
    var occurrence, start := Months(offset, anchor, step), MonthCount(anchor.month, now, step);
    && AnswersSome(occurrence, late, after, next)
    && (start == 1 || occurrence(start - 1) <= after ==>
          && AnswersFirst(occurrence, late, after, next)
          && (AllShown(offset, anchor, step) ==> AnswersLeast(occurrence, late, after, next)))
  }

  lemma {:induction false} DaysAnswer(offset: int -> int, quotient: int -> int, anchor: int, after: int, days: int, late: int -> bool)
    requires IsZone(offset) && Rounds(quotient) && days >= 1
    ensures var next := SearchAnswer(Days(offset, anchor, days), late, DayCount(quotient, anchor, after, days), after);
      DaysAnswered(offset, quotient, anchor, after, days, late, next)
  {
    var occurrence, start := Days(offset, anchor, days), DayCount(quotient, anchor, after, days);
    DaysExactly(offset, quotient, anchor, after, days);
    if after - anchor <= MAX_INT64 {
      DaysReach(offset, quotient, anchor, after, days);
      SomeAnswer(occurrence, late, start, after);
    }
    if NeverFarBehind(offset, anchor) { StartsNoLater(offset, quotient, anchor, after, days); }
    if after - anchor <= MAX_INT64 && (start == 1 || occurrence(start - 1) <= after) { FirstAnswer(occurrence, late, start, after); }
    if Narrow(offset) {
      DaysFound(offset, quotient, anchor, after, days);
      if occurrence(start + 3) > after && (start == 1 || occurrence(start - 1) <= after) { LeastAnswer(occurrence, late, start, after); }
    }
  }

  /** What the search says of any occurrences near their months. */
  lemma {:induction false} MonthlyAnswer(occurrence: int -> int, month: int, step: int, after: int, now: int, late: int -> bool)
    requires Monthly(occurrence, month, step) && step >= 1 && Around(after, now)
    ensures var start := MonthCount(month, now, step); var next := SearchAnswer(occurrence, late, start, after);
      && AnswersSome(occurrence, late, after, next)
      && (start == 1 || occurrence(start - 1) <= after ==>
            AnswersFirst(occurrence, late, after, next) && (Rising(occurrence) ==> AnswersLeast(occurrence, late, after, next)))
  {
    var start := MonthCount(month, now, step);
    CountBracket(month, now, step);
    MonthlySearch(occurrence, month, step, after, now);
    SomeAnswer(occurrence, late, start, after);
    if start == 1 || occurrence(start - 1) <= after {
      FirstAnswer(occurrence, late, start, after);
      if Rising(occurrence) {
        RisingSearch(occurrence, month, step, after, now);
        LeastAnswer(occurrence, late, start, after);
      }
    }
  }

  lemma {:induction false} MonthsAnswer(offset: int -> int, anchor: Date, after: int, now: int, step: int, late: int -> bool)
    requires IsZone(offset) && ValidDate(anchor) && Around(after, now) && step >= 1
    ensures var next := SearchAnswer(Months(offset, anchor, step), late, MonthCount(anchor.month, now, step), after);
      MonthsAnswered(offset, anchor, after, now, step, late, next)
  {
    MonthsNear(offset, anchor, step);
    MonthlyAnswer(Months(offset, anchor, step), anchor.month, step, after, now, late);
    if AllShown(offset, anchor, step) { MonthsRise(offset, anchor, step); }
  }

  // ----- As the code runs it -----

  method NextOfInterval(anchor: int, after: int, step: int, unit: int) returns (next: Option<int>)
    requires IsInterval(step, unit)
    ensures next.Some? && IntervalAnswered(anchor, after, step * unit, next)
  {
    var interval := step * unit;
    StepBound(step, unit);
    var count := Quo(Sub(after, anchor), interval) + 1;
    if count < 1 { count := 1; }
    next := Some(anchor + Wrap(count * interval));
    forall n | FirstInterval(anchor, after, interval, n)
      ensures next == Some(anchor + n * interval) <==> n * interval <= MAX_INT64
    {
      IntervalExactly(anchor, after, step, unit, n);
    }
  }

  method NextOfSearch(occurrence: int -> int, late: int -> bool, start: int, after: int) returns (next: Option<int>)
    ensures next == SearchAnswer(occurrence, late, start, after)
  {
    var n := FirstOfFour(occurrence, start, after);
    if n.None? || late(occurrence(n.value)) { return None; }
    return Some(occurrence(n.value));
  }

  method NextOfDays(offset: int -> int, quotient: int -> int, anchor: int, after: int, days: int, late: int -> bool)
      returns (next: Option<int>)
    requires IsZone(offset) && Rounds(quotient) && days >= 1
    ensures DaysAnswered(offset, quotient, anchor, after, days, late, next)
  {
    var count := Quo(quotient(Sub(after, anchor)), days);
    if count < 1 { count := 1; }
    assert count == DayCount(quotient, anchor, after, days);
    next := NextOfSearch(Days(offset, anchor, days), late, count, after);
    DaysAnswer(offset, quotient, anchor, after, days, late);
  }

  method NextOfMonths(offset: int -> int, anchor: Date, after: int, now: int, step: int, late: int -> bool)
      returns (next: Option<int>)
    requires IsZone(offset) && ValidDate(anchor) && Around(after, now) && step >= 1
    ensures MonthsAnswered(offset, anchor, after, now, step, late, next)
  {
    var count := Quo(now - anchor.month, step);
    if count < 1 { count := 1; }
    assert count == MonthCount(anchor.month, now, step);
    next := NextOfSearch(Months(offset, anchor, step), late, count, after);
    MonthsAnswer(offset, anchor, after, now, step, late);
  }

  /** What a schedule's next occurrence is, by the way it repeats. */
  ghost predicate Answered(s: Schedule, offset: int -> int, here: int -> int, quotient: int -> int, after: int, next: Option<int>) {
    if s.repeatUnit == "" then
      if s.repeatEvery == 0 && Cron.ValidExpression(Cron.Words(s.expression)) then
        Cron.IsNextRun(Cron.Words(s.expression), offset, here, after, next)
      else next.None?
    else if !ValidRepeat(s) then next.None?
    else if s.repeatUnit == "minutes" then next.Some? && IntervalAnswered(s.anchor, after, s.repeatEvery * MINUTE, next)
    else if s.repeatUnit == "hours" then next.Some? && IntervalAnswered(s.anchor, after, s.repeatEvery * HOUR, next)
    else if s.repeatUnit == "days" then DaysAnswered(offset, quotient, s.anchor, after, s.repeatEvery, Late(offset), next)
    else if s.repeatUnit == "weeks" then DaysAnswered(offset, quotient, s.anchor, after, s.repeatEvery * 7, Late(offset), next)
    else if s.repeatUnit == "months" then
      MonthsAnswered(offset, DateOf(Local(offset, s.anchor)), after, MonthAt(Local(offset, after)), s.repeatEvery, Late(offset), next)
    else next.None?
  }

  /**
   * `zone` is the schedule's zone, if it can be loaded; `here` the zone in which the instant is given; `quotient` the
   * floating-point day count.
   */
  method NextOccurrence(s: Schedule, zone: Option<int -> int>, here: int -> int, quotient: int -> int, after: int)
      returns (next: Option<int>)
    requires (zone.Some? ==> IsZone(zone.value)) && Rounds(quotient)
    ensures if zone.Some? then Answered(s, zone.value, here, quotient, after, next) else next.None?
  {
    if zone.None? { return None; }
    var offset := zone.value;
    if s.repeatUnit == "" {
      if s.repeatEvery != 0 { return None; }
      next := Cron.NextRun(s.expression, offset, here, after);
      return;
    }
    if s.expression != "" || s.repeatEvery < 1 || s.repeatEvery > 1000 || s.anchor == ZERO_TIME { return None; }
    next := NextRepeat(s, offset, here, quotient, after);
  }

  method NextRepeat(s: Schedule, offset: int -> int, ghost here: int -> int, quotient: int -> int, after: int) returns (next: Option<int>)
    requires IsZone(offset) && Rounds(quotient) && ValidRepeat(s) && s.repeatUnit != ""
    ensures Answered(s, offset, here, quotient, after, next)
  {
    var step := s.repeatEvery;
    if s.repeatUnit == "minutes" {
      next := NextOfInterval(s.anchor, after, step, MINUTE);
    } else if s.repeatUnit == "hours" {
      next := NextOfInterval(s.anchor, after, step, HOUR);
    } else if s.repeatUnit == "days" {
      next := NextOfDays(offset, quotient, s.anchor, after, step, Late(offset));
    } else if s.repeatUnit == "weeks" {
      next := NextOfDays(offset, quotient, s.anchor, after, step * 7, Late(offset));
    } else if s.repeatUnit == "months" {
      AfterNear(offset, after);
      next := NextOfMonths(offset, DateOf(Local(offset, s.anchor)), after, MonthAt(Local(offset, after)), step, Late(offset));
    } else {
      next := None;
    }
  }
}
