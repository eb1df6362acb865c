/** Schedules in days and weeks: the anchor's wall time, a number of days later. */
module ScheduleDays {
  import opened Basics
  import opened Calendar
  import opened Schedules

  function Days(offset: int -> int, anchor: int, days: int): int -> int {
    n => FromLocal(offset, Local(offset, anchor) + n * (days * DAY))
  }

  // ----- How many occurrences have passed -----

  const ROUNDING := 4000

  /**
   * The elapsed days as the code has them from a floating-point quotient: never fewer than have passed, and one more
   * only when it is within a few microseconds of passing.
   */
  ghost predicate Rounds(quotient: int -> int) {
    forall d :: MIN_INT64 <= d <= MAX_INT64 ==>
      if d < 0 then quotient(d) <= 0 else quotient(d) * DAY <= d + ROUNDING && d < (quotient(d) + 1) * DAY
  }

  /** Whole days elapsed, then whole periods. */
  function DayCount(quotient: int -> int, anchor: int, after: int, days: int): int
    requires days > 0
  {
    AtLeastOne(Quo(quotient(Sub(after, anchor)), days))
  }

  lemma {:induction false} Period(days: int)
    requires days >= 1
    ensures days * DAY >= DAY
  {
    Grows(1, days, DAY);
  }

  lemma {:induction false} NestedFloor(q: int, d: int, days: int)
    requires q >= 0 && days > 0 && q * DAY <= d + ROUNDING && d < (q + 1) * DAY
    ensures q / days * (days * DAY) <= d + ROUNDING && d < (q / days + 1) * (days * DAY)
  {
    var c := q / days;
    Division(q, days);
    assert c * (days * DAY) == c * days * DAY && (c + 1) * (days * DAY) == (c + 1) * days * DAY;
    Grows(c * days, q, DAY);
    Grows(q + 1, (c + 1) * days, DAY);
  }

  lemma {:induction false} NonNegative(q: int)
    requires 0 < (q + 1) * DAY
    ensures q >= 0
  {
  }

  /** The search starts within a period of the instant, unless it starts at one or the difference saturates. */
  lemma {:induction false} StartBracket(quotient: int -> int, anchor: int, after: int, days: int)
    requires Rounds(quotient) && days >= 1
    ensures var start := DayCount(quotient, anchor, after, days);
      && start >= 1 && (start > 1 ==> anchor + start * (days * DAY) <= after + ROUNDING)
      && (after - anchor <= MAX_INT64 ==> after < anchor + (start + 1) * (days * DAY))
  {
    var d, start := Sub(after, anchor), DayCount(quotient, anchor, after, days);
    Period(days);
    if d < 0 {
      if quotient(d) < 0 { QuoNegative(quotient(d), days); } else { assert 0 / days == 0; }
      assert (1 + 1) * (days * DAY) > 0;
    } else {
      var q := quotient(d);
      NonNegative(q);
      NestedFloor(q, d, days);
      DivNonnegative(q, days);
      Grows(q / days + 1, start + 1, days * DAY);
    }
  }

  // ----- Occurrences -----

  /** The zone moves an occurrence by the change of its offset since the anchor. */
  lemma {:induction false} DaysShift(offset: int -> int, anchor: int, days: int, n: int) returns (at: int)
    ensures Days(offset, anchor, days)(n) == anchor + n * (days * DAY) + offset(anchor) - offset(at)
  {
    var wall := Local(offset, anchor) + n * (days * DAY);
    at := if offset(wall) == 0 then wall else wall - offset(wall);
  }

  lemma {:induction false} Earlier(n: int, c: int, period: int)
    requires n < c && period > 0
    ensures n * period + period <= c * period
  {
    Grows(n + 1, c, period);
    assert (n + 1) * period == n * period + period;
  }

  /** An occurrence two or more before the start of the search is not after the instant. */
  lemma {:induction false} DaysBefore(offset: int -> int, quotient: int -> int, anchor: int, after: int, days: int, k: int)
    requires IsZone(offset) && Rounds(quotient) && days >= 1 && 1 <= k <= DayCount(quotient, anchor, after, days) - 2
    ensures Days(offset, anchor, days)(k) <= after
  {
    var start, period := DayCount(quotient, anchor, after, days), days * DAY;
    StartBracket(quotient, anchor, after, days);
    Period(days);
    Earlier(k, start - 1, period);
    Earlier(start - 1, start, period);
    var at := DaysShift(offset, anchor, days, k);
  }

  /** The fourth try is after the instant. */
  lemma {:induction false} DaysReach(offset: int -> int, quotient: int -> int, anchor: int, after: int, days: int)
    requires IsZone(offset) && Rounds(quotient) && days >= 1 && after - anchor <= MAX_INT64
    ensures Days(offset, anchor, days)(DayCount(quotient, anchor, after, days) + 3) > after
  {
    var start, period := DayCount(quotient, anchor, after, days), days * DAY;
    StartBracket(quotient, anchor, after, days);
    Period(days);
    assert (start + 3) * period == (start + 1) * period + 2 * period;
    var at := DaysShift(offset, anchor, days, start + 3);
  }

  /**
   * Within 292 years of the anchor the search never gives up; and what it finds, then or later, is the first occurrence
   * after the instant exactly when the one before its start is not after it.
   */
  lemma {:induction false} DaysExactly(offset: int -> int, quotient: int -> int, anchor: int, after: int, days: int)
    requires IsZone(offset) && Rounds(quotient) && days >= 1
    ensures var occurrence, start := Days(offset, anchor, days), DayCount(quotient, anchor, after, days);
      var found := FirstFrom(occurrence, start, after, 4);
      && (after - anchor <= MAX_INT64 ==> found.Some?)
      && (found.Some? ==> (First(occurrence, after, found.value) <==> start == 1 || occurrence(start - 1) <= after))
  {
    var occurrence, start := Days(offset, anchor, days), DayCount(quotient, anchor, after, days);
    forall k | 1 <= k <= start - 2 ensures occurrence(k) <= after {
      DaysBefore(offset, quotient, anchor, after, days, k);
    }
    if after - anchor <= MAX_INT64 {
      DaysReach(offset, quotient, anchor, after, days);
      SearchExactly(occurrence, after, start, start + 3);
    } else if FirstFrom(occurrence, start, after, 4).Some? {
      var reached := FoundWhere(occurrence, start, after, 4);
      SearchExactly(occurrence, after, start, reached);
    }
  }

  lemma {:induction false} FoundWhere(candidate: int -> int, start: int, after: int, tries: nat) returns (n: int)
    requires FirstFrom(candidate, start, after, tries).Some?
    ensures FirstFrom(candidate, start, after, tries) == Some(n) && start <= n < start + tries && candidate(n) > after
    decreases tries
  {
    if candidate(start) > after { n := start; } else { n := FoundWhere(candidate, start + 1, after, tries - 1); }
  }

  /** Any two offsets of the zone are at most a day apart. */
  ghost predicate Narrow(offset: int -> int) {
    forall s, t :: offset(s) - offset(t) <= DAY
  }

  lemma {:induction false} DaysIncrease(offset: int -> int, anchor: int, days: int, j: int, k: int)
    requires Narrow(offset) && days >= 1 && j < k
    ensures Days(offset, anchor, days)(j) <= Days(offset, anchor, days)(k)
  {
    Period(days);
    Earlier(j, k, days * DAY);
    var s := DaysShift(offset, anchor, days, j);
    var t := DaysShift(offset, anchor, days, k);
    assert offset(t) - offset(s) <= DAY;
  }

  /**
   * In a zone whose offsets stay at most a day apart the search gives up exactly when its fourth try is not after the
   * instant, and what it finds is the least occurrence exactly when the one before its start is not after the instant.
   */
  lemma {:induction false} DaysFound(offset: int -> int, quotient: int -> int, anchor: int, after: int, days: int)
    requires IsZone(offset) && Narrow(offset) && Rounds(quotient) && days >= 1
    ensures var occurrence, start := Days(offset, anchor, days), DayCount(quotient, anchor, after, days);
      var found := FirstFrom(occurrence, start, after, 4);
      && (found.Some? <==> occurrence(start + 3) > after)
      && (found.Some? ==> (Least(occurrence, after, found.value) <==> start == 1 || occurrence(start - 1) <= after))
  {
    var occurrence, start := Days(offset, anchor, days), DayCount(quotient, anchor, after, days);
    DaysExactly(offset, quotient, anchor, after, days);
    forall j, k | j < k ensures occurrence(j) <= occurrence(k) { DaysIncrease(offset, anchor, days, j, k); }
    if occurrence(start + 3) > after {
      FindsSome(occurrence, start, after, 4, start + 3);
      if start == 1 || occurrence(start - 1) <= after {
        FirstIsLeast(occurrence, after, FirstFrom(occurrence, start, after, 4).value);
      }
    } else {
      forall k | start <= k < start + 4 ensures occurrence(k) <= after {
        if k < start + 3 { assert occurrence(k) <= occurrence(start + 3); }
      }
      FoundNone(occurrence, start, after, 4);
    }
  }

  /** No offset of the zone is a day or more behind the anchor's. */
  ghost predicate NeverFarBehind(offset: int -> int, anchor: int) {
    forall t :: offset(anchor) - offset(t) <= DAY - SECOND
  }

  /** Then the occurrence before the search is never after the instant. */
  lemma {:induction false} StartsNoLater(offset: int -> int, quotient: int -> int, anchor: int, after: int, days: int)
    requires NeverFarBehind(offset, anchor) && Rounds(quotient) && days >= 1
    ensures var start := DayCount(quotient, anchor, after, days); start == 1 || Days(offset, anchor, days)(start - 1) <= after
  {
    var start, period := DayCount(quotient, anchor, after, days), days * DAY;
    StartBracket(quotient, anchor, after, days);
    Period(days);
    Earlier(start - 1, start, period);
    var at := DaysShift(offset, anchor, days, start - 1);
    assert offset(anchor) - offset(at) <= DAY - SECOND;
  }

  /** Beyond 292 years it starts too early, and from three periods and two days past that bound on it gives up. */
  lemma {:induction false} DaysGivesUp(offset: int -> int, quotient: int -> int, anchor: int, after: int, days: int)
    requires IsZone(offset) && Rounds(quotient) && 1 <= days <= 7000
    requires after - anchor >= MAX_INT64 + 3 * (days * DAY) + 2 * DAY
    ensures FirstFrom(Days(offset, anchor, days), DayCount(quotient, anchor, after, days), after, 4) == None
  {
    var c := DayCount(quotient, anchor, after, days);
    SaturatedStart(quotient, anchor, after, days);
    forall k | c <= k < c + 4 ensures Days(offset, anchor, days)(k) <= after {
      StillBefore(offset, anchor, after, days, c, k);
    }
    FoundNone(Days(offset, anchor, days), c, after, 4);
  }

  lemma {:induction false} SaturatedStart(quotient: int -> int, anchor: int, after: int, days: int)
    requires Rounds(quotient) && 1 <= days <= 7000 && after - anchor > MAX_INT64
    ensures DayCount(quotient, anchor, after, days) * (days * DAY) <= MAX_INT64 + ROUNDING
  {
    var q := quotient(MAX_INT64);
    NonNegative(q);
    NestedFloor(q, MAX_INT64, days);
    SmallPeriod(days);
  }

  lemma {:induction false} StillBefore(offset: int -> int, anchor: int, after: int, days: int, c: int, k: int)
    requires IsZone(offset) && days >= 1 && k < c + 4 && c * (days * DAY) <= MAX_INT64 + ROUNDING
    requires after - anchor >= MAX_INT64 + 3 * (days * DAY) + 2 * DAY
    ensures Days(offset, anchor, days)(k) <= after
  {
    var period := days * DAY;
    var at := DaysShift(offset, anchor, days, k);
    Period(days);
    Grows(k, c + 3, period);
    assert (c + 3) * period == c * period + 3 * period;
  }

  lemma {:induction false} SmallPeriod(days: int)
    requires 1 <= days <= 7000
    ensures 1 * (days * DAY) <= MAX_INT64
  {
    Grows(days, 7000, DAY);
  }
}
