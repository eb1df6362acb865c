/** Zones in which schedules do not do what they promise: daily ones anywhere, monthly ones in any leap year. */
module ScheduleZones {
  import opened Basics
  import opened Calendar
  import opened Schedules
  import opened ScheduleDays
  import opened ScheduleMonths

  const HALF_HOUR := 30 * MINUTE
  const LATE := 23 * HOUR + HALF_HOUR

  // ----- A clock set back by a day or more -----

  /** Twelve hours ahead, and from a day past the anchor on a day or more less than that. */
  function DayBack(anchor: int, gap: int): int -> int {
    t => if t < anchor + DAY then 12 * HOUR else 12 * HOUR - gap
  }

  lemma {:induction false} DayBackZone(anchor: int, gap: int)
    requires DAY <= gap < DAY + 11 * HOUR
    ensures IsZone(DayBack(anchor, gap)) && (gap == DAY ==> Narrow(DayBack(anchor, gap)))
  {
  }

  lemma {:induction false} DayBackAt(anchor: int, gap: int, n: int)
    requires DAY <= gap < DAY + 11 * HOUR && n >= 1
    ensures Days(DayBack(anchor, gap), anchor, 1)(n) == anchor + n * DAY + gap
  {
    Grows(1, n, DAY);
    assert n * (1 * DAY) == n * DAY;
  }

  /**
   * Every occurrence comes later than the elapsed days say. The search misses the one before its start whenever the
   * instant is before it: within the gap beyond a day, or where the elapsed days are rounded up.
   */
  lemma {:induction false} DaysMiss(quotient: int -> int, anchor: int, after: int, gap: int)
    requires Rounds(quotient) && DAY <= gap < DAY + 11 * HOUR && 0 <= after - anchor <= MAX_INT64
    requires var passed := quotient(after - anchor); passed >= 2 && after - anchor < (passed - 1) * DAY + gap
    ensures IsZone(DayBack(anchor, gap)) && (gap == DAY ==> Narrow(DayBack(anchor, gap)))
    ensures var occurrence, start := Days(DayBack(anchor, gap), anchor, 1), DayCount(quotient, anchor, after, 1);
      First(occurrence, after, start - 1) && FirstFrom(occurrence, start, after, 4) == Some(start)
  {
    DayBackZone(anchor, gap);
    var occurrence, start := Days(DayBack(anchor, gap), anchor, 1), quotient(after - anchor);
    assert (start - 1) * DAY == start * DAY - DAY && (start - 2) * DAY == start * DAY - 2 * DAY;
    DayBackAt(anchor, gap, start - 1);
    DayBackAt(anchor, gap, start);
    forall k | 1 <= k < start - 1 ensures occurrence(k) <= after {
      DayBackAt(anchor, gap, k);
      Grows(k, start - 2, DAY);
    }
    FoundAt(occurrence, start, after, 4, start);
  }

  // ----- The dates of a leap year -----

  function January(year: int): int {
    12 * year
  }

  /** Midnight of 1 March. */
  function March(year: int): int {
    (Start(January(year)) + 60) * DAY
  }

  lemma {:induction false} Starts(year: int, january: int)
    requires Leap(year) && january == January(year)
    ensures Length(january) == 31 && Length(january + 1) == 29 && Length(january + 2) == 31
    ensures Start(january + 1) == Start(january) + 31 && Start(january + 2) == Start(january) + 60 && Start(january + 3) == Start(january) + 91
  {
    LengthIn(year, 0);
    LengthIn(year, 1);
    LengthIn(year, 2);
    StartNext(january);
    StartNext(january + 1);
    StartNext(january + 2);
  }

  // ----- A clock set back over the end of a month -----

  /** Three hours ahead until one second past midnight of 1 March, two hours ahead from then on. */
  function SetBack(year: int): int -> int {
    t => if t < March(year) - 3 * HOUR + SECOND then 3 * HOUR else 2 * HOUR
  }

  /** Wall times well before the change, and those it repeats from half past eleven on, are shown. */
  lemma {:induction false} BackShown(year: int, wall: int)
    requires wall <= March(year) - 4 * HOUR || wall >= March(year) - HALF_HOUR
    ensures FromLocal(SetBack(year), wall) == wall - (if wall < March(year) - 2 * HOUR then 3 * HOUR else 2 * HOUR)
    ensures Local(SetBack(year), FromLocal(SetBack(year), wall)) == wall
  {
  }

  lemma {:induction false} FebruaryLast(year: int, january: int)
    requires Leap(year) && january == January(year)
    ensures LastShown(SetBack(year), Civil(january + 1, 1, LATE)) == 29
  {
    Starts(year, january);
    assert Civil(january + 1, 29, LATE) == March(year) - HALF_HOUR;
    BackShown(year, March(year) - HALF_HOUR);
    LastDayShown(SetBack(year), january + 1, LATE);
  }

  lemma {:induction false} FebruaryAsked(year: int, january: int)
    requires Leap(year) && january == January(year)
    ensures Asked(SetBack(year), january + 1, 31, LATE) == March(year) - HALF_HOUR
  {
    Starts(year, january);
    var first := Civil(january + 1, 1, LATE);
    assert first == March(year) - 28 * DAY - HALF_HOUR;
    BackShown(year, first);
    FebruaryLast(year, january);
    assert FirstShown(SetBack(year), january + 1, LATE) == first;
  }

  lemma {:induction false} MarchAsked(year: int, january: int)
    requires Leap(year) && january == January(year)
    ensures Asked(SetBack(year), january + 2, 31, LATE) >= March(year)
  {
    Starts(year, january);
    BackShown(year, Civil(january + 2, 1, LATE));
    Grows(0, Min(31, LastShown(SetBack(year), FirstShown(SetBack(year), january + 2, LATE))) - 1, DAY);
  }

  lemma {:induction false} BackZone(year: int)
    ensures IsZone(SetBack(year)) && Close(SetBack(year))
  {
  }

  /** The anchor, on the last evening of January, and the instant, at midnight of 1 March, as the zone reads them. */
  lemma {:induction false} BackDates(year: int, january: int)
    requires Leap(year) && january == January(year)
    ensures DateOf(Local(SetBack(year), March(year) - 29 * DAY - 3 * HOUR - HALF_HOUR)) == Date(january, 31, LATE)
    ensures DateOf(Local(SetBack(year), March(year) - 3 * HOUR)) == Date(january + 2, 1, 0)
  {
    Starts(year, january);
    CivilReads(january, 31, LATE);
    CivilReads(january + 2, 1, 0);
  }

  lemma {:induction false} BackOccurrences(year: int, january: int)
    requires Leap(year) && january == January(year)
    ensures var occurrence := Months(SetBack(year), Date(january, 31, LATE), 1);
      occurrence(1) == March(year) - 2 * HOUR - HALF_HOUR && occurrence(2) > March(year) - 3 * HOUR
  {
    FebruaryAsked(year, january);
    MarchAsked(year, january);
    BackShown(year, March(year) - HALF_HOUR);
    BackShown(year, Asked(SetBack(year), january + 2, 31, LATE));
  }

  /**
   * At midnight of 1 March, as the zone reads it, the search misses the occurrence of 29 February at half past eleven,
   * which is still to come: the clock is about to go back an hour.
   */
  lemma {:induction false} MonthsMiss(year: int)
    requires Leap(year)
    ensures IsZone(SetBack(year)) && Close(SetBack(year))
    ensures var anchor, after := Date(January(year), 31, LATE), March(year) - 3 * HOUR;
      var occurrence := Months(SetBack(year), anchor, 1);
      && DateOf(Local(SetBack(year), March(year) - 29 * DAY - 3 * HOUR - HALF_HOUR)) == anchor
      && DateOf(Local(SetBack(year), after)) == Date(January(year) + 2, 1, 0)
      && First(occurrence, after, 1)
      && FirstFrom(occurrence, MonthCount(anchor.month, January(year) + 2, 1), after, 4) == Some(2)
  {
    BackZone(year);
    BackDates(year, January(year));
    BackOccurrences(year, January(year));
    FoundAt(Months(SetBack(year), Date(January(year), 31, LATE), 1), 2, March(year) - 3 * HOUR, 4, 2);
  }

  // ----- A clock that skips the start of a month -----

  /** Four hours behind, and three from midnight of 1 March on: that day starts at one o'clock. */
  function SetForward(year: int): int -> int {
    t => if t < March(year) + 4 * HOUR then -4 * HOUR else -3 * HOUR
  }

  lemma {:induction false} ForwardShown(year: int, wall: int)
    requires wall > March(year) + DAY
    ensures Local(SetForward(year), FromLocal(SetForward(year), wall)) == wall
  {
  }

  /** Half past midnight of 1 March does not exist; it is read as half past eleven the evening before. */
  lemma {:induction false} ForwardSkips(year: int)
    ensures Local(SetForward(year), FromLocal(SetForward(year), March(year) + HALF_HOUR)) == March(year) - HALF_HOUR
  {
  }

  lemma {:induction false} SkewedAsked(year: int, january: int)
    requires Leap(year) && january == January(year)
    ensures Asked(SetForward(year), january + 2, 31, HALF_HOUR) == March(year) + 27 * DAY - HALF_HOUR
  {
    Starts(year, january);
    ForwardSkips(year);
    CivilReads(january + 1, 29, LATE);
    var last := Civil(january + 2, 28, LATE);
    CivilReads(january + 2, 28, LATE);
    ForwardShown(year, last);
    assert Civil(january + 2, 1, HALF_HOUR) == March(year) + HALF_HOUR;
    assert Civil(january + 1, 29, LATE) == March(year) - HALF_HOUR;
  }

  lemma {:induction false} ForwardZone(year: int)
    ensures IsZone(SetForward(year)) && Close(SetForward(year))
  {
  }

  lemma {:induction false} WantedShown(year: int, january: int)
    requires Leap(year) && january == January(year)
    ensures var wanted := Clamped(january + 2, 31, HALF_HOUR); Local(SetForward(year), FromLocal(SetForward(year), wanted)) == wanted
  {
    Starts(year, january);
    ForwardShown(year, Clamped(january + 2, 31, HALF_HOUR));
  }

  lemma {:induction false} SkewedDate(year: int, january: int)
    requires Leap(year) && january == January(year)
    ensures DateOf(Local(SetForward(year), Months(SetForward(year), Date(january, 31, HALF_HOUR), 1)(2))) == Date(january + 2, 27, LATE)
  {
    SkewedFound(year, january);
    var wall := March(year) + 27 * DAY - HALF_HOUR;
    ForwardShown(year, wall);
    SkewedWall(year, january);
    DateReads(january + 2, 27, LATE);
  }

  lemma {:induction false} SkewedFound(year: int, january: int)
    requires Leap(year) && january == January(year)
    ensures Months(SetForward(year), Date(january, 31, HALF_HOUR), 1)(2) == FromLocal(SetForward(year), March(year) + 27 * DAY - HALF_HOUR)
  {
    SkewedAsked(year, january);
  }

  lemma {:induction false} SkewedWall(year: int, january: int)
    requires Leap(year) && january == January(year)
    ensures March(year) + 27 * DAY - HALF_HOUR == Civil(january + 2, 27, LATE) && Length(january + 2) == 31
  {
    Starts(year, january);
  }

  /**
   * The occurrence wanted on 31 March at half past midnight is put on 27 March at half past eleven in the evening,
   * although the clock does show the wanted time.
   */
  lemma {:induction false} MonthsSkewed(year: int)
    requires Leap(year)
    ensures IsZone(SetForward(year)) && Close(SetForward(year))
    ensures var occurrence := Months(SetForward(year), Date(January(year), 31, HALF_HOUR), 1);
      var wanted := Clamped(January(year) + 2, 31, HALF_HOUR);
      && Local(SetForward(year), FromLocal(SetForward(year), wanted)) == wanted
      && DateOf(Local(SetForward(year), occurrence(2))) == Date(January(year) + 2, 27, LATE)
  {
    ForwardZone(year);
    WantedShown(year, January(year));
    SkewedDate(year, January(year));
  }
}
