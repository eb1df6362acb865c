/** Schedules in months: the anchor's day of the month, or the last day of a shorter month, at the anchor's wall time. */
module ScheduleMonths {
  import opened Calendar
  import opened Schedules
  import opened ScheduleDays

  function Min(a: int, b: int): int {
    if a < b then a else b
  }

  /** What the zone's clock shows for the first of the month at that time: the time itself, unless the clock skips it. */
  function FirstShown(offset: int -> int, m: int, time: int): int {
    Local(offset, FromLocal(offset, Civil(m, 1, time)))
  }

  /** The day of the month a month and a day after the given wall time, less one day. */
  function LastShown(offset: int -> int, first: int): (day: int)
    ensures 1 <= day <= 31
  {
    DayOf(Local(offset, FromLocal(offset, Civil(MonthAt(first) + 1, DayOf(first) - 1, TimeOf(first)))))
  }

  /** The wall time that an occurrence is asked for. */
  function Asked(offset: int -> int, m: int, day: int, time: int): int {
    var first := FirstShown(offset, m, time);
    first + (Min(day, LastShown(offset, first)) - 1) * DAY
  }

  function Months(offset: int -> int, anchor: Date, step: int): int -> int {
    n => FromLocal(offset, Asked(offset, anchor.month + n * step, anchor.day, anchor.time))
  }

  /** `now` is the month of the instant, as the zone reads it. */
  function MonthCount(month: int, now: int, step: int): int
    requires step >= 1
  {
    AtLeastOne(Quo(now - month, step))
  }

  // ----- Where the search starts -----

  predicate Near(m: int, t: int) {
    (Start(m) - 3) * DAY <= t <= (Start(m) + 34) * DAY
  }

  predicate NearAt(candidate: int -> int, month: int, step: int, n: int) {
    Near(month + n * step, candidate(n))
  }

  /** Occurrences that stay near their months. */
  ghost predicate Monthly(candidate: int -> int, month: int, step: int) {
    forall n :: NearAt(candidate, month, step, n)
  }

  /** Whatever the clock skips, an occurrence stays near its month. */
  lemma {:induction false} MonthsNear(offset: int -> int, anchor: Date, step: int)
    requires IsZone(offset) && ValidDate(anchor)
    ensures Monthly(Months(offset, anchor, step), anchor.month, step)
  {
    forall n ensures NearAt(Months(offset, anchor, step), anchor.month, step, n) { MonthNear(offset, anchor, step, n); }
  }

  lemma {:induction false} MonthNear(offset: int -> int, anchor: Date, step: int, n: int)
    requires IsZone(offset) && ValidDate(anchor)
    ensures NearAt(Months(offset, anchor, step), anchor.month, step, n)
  {
    NearMonth(offset, anchor.month + n * step, anchor.day, anchor.time);
  }

  lemma {:induction false} NearMonth(offset: int -> int, m: int, day: int, time: int)
    requires IsZone(offset) && 1 <= day <= 31 && 0 <= time < DAY
    ensures Near(m, FromLocal(offset, Asked(offset, m, day, time)))
  {
    var first := FirstShown(offset, m, time);
    FirstNear(offset, m, time);
    FoundNear(offset, m, first, day, LastShown(offset, first));
  }

  lemma {:induction false} FoundNear(offset: int -> int, m: int, first: int, day: int, last: int)
    requires IsZone(offset) && (Start(m) - 2) * DAY <= first <= (Start(m) + 3) * DAY && 1 <= day <= 31 && 1 <= last <= 31
    ensures Near(m, FromLocal(offset, first + (Min(day, last) - 1) * DAY))
  {
    var asked := first + (Min(day, last) - 1) * DAY;
    CapNear(Start(m), first, day, last);
    FromLocalNear(offset, asked);
    Wider(Start(m), asked, FromLocal(offset, asked));
  }

  lemma {:induction false} Wider(s: int, asked: int, found: int)
    requires (s - 2) * DAY <= asked <= (s + 33) * DAY && asked - DAY <= found <= asked + DAY
    ensures (s - 3) * DAY <= found <= (s + 34) * DAY
  {
  }

  lemma {:induction false} FirstNear(offset: int -> int, m: int, time: int)
    requires IsZone(offset) && 0 <= time < DAY
    ensures (Start(m) - 2) * DAY <= FirstShown(offset, m, time) <= (Start(m) + 3) * DAY
  {
    FromLocalNear(offset, Civil(m, 1, time));
  }

  lemma {:induction false} CapNear(s: int, first: int, day: int, last: int)
    requires (s - 2) * DAY <= first <= (s + 3) * DAY && 1 <= day <= 31 && 1 <= last <= 31
    ensures (s - 2) * DAY <= first + (Min(day, last) - 1) * DAY <= (s + 33) * DAY
  {
    Grows(0, Min(day, last) - 1, DAY);
    Grows(Min(day, last) - 1, 30, DAY);
  }

  /** An instant within a day of its own wall time, which is in month `now`. */
  predicate Around(after: int, now: int) {
    (Start(now) - 1) * DAY < after < (Start(now + 1) + 1) * DAY
  }

  lemma {:induction false} AfterNear(offset: int -> int, after: int)
    requires IsZone(offset)
    ensures Around(after, MonthAt(Local(offset, after)))
  {
    var wall := Local(offset, after);
    WallNear(wall, MonthAt(wall), after);
  }

  lemma {:induction false} WallNear(wall: int, now: int, after: int)
    requires InMonth(wall, now) && wall - DAY < after < wall + DAY
    ensures Around(after, now)
  {
    Grows(Start(now), wall / DAY, DAY);
    Grows(wall / DAY + 1, Start(now + 1), DAY);
    assert wall == wall / DAY * DAY + wall % DAY;
  }

  lemma {:induction false} CountBracket(month: int, now: int, step: int)
    requires step >= 1
    ensures var c := MonthCount(month, now, step); c >= 1 && now + 2 <= month + (c + 2) * step && (c > 1 ==> month + c * step <= now)
  {
    var d, c := now - month, MonthCount(month, now, step);
    if d >= 0 {
      Division(d, step);
      Grows(d / step, c, step);
      assert (d / step + 1) * step == d / step * step + step;
    } else {
      QuoNegative(d, step);
    }
    assert (c + 2) * step == c * step + 2 * step;
    Grows(1, c, step);
  }

  lemma {:induction false} TwoBack(base: int, step: int, k: int, start: int, now: int)
    requires step >= 1 && k <= start - 2 && base + start * step <= now
    ensures base + k * step + 2 <= now
  {
    Grows(k + 2, start, step);
    assert (k + 2) * step == k * step + 2 * step;
  }

  lemma {:induction false} LaterMonth(now: int, m: int, occurrence: int, after: int)
    requires now + 2 <= m && Near(m, occurrence) && Around(after, now)
    ensures occurrence > after
  {
    StartGrows(now + 1, m);
    FarAfter(Start(now + 1), Start(m), occurrence, after);
  }

  lemma {:induction false} FarAfter(s: int, t: int, occurrence: int, after: int)
    requires s + 28 <= t && (t - 3) * DAY <= occurrence && after < (s + 1) * DAY
    ensures occurrence > after
  {
  }

  lemma {:induction false} SoonerMonth(m: int, now: int, occurrence: int, after: int)
    requires m + 2 <= now && Near(m, occurrence) && Around(after, now)
    ensures occurrence <= after
  {
    StartGrows(m, now);
    FarBefore(Start(m), Start(now), occurrence, after);
  }

  lemma {:induction false} FarBefore(s: int, t: int, occurrence: int, after: int)
    requires s + 56 <= t && occurrence <= (s + 34) * DAY && (t - 1) * DAY < after
    ensures occurrence <= after
  {
  }

  /** The search starts at most one occurrence too late and reaches one after the instant by its third try. */
  lemma {:induction false} MonthlySearch(candidate: int -> int, month: int, step: int, after: int, now: int)
    requires Monthly(candidate, month, step) && step >= 1 && Around(after, now)
    ensures var start := MonthCount(month, now, step); var found := FirstFrom(candidate, start, after, 4);
      && found.Some?
      && (First(candidate, after, found.value) <==> start == 1 || candidate(start - 1) <= after)
  {
    var start := MonthCount(month, now, step);
    CountBracket(month, now, step);
    forall k | 1 <= k <= start - 2 ensures candidate(k) <= after {
      assert NearAt(candidate, month, step, k);
      TwoBack(month, step, k, start, now);
      SoonerMonth(month + k * step, now, candidate(k), after);
    }
    assert NearAt(candidate, month, step, start + 2);
    LaterMonth(now, month + (start + 2) * step, candidate(start + 2), after);
    SearchExactly(candidate, after, start, start + 2);
  }

  /**
   * The months search never gives up, and returns the first occurrence after the instant exactly when the occurrence
   * just before its start is not after it.
   */
  lemma {:induction false} MonthsExactly(offset: int -> int, anchor: Date, after: int, now: int, step: int)
    requires IsZone(offset) && ValidDate(anchor) && Around(after, now) && step >= 1
    ensures var occurrence, start := Months(offset, anchor, step), MonthCount(anchor.month, now, step);
      var found := FirstFrom(occurrence, start, after, 4);
      && found.Some?
      && (First(occurrence, after, found.value) <==> start == 1 || occurrence(start - 1) <= after)
  {
    MonthsNear(offset, anchor, step);
    MonthlySearch(Months(offset, anchor, step), anchor.month, step, after, now);
  }

  // ----- The wall time that is kept -----

  /** The day of the month, or the last day of a shorter month. */
  function Clamped(m: int, day: int, time: int): int {
    Civil(m, Min(day, Length(m)), time)
  }

  /** The clock shows the first of the month at that time; so it does the last day, if the month is too short for the day. */
  predicate Shown(offset: int -> int, m: int, day: int, time: int) {
    && FirstShown(offset, m, time) == Civil(m, 1, time)
    && Min(day, DayOf(Local(offset, FromLocal(offset, Civil(m, Length(m), time))))) == Min(day, Length(m))
  }

  /**
   * An occurrence is asked for at the wall time that the anchor's day and time give, exactly when the clock does not
   * skip that time on the first day of the month, nor on its last if that is the one wanted.
   */
  lemma {:induction false} AskedExactly(offset: int -> int, m: int, day: int, time: int)
    requires Close(offset) && 1 <= day <= 31 && 0 <= time < DAY
    ensures Asked(offset, m, day, time) == Clamped(m, day, time) <==> Shown(offset, m, day, time)
  {
    var wanted, first := Civil(m, 1, time), FirstShown(offset, m, time);
    if first == wanted {
      AskedFirst(offset, m, day, time);
    } else {
      ClampedFrom(m, day, time);
      ShiftedLess(offset, wanted);
      OtherCap(wanted, first, Min(day, Length(m)), Min(day, LastShown(offset, first)));
    }
  }

  /** If the first of the month is shown, the last day decides. */
  lemma {:induction false} AskedFirst(offset: int -> int, m: int, day: int, time: int)
    requires 0 <= time < DAY && FirstShown(offset, m, time) == Civil(m, 1, time)
    ensures Asked(offset, m, day, time) == Clamped(m, day, time) <==> Shown(offset, m, day, time)
  {
    var wanted := Civil(m, 1, time);
    ClampedFrom(m, day, time);
    LastIs(offset, m, time);
    assert Asked(offset, m, day, time) == wanted + (Min(day, LastShown(offset, wanted)) - 1) * DAY;
    SameCap(wanted, Min(day, LastShown(offset, wanted)), Min(day, Length(m)));
  }

  lemma {:induction false} ClampedFrom(m: int, day: int, time: int)
    ensures Clamped(m, day, time) == Civil(m, 1, time) + (Min(day, Length(m)) - 1) * DAY
  {
  }

  lemma {:induction false} LastIs(offset: int -> int, m: int, time: int)
    requires 0 <= time < DAY
    ensures LastShown(offset, Civil(m, 1, time)) == DayOf(Local(offset, FromLocal(offset, Civil(m, Length(m), time))))
  {
    CivilReads(m, 1, time);
    StartNext(m);
    assert Civil(m + 1, 0, time) == Civil(m, Length(m), time);
  }

  lemma {:induction false} LastDayShown(offset: int -> int, m: int, time: int)
    requires 0 <= time < DAY
    requires var last := Civil(m, Length(m), time); Local(offset, FromLocal(offset, last)) == last
    ensures LastShown(offset, Civil(m, 1, time)) == Length(m)
  {
    LastIs(offset, m, time);
    CivilReads(m, Length(m), time);
  }

  lemma {:induction false} SameCap(wanted: int, a: int, b: int)
    ensures wanted + (a - 1) * DAY == wanted + (b - 1) * DAY <==> a == b
  {
  }

  lemma {:induction false} OtherCap(wanted: int, first: int, a: int, b: int)
    requires -DAY < first - wanted < DAY && first != wanted
    ensures first + (b - 1) * DAY != wanted + (a - 1) * DAY
  {
    WholeDays(first - wanted, a - b);
  }

  /** Any two offsets of the zone are less than a day apart. */
  ghost predicate Close(offset: int -> int) {
    forall s, t :: offset(s) - offset(t) <= DAY - SECOND
  }

  lemma {:induction false} ShiftedLess(offset: int -> int, wall: int)
    requires Close(offset)
    ensures -DAY < Local(offset, FromLocal(offset, wall)) - wall < DAY
  {
    var guess := offset(wall);
    var found := FromLocal(offset, wall);
    assert offset(found) - offset(wall - guess) <= DAY - SECOND && offset(wall - guess) - offset(found) <= DAY - SECOND;
  }

  lemma {:induction false} WholeDays(shift: int, days: int)
    requires -DAY < shift < DAY && shift != 0
    ensures shift != days * DAY
  {
    if days >= 1 { Grows(1, days, DAY); }
    if days <= -1 { Grows(days, -1, DAY); }
  }

  // ----- The least occurrence -----

  /** Every occurrence is asked for at its clamped wall time. */
  ghost predicate AllShown(offset: int -> int, anchor: Date, step: int) {
    forall n :: n >= 1 ==> ShownFor(offset, anchor, step, n)
  }

  predicate ShownFor(offset: int -> int, anchor: Date, step: int, n: int) {
    Shown(offset, anchor.month + n * step, anchor.day, anchor.time)
  }

  lemma {:induction false} ClampedGrows(m: int, k: int, day: int, time: int)
    requires 1 <= day <= 31 && m < k
    ensures Clamped(m, day, time) + 28 * DAY <= Clamped(k, day, time)
    decreases k - m
  {
    StartNext(k - 1);
    assert Clamped(k - 1, day, time) + 28 * DAY <= Clamped(k, day, time) by {
      Grows(28, Length(k - 1) + Min(day, Length(k)) - Min(day, Length(k - 1)), DAY);
    }
    if m < k - 1 { ClampedGrows(m, k - 1, day, time); }
  }

  lemma {:induction false} ShownAt(offset: int -> int, anchor: Date, step: int, n: int)
    requires ValidDate(anchor) && AllShown(offset, anchor, step) && n >= 1
    ensures Months(offset, anchor, step)(n) == FromLocal(offset, Clamped(anchor.month + n * step, anchor.day, anchor.time))
  {
    assert ShownFor(offset, anchor, step, n);
    ClampedFound(offset, anchor.month + n * step, anchor.day, anchor.time);
  }

  lemma {:induction false} ClampedFound(offset: int -> int, m: int, day: int, time: int)
    requires 0 <= time < DAY && Shown(offset, m, day, time)
    ensures FromLocal(offset, Asked(offset, m, day, time)) == FromLocal(offset, Clamped(m, day, time))
  {
    AskedFirst(offset, m, day, time);
  }

  lemma {:induction false} MonthsIncrease(offset: int -> int, anchor: Date, step: int, j: int, k: int)
    requires IsZone(offset) && ValidDate(anchor) && AllShown(offset, anchor, step) && step >= 1 && 1 <= j < k
    ensures Months(offset, anchor, step)(j) < Months(offset, anchor, step)(k)
  {
    ShownAt(offset, anchor, step, j);
    ShownAt(offset, anchor, step, k);
    WallsIncrease(offset, anchor, step, j, k);
  }

  lemma {:induction false} WallsIncrease(offset: int -> int, anchor: Date, step: int, j: int, k: int)
    requires IsZone(offset) && ValidDate(anchor) && step >= 1 && j < k
    ensures FromLocal(offset, Clamped(anchor.month + j * step, anchor.day, anchor.time))
      < FromLocal(offset, Clamped(anchor.month + k * step, anchor.day, anchor.time))
  {
    var m, next := anchor.month + j * step, anchor.month + k * step;
    Grows(j + 1, k, step);
    assert (j + 1) * step == j * step + step;
    ClampedGrows(m, next, anchor.day, anchor.time);
    FromLocalNear(offset, Clamped(m, anchor.day, anchor.time));
    FromLocalNear(offset, Clamped(next, anchor.day, anchor.time));
  }

  /** Occurrences near their months that never go back: the search, as far as the least one is concerned. */
  lemma {:induction false} RisingSearch(candidate: int -> int, month: int, step: int, after: int, now: int)
    requires Monthly(candidate, month, step) && Rising(candidate) && step >= 1 && Around(after, now)
    ensures var start := MonthCount(month, now, step); var found := FirstFrom(candidate, start, after, 4);
      found.Some? && (Least(candidate, after, found.value) <==> start == 1 || candidate(start - 1) <= after)
  {
    MonthlySearch(candidate, month, step, after, now);
    var start := MonthCount(month, now, step);
    if start == 1 || candidate(start - 1) <= after { FirstIsLeast(candidate, after, FirstFrom(candidate, start, after, 4).value); }
  }

  lemma {:induction false} MonthsRise(offset: int -> int, anchor: Date, step: int)
    requires IsZone(offset) && ValidDate(anchor) && AllShown(offset, anchor, step) && step >= 1
    ensures Rising(Months(offset, anchor, step))
  {
    var occurrence := Months(offset, anchor, step);
    forall j, k | 1 <= j < k ensures occurrence(j) <= occurrence(k) { MonthsIncrease(offset, anchor, step, j, k); }
  }

  /** Then the result is the least occurrence after the instant exactly when the one before the search is not after it. */
  lemma {:induction false} MonthsLeast(offset: int -> int, anchor: Date, after: int, now: int, step: int)
    requires IsZone(offset) && ValidDate(anchor) && AllShown(offset, anchor, step)
    requires Around(after, now) && step >= 1
    ensures var occurrence, start := Months(offset, anchor, step), MonthCount(anchor.month, now, step);
      var found := FirstFrom(occurrence, start, after, 4);
      found.Some? && (Least(occurrence, after, found.value) <==> start == 1 || occurrence(start - 1) <= after)
  {
    MonthsNear(offset, anchor, step);
    MonthsRise(offset, anchor, step);
    RisingSearch(Months(offset, anchor, step), anchor.month, step, after, now);
  }

  lemma {:induction false} RisingFound(candidate: int -> int, month: int, step: int, after: int, now: int)
    requires Monthly(candidate, month, step) && Rising(candidate) && step >= 1 && Around(after, now)
    requires var start := MonthCount(month, now, step); start <= 1 || candidate(start - 1) <= after
    ensures var found := FirstFrom(candidate, MonthCount(month, now, step), after, 4);
      found.Some? && Least(candidate, after, found.value)
  {
    CountBracket(month, now, step);
    RisingSearch(candidate, month, step, after, now);
  }

  /** So it is, except perhaps on the first day of a month as the zone reads it. */
  lemma {:induction false} MonthsFound(offset: int -> int, anchor: Date, after: int, shown: int, step: int)
    requires IsZone(offset) && Narrow(offset) && ValidDate(anchor) && AllShown(offset, anchor, step) && step >= 1
    requires shown == Local(offset, after) && DayOf(shown) > 1
    ensures var occurrence := Months(offset, anchor, step);
      var found := FirstFrom(occurrence, MonthCount(anchor.month, MonthAt(shown), step), after, 4);
      found.Some? && Least(occurrence, after, found.value)
  {
    AfterNear(offset, after);
    PreviousNotAfter(offset, anchor, after, shown, step);
    MonthsNear(offset, anchor, step);
    MonthsRise(offset, anchor, step);
    RisingFound(Months(offset, anchor, step), anchor.month, step, after, MonthAt(shown));
  }

  lemma {:induction false} PreviousNotAfter(offset: int -> int, anchor: Date, after: int, shown: int, step: int)
    requires Narrow(offset) && ValidDate(anchor) && AllShown(offset, anchor, step) && step >= 1
    requires shown == Local(offset, after) && DayOf(shown) > 1
    ensures var start := MonthCount(anchor.month, MonthAt(shown), step);
      start <= 1 || Months(offset, anchor, step)(start - 1) <= after
  {
    if MonthCount(anchor.month, MonthAt(shown), step) > 1 {
      var wall := PreviousWall(offset, anchor, shown, step);
      EarlierWall(offset, wall, after);
    }
  }

  /** The wall time of the occurrence before the search. */
  lemma {:induction false} PreviousWall(offset: int -> int, anchor: Date, shown: int, step: int) returns (wall: int)
    requires ValidDate(anchor) && AllShown(offset, anchor, step) && step >= 1 && MonthCount(anchor.month, MonthAt(shown), step) > 1
    ensures Months(offset, anchor, step)(MonthCount(anchor.month, MonthAt(shown), step) - 1) == FromLocal(offset, wall)
    ensures wall < shown && (DayOf(shown) > 1 ==> wall + DAY < shown)
  {
    var start := MonthCount(anchor.month, MonthAt(shown), step);
    var m := anchor.month + (start - 1) * step;
    CountBracket(anchor.month, MonthAt(shown), step);
    OneBack(anchor.month, step, start, MonthAt(shown));
    wall := Clamped(m, anchor.day, anchor.time);
    ShownAt(offset, anchor, step, start - 1);
    EarlierMonth(m, anchor.day, anchor.time, shown);
  }

  lemma {:induction false} OneBack(base: int, step: int, start: int, now: int)
    requires step >= 1 && base + start * step <= now
    ensures base + (start - 1) * step < now
  {
    assert (start - 1) * step == start * step - step;
  }

  /** A clamped wall time of an earlier month is earlier, by more than a day unless this is the first of the month. */
  lemma {:induction false} EarlierMonth(m: int, day: int, time: int, wall: int)
    requires 1 <= day <= 31 && 0 <= time < DAY && m < MonthAt(wall)
    ensures Clamped(m, day, time) < wall && (DayOf(wall) > 1 ==> Clamped(m, day, time) + DAY < wall)
  {
    ClampedEnds(m, day, time);
    StartGrows(m + 1, MonthAt(wall));
    DayStarts(wall);
    LaterDay(Start(m + 1), Start(MonthAt(wall)), DayOf(wall), Clamped(m, day, time), wall);
  }

  lemma {:induction false} DayStarts(wall: int)
    ensures (Start(MonthAt(wall)) + DayOf(wall) - 1) * DAY <= wall
  {
    ReadsCivil(wall);
  }

  lemma {:induction false} LaterDay(s: int, t: int, day: int, clamped: int, wall: int)
    requires s <= t && day >= 1 && clamped < s * DAY && (t + day - 1) * DAY <= wall
    ensures clamped < wall && (day > 1 ==> clamped + DAY < wall)
  {
    Grows(s + day - 1, t + day - 1, DAY);
  }

  lemma {:induction false} EarlierWall(offset: int -> int, clamped: int, after: int)
    requires Narrow(offset) && clamped + DAY < Local(offset, after)
    ensures FromLocal(offset, clamped) <= after
  {
    var at := if offset(clamped) == 0 then clamped else clamped - offset(clamped);
    assert offset(after) - offset(at) <= DAY;
  }

  lemma {:induction false} ClampedEnds(m: int, day: int, time: int)
    requires 1 <= day <= 31 && 0 <= time < DAY
    ensures Clamped(m, day, time) < Start(m + 1) * DAY
  {
    StartNext(m);
    Grows(Start(m) + Min(day, Length(m)), Start(m + 1), DAY);
  }
}
