/** The proleptic Gregorian calendar and a zone's wall clock. Instants, durations and wall times are nanoseconds. */
module Calendar {

  const SECOND := 1_000_000_000
  const MINUTE := 60 * SECOND
  const HOUR := 60 * MINUTE
  const DAY := 24 * HOUR

  // ----- Months and days, counted from January of year 0 -----

  function Length(m: int): (days: int)
    ensures 28 <= days <= 31
  {
    var year, month := m / 12, m % 12;
    if month == 1 then (if year % 4 == 0 && (year % 100 != 0 || year % 400 == 0) then 29 else 28)
    else if month == 3 || month == 5 || month == 8 || month == 10 then 30
    else 31
  }

  /** The day on which a month starts. */
  function Start(m: int): int
    decreases if m >= 0 then m else -m
  {
    if m == 0 then 0 else if m > 0 then Start(m - 1) + Length(m - 1) else Start(m + 1) - Length(m)
  }

  lemma {:induction false} StartNext(m: int)
    ensures Start(m + 1) == Start(m) + Length(m)
  {
  }

  lemma {:induction false} StartGrows(a: int, b: int)
    requires a <= b
    ensures Start(a) + 28 * (b - a) <= Start(b)
    decreases b - a
  {
    if a < b {
      StartGrows(a, b - 1);
      StartNext(b - 1);
    }
  }

  predicate Leap(year: int) {
    year % 4 == 0 && (year % 100 != 0 || year % 400 == 0)
  }

  lemma {:induction false} LengthIn(year: int, month: int)
    requires 0 <= month < 12
    ensures Length(12 * year + month) ==
      if month == 1 then (if Leap(year) then 29 else 28) else if month in {3, 5, 8, 10} then 30 else 31
  {
    assert (12 * year + month) / 12 == year && (12 * year + month) % 12 == month;
  }

  predicate InMonth(wall: int, m: int) {
    Start(m) <= wall / DAY < Start(m + 1)
  }

  lemma {:induction false} OneMonth(wall: int, m: int, k: int)
    requires InMonth(wall, m) && InMonth(wall, k)
    ensures m == k
  {
    if m < k { StartGrows(m + 1, k); }
    if k < m { StartGrows(k + 1, m); }
  }

  function MonthUp(m: int, day: int): (k: int)
    requires Start(m) <= day
    ensures Start(k) <= day < Start(k + 1)
    decreases day - Start(m)
  {
    StartNext(m);
    if day < Start(m + 1) then m else MonthUp(m + 1, day)
  }

  function MonthDown(m: int, day: int): (k: int)
    requires day < Start(m)
    ensures Start(k) <= day < Start(k + 1)
    decreases Start(m) - day
  {
    StartNext(m - 1);
    if Start(m - 1) <= day then m - 1 else MonthDown(m - 1, day)
  }

  function MonthAt(wall: int): (m: int)
    ensures InMonth(wall, m)
  {
    if wall / DAY >= 0 then MonthUp(0, wall / DAY) else MonthDown(0, wall / DAY)
  }

  /** The day of the month. */
  function DayOf(wall: int): (d: int)
    ensures 1 <= d <= Length(MonthAt(wall))
  {
    StartNext(MonthAt(wall));
    wall / DAY - Start(MonthAt(wall)) + 1
  }

  function TimeOf(wall: int): (t: int)
    ensures 0 <= t < DAY
  {
    wall % DAY
  }

  /** The wall time of a date; days outside the month count on into its neighbours. */
  function Civil(m: int, day: int, time: int): int {
    (Start(m) + day - 1) * DAY + time
  }

  datatype Date = Date(month: int, day: int, time: int)

  predicate ValidDate(d: Date) {
    1 <= d.day <= 31 && 0 <= d.time < DAY
  }

  function DateOf(wall: int): (d: Date)
    ensures ValidDate(d) && InMonth(wall, d.month)
  {
    Date(MonthAt(wall), DayOf(wall), TimeOf(wall))
  }

  lemma {:induction false} Divide(q: int, r: int)
    requires 0 <= r < DAY
    ensures (q * DAY + r) / DAY == q && (q * DAY + r) % DAY == r
  {
  }

  /** A date inside its month reads back as given. */
  lemma {:induction false} CivilReads(m: int, day: int, time: int)
    requires 1 <= day <= Length(m) && 0 <= time < DAY
    ensures var w := Civil(m, day, time); MonthAt(w) == m && DayOf(w) == day && TimeOf(w) == time
  {
    Divide(Start(m) + day - 1, time);
    StartNext(m);
    OneMonth(Civil(m, day, time), m, MonthAt(Civil(m, day, time)));
  }

  lemma {:induction false} DateReads(m: int, day: int, time: int)
    requires 1 <= day <= Length(m) && 0 <= time < DAY
    ensures DateOf(Civil(m, day, time)) == Date(m, day, time)
  {
    CivilReads(m, day, time);
  }

  /** Every wall time is the one of its date. */
  lemma {:induction false} ReadsCivil(w: int)
    ensures Civil(MonthAt(w), DayOf(w), TimeOf(w)) == w
  {
  }

  // ----- Zones -----

  /** The offset of a zone at each instant: whole seconds short of a day. */
  ghost predicate IsZone(offset: int -> int) {
    forall t :: SECOND - DAY <= offset(t) <= DAY - SECOND
  }

  function Local(offset: int -> int, t: int): int {
    t + offset(t)
  }

  /**
   * The instant Go's calendar constructor gives for a wall time: the offset is looked up as if the wall time were an
   * instant, and again at the instant that offset gives.
   */
  function FromLocal(offset: int -> int, wall: int): int {
    var guess := offset(wall);
    if guess == 0 then wall else wall - offset(wall - guess)
  }

  lemma {:induction false} FromLocalNear(offset: int -> int, wall: int)
    requires IsZone(offset)
    ensures wall - (DAY - SECOND) <= FromLocal(offset, wall) <= wall + (DAY - SECOND)
  {
  }

  ghost predicate OneChange(offset: int -> int, wall: int, change: int, before: int, since: int) {
    forall t :: wall - DAY < t < wall + DAY ==> offset(t) == if t < change then before else since
  }

  /** Around at most one change of offset, a wall time that the clock shows is found. */
  lemma {:induction false} FoundUnlessSkipped(offset: int -> int, wall: int, change: int, before: int, since: int, t: int)
    requires IsZone(offset) && OneChange(offset, wall, change, before, since) && Local(offset, t) == wall
    ensures Local(offset, FromLocal(offset, wall)) == wall
  {
    assert wall - DAY < t < wall + DAY;
    var guess := offset(wall);
    assert offset(wall - guess) == if wall - guess < change then before else since;
    var found := FromLocal(offset, wall);
    FromLocalNear(offset, wall);
    assert offset(found) == if found < change then before else since;
  }
}
