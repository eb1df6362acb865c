/** The repeat builder: schedules in minutes and hours, and the search through calendar occurrences. */
module Schedules {
  import opened Basics
  import opened Calendar

  const TWO_64 := 0x1_0000_0000_0000_0000

  /** Go's difference of two instants saturates at the bounds of a duration. */
  function Sub(a: int, b: int): (d: int)
    ensures MIN_INT64 <= d <= MAX_INT64
  {
    if a - b > MAX_INT64 then MAX_INT64 else if a - b < MIN_INT64 then MIN_INT64 else a - b
  }

  /** Go's 64-bit multiplication wraps around. */
  function Wrap(x: int): (r: int)
    ensures MIN_INT64 <= r <= MAX_INT64 && (r - x) % TWO_64 == 0
  {
    var m := x % TWO_64;
    if m > MAX_INT64 then m - TWO_64 else m
  }

  /** Go's integer division truncates toward zero. */
  function Quo(a: int, b: int): int
    requires b > 0
  {
    if a >= 0 then a / b else -((-a) / b)
  }

  function AtLeastOne(n: int): int {
    if n < 1 then 1 else n
  }

  // ----- Minutes and hours -----

  predicate IsInterval(step: int, unit: int) {
    1 <= step <= 1000 && (unit == MINUTE || unit == HOUR)
  }

  function NextInterval(anchor: int, after: int, interval: int): int
    requires interval > 0
  {
    anchor + Wrap(AtLeastOne(Quo(Sub(after, anchor), interval) + 1) * interval)
  }

  /** The first occurrence after an instant: none before it, counted from one. */
  predicate FirstInterval(anchor: int, after: int, interval: int, n: int) {
    n >= 1 && anchor + n * interval > after && (n > 1 ==> anchor + (n - 1) * interval <= after)
  }

  lemma {:induction false} Division(d: int, interval: int)
    requires interval > 0 && d >= 0
    ensures d / interval * interval <= d < (d / interval + 1) * interval
  {
    assert d == d / interval * interval + d % interval;
    assert (d / interval + 1) * interval == d / interval * interval + interval;
  }

  lemma {:induction false} Grows(a: int, b: int, interval: int)
    requires a <= b && interval >= 0
    ensures a * interval <= b * interval
  {
    assert b * interval - a * interval == (b - a) * interval;
  }

  lemma {:induction false} Between(n: int, m: int, interval: int)
    requires interval > 0 && n * interval < (m + 1) * interval && m * interval < (n + 1) * interval
    ensures n == m
  {
    if n > m { Grows(m + 1, n, interval); }
    if m > n { Grows(n + 1, m, interval); }
  }

  lemma {:induction false} DivNonnegative(x: int, b: int)
    requires x >= 0 && b > 0
    ensures x / b >= 0
  {
    Division(x, b);
    if x / b + 1 <= 0 { Grows(x / b + 1, 0, b); }
  }

  /** The count is the right one as long as the difference does not saturate. */
  lemma {:induction false} CountRight(anchor: int, after: int, interval: int, n: int)
    requires interval > 0 && FirstInterval(anchor, after, interval, n) && after - anchor <= MAX_INT64
    ensures AtLeastOne(Quo(Sub(after, anchor), interval) + 1) == n
  {
    var d := after - anchor;
    if d >= 0 {
      Division(d, interval);
      assert (n - 1 + 1) * interval == n * interval;
      if n == 1 { assert 0 * interval == 0; }
      Between(n - 1, d / interval, interval);
    } else {
      assert n > 1 ==> (n - 1) * interval > 0;
      var s := Sub(after, anchor);
      assert Quo(s, interval) <= 0 by { QuoNegative(s, interval); }
    }
  }

  lemma {:induction false} QuoNegative(a: int, b: int)
    requires a < 0 && b > 0
    ensures Quo(a, b) <= 0
  {
    DivNonnegative(-a, b);
  }

  lemma {:induction false} WrapKeeps(x: int)
    requires 0 <= x <= MAX_INT64
    ensures Wrap(x) == x
  {
  }

  lemma {:induction false} WrapNegative(x: int)
    requires MAX_INT64 < x < TWO_64
    ensures Wrap(x) < 0
  {
  }

  /**
   * The next occurrence in minutes or hours is the first one after the instant exactly when its distance from the
   * anchor fits a 64-bit duration, about 292 years.
   */
  lemma {:induction false} IntervalExactly(anchor: int, after: int, step: int, unit: int, n: int)
    requires IsInterval(step, unit) && FirstInterval(anchor, after, step * unit, n)
    ensures NextInterval(anchor, after, step * unit) == anchor + n * (step * unit) <==> n * (step * unit) <= MAX_INT64
  {
    var interval := step * unit;
    assert 0 < interval <= 60_000 * MINUTE by { StepBound(step, unit); }
    if after - anchor <= MAX_INT64 {
      CountRight(anchor, after, interval, n);
      assert n * interval > 0 by { Positive(n, interval); }
      if n * interval <= MAX_INT64 {
        WrapKeeps(n * interval);
      } else {
        assert n * interval <= MAX_INT64 + interval by { assert n * interval == (n - 1) * interval + interval; }
        WrapNegative(n * interval);
      }
    } else {
      Division(MAX_INT64, interval);
      var count := MAX_INT64 / interval + 1;
      assert count * interval == MAX_INT64 / interval * interval + interval;
      assert count >= 1;
      WrapNegative(count * interval);
    }
  }

  lemma {:induction false} StepBound(step: int, unit: int)
    requires IsInterval(step, unit)
    ensures 0 < step * unit <= 60_000 * MINUTE
  {
  }

  lemma {:induction false} Positive(n: int, interval: int)
    requires n >= 1 && interval > 0
    ensures n * interval > 0
  {
  }

  /** A schedule of every minute, anchored 300 years before, answers with an instant before its anchor. */
  lemma {:induction false} IntervalOverflows(anchor: int)
    ensures NextInterval(anchor, anchor + MAX_INT64 + 1, MINUTE) < anchor
  {
    Division(MAX_INT64, MINUTE);
    var count := MAX_INT64 / MINUTE + 1;
    WrapNegative(count * MINUTE);
  }

  // ----- Searching the calendar -----

  /** Tries four candidates in turn. */
  method FirstOfFour(candidate: int -> int, start: int, after: int) returns (n: Option<int>)
    ensures n == FirstFrom(candidate, start, after, 4)
  {
    var count := start;
    for i := 0 to 4
      invariant count == start + i && forall k :: start <= k < count ==> candidate(k) <= after
    {
      if candidate(count) > after {
        FoundAt(candidate, start, after, 4, count);
        return Some(count);
      }
      count := count + 1;
    }
    FoundNone(candidate, start, after, 4);
    return None;
  }

  /** The first of `tries` candidates that is after the instant. */
  function FirstFrom(candidate: int -> int, start: int, after: int, tries: nat): Option<int>
    decreases tries
  {
    if tries == 0 then None
    else if candidate(start) > after then Some(start)
    else FirstFrom(candidate, start + 1, after, tries - 1)
  }

  lemma {:induction false} FoundAt(candidate: int -> int, start: int, after: int, tries: nat, n: int)
    requires start <= n < start + tries && candidate(n) > after && forall k :: start <= k < n ==> candidate(k) <= after
    ensures FirstFrom(candidate, start, after, tries) == Some(n)
    decreases tries
  {
    if start < n {
      assert candidate(start) <= after;
      FoundAt(candidate, start + 1, after, tries - 1, n);
    }
  }

  lemma {:induction false} FoundNone(candidate: int -> int, start: int, after: int, tries: nat)
    requires forall k :: start <= k < start + tries ==> candidate(k) <= after
    ensures FirstFrom(candidate, start, after, tries) == None
    decreases tries
  {
    if tries > 0 {
      assert candidate(start) <= after;
      FoundNone(candidate, start + 1, after, tries - 1);
    }
  }

  predicate First(candidate: int -> int, after: int, n: int) {
    n >= 1 && candidate(n) > after && forall k :: 1 <= k < n ==> candidate(k) <= after
  }

  /** Whatever is first is found, if the search starts at or before it and reaches it. */
  lemma {:induction false} StartsInTime(candidate: int -> int, after: int, n: int, start: int)
    requires First(candidate, after, n) && 1 <= start <= n < start + 4
    ensures FirstFrom(candidate, start, after, 4) == Some(n)
  {
    FoundAt(candidate, start, after, 4, n);
  }

  lemma {:induction false} LeastExists(candidate: int -> int, after: int, m: int) returns (n: int)
    requires m >= 1 && candidate(m) > after
    ensures First(candidate, after, n) && n <= m
  {
    n := 1;
    while candidate(n) <= after
      invariant 1 <= n <= m && forall k :: 1 <= k < n ==> candidate(k) <= after
      decreases m - n
    {
      n := n + 1;
    }
  }

  lemma {:induction false} FindsSome(candidate: int -> int, start: int, after: int, tries: nat, n: int)
    requires start <= n < start + tries && candidate(n) > after
    ensures FirstFrom(candidate, start, after, tries).Some? && start <= FirstFrom(candidate, start, after, tries).value
    decreases tries
  {
    if candidate(start) <= after { FindsSome(candidate, start + 1, after, tries - 1, n); }
  }

  /**
   * A search that starts at most one occurrence too late, and reaches one after the instant, returns the first one
   * exactly when the occurrence just before its start is not after the instant.
   */
  lemma {:induction false} SearchExactly(candidate: int -> int, after: int, start: int, reached: int)
    requires start >= 1 && forall k :: 1 <= k <= start - 2 ==> candidate(k) <= after
    requires start <= reached < start + 4 && candidate(reached) > after
    ensures var found := FirstFrom(candidate, start, after, 4);
      && found.Some? && start <= found.value
      && (First(candidate, after, found.value) <==> start == 1 || candidate(start - 1) <= after)
  {
    FindsSome(candidate, start, after, 4, reached);
    if start == 1 || candidate(start - 1) <= after {
      forall k | 1 <= k < start ensures candidate(k) <= after {
        if k < start - 1 { assert 1 <= k <= start - 2; }
      }
      var n := LeastExists(candidate, after, reached);
      StartsInTime(candidate, after, n, start);
    } else {
      assert 1 <= start - 1 && candidate(start - 1) > after;
    }
  }

  /** The first occurrence after the instant, and none after the instant is earlier. */
  ghost predicate Least(candidate: int -> int, after: int, n: int) {
    First(candidate, after, n) && forall k :: k >= 1 && candidate(k) > after ==> candidate(n) <= candidate(k)
  }

  ghost predicate Rising(candidate: int -> int) {
    forall j, k :: 1 <= j < k ==> candidate(j) <= candidate(k)
  }

  /** In a schedule that never goes back the first occurrence after the instant is the least. */
  lemma {:induction false} FirstIsLeast(candidate: int -> int, after: int, n: int)
    requires First(candidate, after, n) && Rising(candidate)
    ensures Least(candidate, after, n)
  {
  }
}
