/** Five-field cron expressions: expanding a field, and finding the next matching minute. */
module Cron {
  import opened Basics
  import opened Calendar

  // ----- Parsing -----

  function Split(s: string, sep: char): (parts: seq<string>)
    ensures |parts| >= 1
  {
    if s == [] then [[]]
    else
      var rest := Split(s[1..], sep);
      if s[0] == sep then [[]] + rest else [[s[0]] + rest[0]] + rest[1..]
  }

  predicate Digits(s: string) {
    s != [] && forall i :: 0 <= i < |s| ==> '0' <= s[i] <= '9'
  }

  function Value(s: string): nat
    requires forall i :: 0 <= i < |s| ==> '0' <= s[i] <= '9'
  {
    if s == [] then 0 else 10 * Value(s[..|s| - 1]) + (s[|s| - 1] as int - '0' as int)
  }

  /** Go's decimal conversion: an optional sign, digits, and a 64-bit result. */
  function Atoi(s: string): Option<int> {
    var negative := s != [] && s[0] == '-';
    var digits := if s != [] && (s[0] == '-' || s[0] == '+') then s[1..] else s;
    if !Digits(digits) then None
    else
      var n: int := if negative then -(Value(digits) as int) else Value(digits);
      if MIN_INT64 <= n <= MAX_INT64 then Some(n) else None
  }

  /** One item of a field: every `step`-th value from `lo` to `hi`. */
  datatype Range = Range(lo: int, hi: int, step: int)

  function StepOf(parts: seq<string>, max: int): Option<int>
    requires |parts| >= 1
  {
    if |parts| > 2 then None
    else if |parts| == 1 then Some(1)
    else
      var n := Atoi(parts[1]);
      if n.None? || n.value < 1 || n.value > max + 1 then None else n
  }

  function BoundsOf(parts: seq<string>, min: int, max: int): Option<(int, int)>
    requires |parts| >= 1
  {
    if parts[0] == "*" then Some((min, max))
    else
      var bounds := Split(parts[0], '-');
      var lo := Atoi(bounds[0]);
      if lo.None? || |bounds| > 2 then None
      else if |bounds| == 2 then
        var hi := Atoi(bounds[1]);
        if hi.None? then None else Some((lo.value, hi.value))
      else Some((lo.value, if |parts| == 2 then max else lo.value))
  }

  function RangeOf(item: string, min: int, max: int): Option<Range> {
    var parts := Split(item, '/');
    var step := StepOf(parts, max);
    var bounds := BoundsOf(parts, min, max);
    if step.None? || bounds.None? then None
    else if bounds.value.0 < min || bounds.value.1 > max || bounds.value.0 > bounds.value.1 then None
    else Some(Range(bounds.value.0, bounds.value.1, step.value))
  }

  function At(r: Range, k: int): int {
    r.lo + k * r.step
  }

  ghost predicate Covers(r: Range, n: int) {
    n <= r.hi && exists k: nat :: At(r, k) == n
  }

  lemma {:induction false} RangeSound(item: string, min: int, max: int)
    requires RangeOf(item, min, max).Some?
    ensures var r := RangeOf(item, min, max).value; r.step >= 1 && min <= r.lo <= r.hi <= max
  {
  }

  ghost predicate Selected(item: string, min: int, max: int, n: int) {
    RangeOf(item, min, max).Some? && Covers(RangeOf(item, min, max).value, n)
  }

  predicate ValidItem(item: string, min: int, max: int) {
    RangeOf(item, min, max).Some?
  }

  predicate ValidField(items: seq<string>, min: int, max: int) {
    forall i :: 0 <= i < |items| ==> ValidItem(items[i], min, max)
  }

  /** Some of the first `k` items covers the value. */
  ghost predicate InField(items: seq<string>, k: nat, min: int, max: int, n: int)
    requires k <= |items|
  {
    exists i :: 0 <= i < k && Selected(items[i], min, max, n)
  }

  /** A field is valid when every comma-separated item is, and then holds exactly the values some item covers. */
  method CronSet(s: string, min: int, max: int) returns (out: Option<set<int>>)
    ensures out.Some? <==> ValidField(Split(s, ','), min, max)
    ensures out.Some? ==> forall n :: n in out.value <==> InField(Split(s, ','), |Split(s, ',')|, min, max, n)
    ensures out.Some? ==> forall n :: n in out.value ==> min <= n <= max
  {
    out := FieldSet(Split(s, ','), min, max);
  }

  method FieldSet(items: seq<string>, min: int, max: int) returns (out: Option<set<int>>)
    ensures out.Some? <==> ValidField(items, min, max)
    ensures out.Some? ==> FieldIs(items, |items|, min, max, out.value)
  {
    var values := {};
    FieldStarts(items, min, max);
    for k := 0 to |items|
      invariant forall i :: 0 <= i < k ==> ValidItem(items[i], min, max)
      invariant FieldIs(items, k, min, max, values)
    {
      var more := ItemSet(items[k], min, max);
      if more.None? { return None; }
      FieldGrows(items, k, min, max, values, more.value);
      values := values + more.value;
    }
    return Some(values);
  }

  /** The values that the first `k` items cover, all in range. */
  ghost predicate FieldIs(items: seq<string>, k: nat, min: int, max: int, values: set<int>)
    requires k <= |items|
  {
    (forall n :: n in values <==> InField(items, k, min, max, n)) && forall n :: n in values ==> min <= n <= max
  }

  lemma {:induction false} FieldStarts(items: seq<string>, min: int, max: int)
    ensures FieldIs(items, 0, min, max, {})
  {
  }

  ghost predicate ItemIs(item: string, min: int, max: int, values: set<int>) {
    (forall n :: n in values <==> Selected(item, min, max, n)) && forall n :: n in values ==> min <= n <= max
  }

  method ItemSet(item: string, min: int, max: int) returns (out: Option<set<int>>)
    ensures out.Some? <==> ValidItem(item, min, max)
    ensures out.Some? ==> ItemIs(item, min, max, out.value)
  {
    var range := RangeOf(item, min, max);
    if range.None? { return None; }
    RangeSound(item, min, max);
    var values := Expand(range.value);
    return Some(values);
  }

  lemma {:induction false} FieldGrows(items: seq<string>, k: nat, min: int, max: int, values: set<int>, more: set<int>)
    requires k < |items| && FieldIs(items, k, min, max, values) && ItemIs(items[k], min, max, more)
    ensures FieldIs(items, k + 1, min, max, values + more)
  {
    forall n ensures n in values + more <==> InField(items, k + 1, min, max, n) { OneMore(items, k, min, max, n); }
  }

  lemma {:induction false} OneMore(items: seq<string>, k: nat, min: int, max: int, n: int)
    requires k < |items|
    ensures InField(items, k + 1, min, max, n) <==> InField(items, k, min, max, n) || Selected(items[k], min, max, n)
  {
  }

  method Expand(r: Range) returns (out: set<int>)
    requires r.step >= 1 && r.lo <= r.hi
    ensures forall n :: n in out <==> Covers(r, n)
    ensures forall n :: n in out ==> r.lo <= n <= r.hi
  {
    out := {};
    var n := r.lo;
    ghost var i := 0;
    while n <= r.hi
      invariant i >= 0 && n == At(r, i)
      invariant forall m :: m in out <==> exists k :: 0 <= k < i && At(r, k) == m
      invariant forall m :: m in out ==> r.lo <= m <= r.hi
      decreases r.hi - n
    {
      AtGrows(r, 0, i);
      AtNext(r, i);
      out := out + {n};
      n := n + r.step;
      i := i + 1;
    }
    forall k: nat | k >= i ensures At(r, k) > r.hi { AtGrows(r, i, k); }
  }

  lemma {:induction false} AtGrows(r: Range, i: int, k: int)
    requires r.step >= 1 && i <= k
    ensures At(r, i) <= At(r, k)
  {
    assert At(r, k) - At(r, i) == (k - i) * r.step;
  }

  lemma {:induction false} AtNext(r: Range, i: int)
    ensures At(r, i + 1) == At(r, i) + r.step
  {
  }

  // ----- The expression -----

  function WordEnd(s: string): (n: nat)
    ensures n <= |s| && (s != [] && !BlankChar(s[0]) ==> n > 0)
  {
    if s == [] || BlankChar(s[0]) then 0 else 1 + WordEnd(s[1..])
  }

  /** The words of a text, between blanks. */
  function Words(s: string): seq<string> {
    if s == [] then []
    else if BlankChar(s[0]) then Words(s[1..])
    else [s[..WordEnd(s)]] + Words(s[WordEnd(s)..])
  }

  /** Minutes, hours, days of the month, months, days of the week. */
  const LEAST := [0, 0, 1, 1, 0]
  const GREATEST := [59, 23, 31, 12, 6]

  predicate ValidExpression(words: seq<string>) {
    |words| == 5 && forall i :: 0 <= i < 5 ==> ValidWord(words, i)
  }

  predicate ValidWord(words: seq<string>, i: nat)
    requires i < |words| == 5
  {
    ValidField(Split(words[i], ','), LEAST[i], GREATEST[i])
  }

  /** Field `i` holds the value. */
  ghost predicate Holds(words: seq<string>, i: nat, n: int)
    requires i < |words| == 5
  {
    InField(Split(words[i], ','), |Split(words[i], ',')|, LEAST[i], GREATEST[i], n)
  }

  /** The five values of a wall time; day 0 is a Saturday. */
  function ValueAt(wall: int, i: nat): int
    requires i < 5
  {
    if i == 0 then wall / MINUTE % 60
    else if i == 1 then wall / HOUR % 24
    else if i == 2 then DayOf(wall)
    else if i == 3 then MonthAt(wall) % 12 + 1
    else (wall / DAY + 6) % 7
  }

  /** With both day fields restricted, either may match. */
  ghost predicate Fires(words: seq<string>, wall: int)
    requires |words| == 5
  {
    var day, week := Holds(words, 2, ValueAt(wall, 2)), Holds(words, 4, ValueAt(wall, 4));
    && Holds(words, 0, ValueAt(wall, 0)) && Holds(words, 1, ValueAt(wall, 1)) && Holds(words, 3, ValueAt(wall, 3))
    && if words[2] != "*" && words[4] != "*" then day || week else day && week
  }

  ghost predicate IsField(words: seq<string>, i: nat, values: set<int>)
    requires i < |words| == 5
  {
    forall n :: n in values <==> Holds(words, i, n)
  }

  ghost predicate Expanded(words: seq<string>, sets: seq<set<int>>, k: nat)
    requires |words| == 5 && k <= 5
  {
    |sets| == k && forall i :: 0 <= i < k ==> IsField(words, i, sets[i])
  }

  predicate Matches(words: seq<string>, sets: seq<set<int>>, wall: int)
    requires |words| == 5 && |sets| == 5
  {
    var day, week := ValueAt(wall, 2) in sets[2], ValueAt(wall, 4) in sets[4];
    && ValueAt(wall, 0) in sets[0] && ValueAt(wall, 1) in sets[1] && ValueAt(wall, 3) in sets[3]
    && if words[2] != "*" && words[4] != "*" then day || week else day && week
  }

  lemma {:induction false} MatchesFires(words: seq<string>, sets: seq<set<int>>, wall: int)
    requires |words| == 5 && Expanded(words, sets, 5)
    ensures Matches(words, sets, wall) <==> Fires(words, wall)
  {
    assert IsField(words, 0, sets[0]) && IsField(words, 1, sets[1]) && IsField(words, 2, sets[2])
      && IsField(words, 3, sets[3]) && IsField(words, 4, sets[4]);
  }

  method ParseWord(words: seq<string>, i: nat) returns (values: Option<set<int>>)
    requires i < |words| == 5
    ensures values.Some? <==> ValidWord(words, i)
    ensures values.Some? ==> IsField(words, i, values.value)
  {
    values := CronSet(words[i], LEAST[i], GREATEST[i]);
  }

  method Parse(words: seq<string>) returns (sets: Option<seq<set<int>>>)
    ensures sets.Some? <==> ValidExpression(words)
    ensures sets.Some? ==> Expanded(words, sets.value, 5)
  {
    if |words| != 5 { return None; }
    var done: seq<set<int>> := [];
    for i := 0 to 5
      invariant Expanded(words, done, i)
      invariant forall j :: 0 <= j < i ==> ValidWord(words, j)
    {
      var one := ParseWord(words, i);
      if one.None? { return None; }
      done := done + [one.value];
    }
    return Some(done);
  }

  // ----- The next minute -----

  /** The first minute strictly after an instant. */
  function FirstMinute(after: int): (t: int)
    ensures after < t <= after + MINUTE && t % MINUTE == 0
  {
    after - after % MINUTE + MINUTE
  }

  /** The same date and time five years on, in the zone the instant is given in. */
  function FiveYearsOn(here: int -> int, t: int): int {
    var wall := Local(here, t);
    FromLocal(here, Civil(MonthAt(wall) + 60, DayOf(wall), TimeOf(wall)))
  }

  /** The least minute after the instant, and within five years, at which the expression fires. */
  ghost predicate IsNextRun(words: seq<string>, offset: int -> int, here: int -> int, after: int, next: Option<int>)
    requires |words| == 5
  {
    var end := FiveYearsOn(here, FirstMinute(after));
    && (next.Some? ==> after < next.value < end && next.value % MINUTE == 0 && Fires(words, Local(offset, next.value)))
    && forall t :: after < t && t % MINUTE == 0 && (t < if next.Some? then next.value else end) ==> !Fires(words, Local(offset, t))
  }

  /** Refuses a malformed expression; otherwise finds the next run, or nothing only if there is none. */
  method NextRun(expression: string, offset: int -> int, here: int -> int, after: int) returns (next: Option<int>)
    ensures if ValidExpression(Words(expression)) then IsNextRun(Words(expression), offset, here, after, next) else next.None?
  {
    var words := Words(expression);
    var parsed := Parse(words);
    if parsed.None? { return None; }
    var fires := Firing(words, parsed.value, offset);
    next := Search(fires, after, FiveYearsOn(here, FirstMinute(after)));
    FoundFires(words, parsed.value, offset, here, after, next);
  }

  function Firing(words: seq<string>, sets: seq<set<int>>, offset: int -> int): int -> bool
    requires |words| == 5 && |sets| == 5
  {
    t => Matches(words, sets, Local(offset, t))
  }

  /** The first minute after the instant and before `end` that fires. */
  ghost predicate FirstFiring(fires: int -> bool, after: int, end: int, next: Option<int>) {
    && (next.Some? ==> after < next.value < end && next.value % MINUTE == 0 && fires(next.value))
    && forall t :: after < t && t % MINUTE == 0 && (t < if next.Some? then next.value else end) ==> !fires(t)
  }

  method Search(fires: int -> bool, after: int, end: int) returns (next: Option<int>)
    ensures FirstFiring(fires, after, end, next)
  {
    var t := FirstMinute(after);
    while t < end
      invariant t % MINUTE == 0 && t > after
      invariant forall u :: after < u < t && u % MINUTE == 0 ==> !fires(u)
      decreases end - t
    {
      if fires(t) { return Some(t); }
      NoneBetween(t);
      t := t + MINUTE;
    }
    return None;
  }

  lemma {:induction false} FoundFires(words: seq<string>, sets: seq<set<int>>, offset: int -> int, here: int -> int, after: int, next: Option<int>)
    requires |words| == 5 && Expanded(words, sets, 5)
    requires FirstFiring(Firing(words, sets, offset), after, FiveYearsOn(here, FirstMinute(after)), next)
    ensures IsNextRun(words, offset, here, after, next)
  {
    forall t ensures Firing(words, sets, offset)(t) <==> Fires(words, Local(offset, t)) {
      MatchesFires(words, sets, Local(offset, t));
    }
  }

  lemma {:induction false} NoneBetween(t: int)
    requires t % MINUTE == 0
    ensures (t + MINUTE) % MINUTE == 0
    ensures forall u :: t < u < t + MINUTE ==> u % MINUTE != 0
  {
  }
}
