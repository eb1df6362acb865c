/**
 * Whole runs of the limiter: checks with any buckets, and prunes of any expired records, in store-time
 * order and with one quota per key.
 */
module RateLimitRuns {
  import Names
  import opened RateLimit
  import opened RateLimiter
  import opened RateLimitTokens

  datatype Event = Check(now: nat, buckets: seq<Bucket>) | Prune(now: nat, gone: set<string>)

  type Quotas = map<string, Bucket>

  /** Dropping records; only expired ones may go. */
  function Without(records: Records, gone: set<string>): Records {
    map k | k in records && k !in gone :: records[k]
  }

  predicate Expired(records: Records, gone: set<string>, now: nat) {
    forall k :: k in gone && k in records ==> records[k].expiresAt <= now
  }

  function Next(records: Records, e: Event, limit: nat): Records {
    match e
    case Check(now, buckets) => Decide(records, buckets, now, limit).0
    case Prune(now, gone) => Without(records, gone)
  }

  /** The records before event `n`. */
  function RecordsAt(events: seq<Event>, limit: nat, n: nat): Records
    requires n <= |events|
  {
    if n == 0 then map[] else Next(RecordsAt(events, limit, n - 1), events[n - 1], limit)
  }

  function OutcomeAt(events: seq<Event>, limit: nat, i: nat): Outcome
    requires i < |events| && events[i].Check?
  {
    Decide(RecordsAt(events, limit, i), events[i].buckets, events[i].now, limit).1
  }

  predicate Admits(events: seq<Event>, limit: nat, i: nat)
    requires i < |events|
  {
    events[i].Check? && OutcomeAt(events, limit, i).Allowed?
  }

  /** Store time never goes back, and prunes take only expired records. */
  predicate Orderly(events: seq<Event>, limit: nat) {
    && (forall i, j :: 0 <= i < j < |events| ==> events[i].now <= events[j].now)
    && (forall i :: 0 <= i < |events| && events[i].Prune? ==>
         Expired(RecordsAt(events, limit, i), events[i].gone, events[i].now))
  }

  predicate UsesQuotas(quotas: Quotas, buckets: seq<Bucket>) {
    forall i :: 0 <= i < |buckets| ==> buckets[i].key in quotas && quotas[buckets[i].key] == buckets[i]
  }

  predicate FixedQuotas(events: seq<Event>, quotas: Quotas) {
    && (forall k :: k in quotas ==> quotas[k].key == k && Valid(quotas[k]))
    && (forall i :: 0 <= i < |events| && events[i].Check? && WellFormed(events[i].buckets) ==> UsesQuotas(quotas, events[i].buckets))
  }

  /** The instant the limiter has seen before event `n`. */
  function Seen(events: seq<Event>, n: nat): nat
    requires n <= |events|
  {
    if n == 0 then 0 else Trunc(events[n - 1].now)
  }

  lemma {:induction false} SeenLater(events: seq<Event>, limit: nat, n: nat)
    requires Orderly(events, limit) && n < |events|
    ensures Seen(events, n) <= Trunc(events[n].now)
  {
    if n > 0 {
      assert events[n - 1].now <= events[n].now;
      TruncMonotone(events[n - 1].now, events[n].now);
    }
  }

  lemma {:induction false} TruncMonotone(a: nat, b: nat)
    requires a <= b
    ensures Trunc(a) <= Trunc(b)
  {
    assert Trunc(a) == (a / MICROSECOND) * MICROSECOND;
    assert Trunc(b) == (b / MICROSECOND) * MICROSECOND;
  }

  // ----- What one check does to each key -----

  /** An admitted check charges every bucket it names; any other key keeps its record or loses an expired one. */
  lemma {:induction false} ChargesAll(records: Records, buckets: seq<Bucket>, storeNow: nat, limit: nat, key: string)
    requires Decide(records, buckets, storeNow, limit).1.Allowed?
    ensures var after := Decide(records, buckets, storeNow, limit).0; var now := Trunc(storeNow);
      && (forall i :: 0 <= i < |buckets| && buckets[i].key == key ==>
           key in after && after[key] == Charge(records, buckets[i], now))
      && ((forall i :: 0 <= i < |buckets| ==> buckets[i].key != key) ==>
           && (key in after ==> key in records && after[key] == records[key])
           && (key in records && key !in after ==> records[key].expiresAt <= now))
  {
    var now := Trunc(storeNow);
    var base := Base(records, buckets, now);
    ChargedAt(records, base, buckets, |buckets|, now, key);
    KeyIn(buckets, |buckets|, key);
  }

  lemma {:induction false} ChargedAt(before: Records, base: Records, buckets: seq<Bucket>, n: nat, now: nat, key: string)
    requires n <= |buckets| && Distinct(buckets)
    ensures var after := Charged(before, base, buckets, n, now);
      && (forall i :: 0 <= i < n && buckets[i].key == key ==> key in after && after[key] == Charge(before, buckets[i], now))
      && ((forall i :: 0 <= i < n ==> buckets[i].key != key) ==>
           (key in after <==> key in base) && (key in after ==> after[key] == base[key]))
  {
    if n > 0 { ChargedAt(before, base, buckets, n - 1, now, key); }
  }

  /** A check that is not admitted changes nothing. */
  lemma {:induction false} AllOrNone(records: Records, buckets: seq<Bucket>, storeNow: nat, limit: nat)
    ensures !Decide(records, buckets, storeNow, limit).1.Allowed? ==> Decide(records, buckets, storeNow, limit).0 == records
    ensures WellFormed(buckets) ==> (Decide(records, buckets, storeNow, limit).1.Denied? <==>
              exists i :: 0 <= i < |buckets| && !Passes(records, buckets[i], Trunc(storeNow)))
  {
    WaitPositive(records, buckets, |buckets|, Trunc(storeNow));
  }

  lemma {:induction false} WaitPositive(records: Records, buckets: seq<Bucket>, n: nat, now: nat)
    requires n <= |buckets|
    ensures Wait(records, buckets, n, now) > 0 <==> exists i :: 0 <= i < n && !Passes(records, buckets[i], now)
  {
    if n > 0 {
      WaitPositive(records, buckets, n - 1, now);
      assert Passes(records, buckets[n - 1], now) <==> AllowAt(records, buckets[n - 1], now) - now <= 0;
    }
  }

  // ----- The retry time is exact -----

  /** With no charge in between, the wait shrinks by exactly the time that passed. */
  lemma {:induction false} WaitShrinks(records: Records, buckets: seq<Bucket>, n: nat, now: nat, later: nat)
    requires n <= |buckets| && now <= later && forall i :: 0 <= i < |buckets| ==> Positive(buckets[i])
    ensures Wait(records, buckets, n, later) == Max(0, Wait(records, buckets, n, now) - (later - now))
  {
    if n > 0 {
      WaitShrinks(records, buckets, n - 1, now, later);
      Nonnegative(buckets[n - 1], buckets[n - 1].burst - 1);
    }
  }

  // ----- Refinement: the limiter is a family of token buckets -----

  /** One token from each bucket of an admitted check. */
  function FamilyNext(family: Family, e: Event, admitted: bool): Family {
    if admitted && e.Check? && WellFormed(e.buckets) && AllAvailable(family, e.buckets, Trunc(e.now)) then
      TakeAll(family, e.buckets, |e.buckets|, Trunc(e.now))
    else family
  }

  /** The token buckets before event `n`. */
  function FamilyAt(events: seq<Event>, limit: nat, n: nat): Family
    requires n <= |events|
  {
    if n == 0 then map[] else FamilyNext(FamilyAt(events, limit, n - 1), events[n - 1], Admits(events, limit, n - 1))
  }

  predicate Simulates(records: Records, family: Family, quotas: Quotas, now: int)
    requires forall k :: k in quotas ==> quotas[k].key == k && Valid(quotas[k])
  {
    forall k :: k in quotas ==> Agree(records, quotas[k], TokensOf(family, quotas[k]), now)
  }

  lemma {:induction false} TakeAllAt(family: Family, buckets: seq<Bucket>, n: nat, now: int, b: Bucket)
    requires n <= |buckets| && Distinct(buckets) && Valid(b)
    requires (forall i :: 0 <= i < |buckets| ==> Valid(buckets[i])) && AllAvailable(family, buckets, now)
    ensures forall i :: 0 <= i < n && buckets[i] == b ==>
      TokensOf(TakeAll(family, buckets, n, now), b) == Taken(family, b, now)
    ensures (forall i :: 0 <= i < n ==> buckets[i].key != b.key) ==>
      TokensOf(TakeAll(family, buckets, n, now), b) == TokensOf(family, b)
  {
    if n > 0 { TakeAllAt(family, buckets, n - 1, now, b); }
  }

  /** One check denies exactly when some token bucket is empty. */
  lemma {:induction false} CheckAgrees(records: Records, family: Family, quotas: Quotas, last: int, buckets: seq<Bucket>, storeNow: nat, limit: nat)
    requires forall k :: k in quotas ==> quotas[k].key == k && Valid(quotas[k])
    requires Simulates(records, family, quotas, last) && last <= Trunc(storeNow)
    requires WellFormed(buckets) && UsesQuotas(quotas, buckets)
    ensures Decide(records, buckets, storeNow, limit).1.Denied? <==> !AllAvailable(family, buckets, Trunc(storeNow))
  {
    var now := Trunc(storeNow);
    AllOrNone(records, buckets, storeNow, limit);
    forall i | 0 <= i < |buckets|
      ensures Passes(records, buckets[i], now) <==> Available(family, buckets[i], now)
    {
      assert quotas[buckets[i].key] == buckets[i];
      PassesWithToken(records, buckets[i], TokensOf(family, buckets[i]), last, now);
    }
  }

  /** After an admitted check, timestamps and tokens still agree on every key. */
  lemma {:induction false} ChargeSimulates(records: Records, family: Family, quotas: Quotas, last: int, buckets: seq<Bucket>,
                                           storeNow: nat, limit: nat, k: string)
    requires forall q :: q in quotas ==> quotas[q].key == q && Valid(quotas[q])
    requires Sound(records) && Simulates(records, family, quotas, last) && last <= Trunc(storeNow)
    requires Decide(records, buckets, storeNow, limit).1.Allowed? && UsesQuotas(quotas, buckets)
    requires AllAvailable(family, buckets, Trunc(storeNow)) && k in quotas
    ensures Agree(Decide(records, buckets, storeNow, limit).0, quotas[k],
                  TokensOf(TakeAll(family, buckets, |buckets|, Trunc(storeNow)), quotas[k]), Trunc(storeNow))
  {
    var now, b := Trunc(storeNow), quotas[k];
    var after := Decide(records, buckets, storeNow, limit).0;
    ChargesAll(records, buckets, storeNow, limit, k);
    TakeAllAt(family, buckets, |buckets|, now, b);
    if i :| 0 <= i < |buckets| && buckets[i].key == k {
      assert buckets[i] == b;
      assert Available(family, buckets[i], now);
      ChargeTakes(records, b, TokensOf(family, b), last, now, after);
    } else {
      LaterAgrees(records, b, TokensOf(family, b), last, now, after);
    }
  }

  lemma {:induction false} AlwaysSound(events: seq<Event>, limit: nat, n: nat)
    requires n <= |events|
    ensures Sound(RecordsAt(events, limit, n))
    ensures |RecordsAt(events, limit, n)| <= limit
  {
    if n > 0 {
      AlwaysSound(events, limit, n - 1);
      var before := RecordsAt(events, limit, n - 1);
      match events[n - 1]
      case Check(now, buckets) => CapacityKept(before, buckets, now, limit);
      case Prune(now, gone) => Fewer(before, gone);
    }
  }

  lemma {:induction false} Fewer(records: Records, gone: set<string>)
    ensures |Without(records, gone)| <= |records|
  {
    var kept := Without(records, gone);
    assert kept.Keys <= records.Keys;
    Names.SubsetSize(kept.Keys, records.Keys);
    assert |kept| == |kept.Keys| && |records| == |records.Keys|;
  }

  lemma {:induction false} AlwaysSimulates(events: seq<Event>, quotas: Quotas, limit: nat, n: nat)
    requires n <= |events| && FixedQuotas(events, quotas) && Orderly(events, limit)
    ensures Simulates(RecordsAt(events, limit, n), FamilyAt(events, limit, n), quotas, Seen(events, n))
  {
    if n > 0 {
      AlwaysSimulates(events, quotas, limit, n - 1);
      SimulatesNext(events, quotas, limit, n - 1);
    }
  }

  lemma {:induction false} SimulatesNext(events: seq<Event>, quotas: Quotas, limit: nat, i: nat)
    requires i < |events| && FixedQuotas(events, quotas) && Orderly(events, limit)
    requires Simulates(RecordsAt(events, limit, i), FamilyAt(events, limit, i), quotas, Seen(events, i))
    ensures Simulates(RecordsAt(events, limit, i + 1), FamilyAt(events, limit, i + 1), quotas, Seen(events, i + 1))
  {
    AlwaysSound(events, limit, i);
    SeenLater(events, limit, i);
    if Admits(events, limit, i) {
      AdmittedStep(RecordsAt(events, limit, i), FamilyAt(events, limit, i), quotas, Seen(events, i), events[i], limit);
    } else {
      QuietSimulates(events, quotas, limit, i, FamilyAt(events, limit, i));
    }
  }

  lemma {:induction false} AdmittedStep(records: Records, family: Family, quotas: Quotas, last: int, e: Event, limit: nat)
    requires forall k :: k in quotas ==> quotas[k].key == k && Valid(quotas[k])
    requires Sound(records) && Simulates(records, family, quotas, last) && last <= Trunc(e.now)
    requires e.Check? && Decide(records, e.buckets, e.now, limit).1.Allowed? && UsesQuotas(quotas, e.buckets)
    ensures Simulates(Next(records, e, limit), FamilyNext(family, e, true), quotas, Trunc(e.now))
  {
    CheckAgrees(records, family, quotas, last, e.buckets, e.now, limit);
    forall k | k in quotas
      ensures Agree(Next(records, e, limit), quotas[k], TokensOf(FamilyNext(family, e, true), quotas[k]), Trunc(e.now))
    {
      ChargeSimulates(records, family, quotas, last, e.buckets, e.now, limit, k);
    }
  }

  lemma {:induction false} QuietSimulates(events: seq<Event>, quotas: Quotas, limit: nat, i: nat, family: Family)
    requires i < |events| && Orderly(events, limit) && !Admits(events, limit, i) && Sound(RecordsAt(events, limit, i))
    requires forall k :: k in quotas ==> quotas[k].key == k && Valid(quotas[k])
    requires Simulates(RecordsAt(events, limit, i), family, quotas, Seen(events, i))
    ensures Simulates(RecordsAt(events, limit, i + 1), family, quotas, Seen(events, i + 1))
  {
    SeenLater(events, limit, i);
    forall k | k in quotas
      ensures Agree(RecordsAt(events, limit, i + 1), quotas[k], TokensOf(family, quotas[k]), Seen(events, i + 1))
    {
      QuietStep(events, limit, i, k);
      LaterAgrees(RecordsAt(events, limit, i), quotas[k], TokensOf(family, quotas[k]), Seen(events, i), Seen(events, i + 1),
                  RecordsAt(events, limit, i + 1));
    }
  }

  /** An event that admits nothing leaves each record alone, or drops an expired one. */
  lemma {:induction false} QuietStep(events: seq<Event>, limit: nat, i: nat, k: string)
    requires i < |events| && Orderly(events, limit) && !Admits(events, limit, i)
    requires Sound(RecordsAt(events, limit, i))
    ensures var before, after := RecordsAt(events, limit, i), RecordsAt(events, limit, i + 1);
      && (k in after ==> k in before && after[k] == before[k])
      && (k in before && k !in after ==> before[k].micros * MICROSECOND <= Trunc(events[i].now))
  {
    var before := RecordsAt(events, limit, i);
    match events[i]
    case Check(now, buckets) => AllOrNone(before, buckets, now, limit);
    case Prune(now, gone) =>
      if k in before && k in gone {
        assert before[k].expiresAt <= now;
        WholeMicros(before[k].micros, now);
      }
  }

  lemma {:induction false} WholeMicros(micros: int, now: nat)
    requires micros * MICROSECOND <= now
    ensures micros * MICROSECOND <= Trunc(now)
  {
  }

  /** The record of a key is as before, or it was dropped once it had expired. */
  predicate SameOrExpired(before: Records, after: Records, k: string, now: int) {
    && (k in after ==> k in before && after[k] == before[k])
    && (k in before && k !in after ==> before[k].micros * MICROSECOND <= now)
  }

  /** An admitted check charges the key. */
  predicate ChargesKey(events: seq<Event>, limit: nat, i: nat, k: string)
    requires i < |events|
  {
    Admits(events, limit, i) && exists b :: 0 <= b < |events[i].buckets| && events[i].buckets[b].key == k
  }

  lemma {:induction false} StepKeeps(events: seq<Event>, limit: nat, i: nat, k: string)
    requires i < |events| && Orderly(events, limit) && !ChargesKey(events, limit, i, k)
    ensures SameOrExpired(RecordsAt(events, limit, i), RecordsAt(events, limit, i + 1), k, Seen(events, i + 1))
  {
    AlwaysSound(events, limit, i);
    if Admits(events, limit, i) {
      ChargesAll(RecordsAt(events, limit, i), events[i].buckets, events[i].now, limit, k);
    } else {
      QuietStep(events, limit, i, k);
    }
  }

  lemma {:induction false} TrailKeeps(trail: seq<Records>, seen: seq<int>, i: nat, j: nat, k: string)
    requires i <= j < |trail| == |seen| && forall a, b :: 0 <= a <= b < |seen| ==> seen[a] <= seen[b]
    requires forall m :: i <= m < j ==> SameOrExpired(trail[m], trail[m + 1], k, seen[m + 1])
    ensures SameOrExpired(trail[i], trail[j], k, seen[j])
    decreases j
  {
    if i < j {
      TrailKeeps(trail, seen, i, j - 1, k);
      var m := j - 1;
      assert SameOrExpired(trail[m], trail[m + 1], k, seen[m + 1]);
      KeepsThrough(trail[i], trail[m], trail[j], k, seen[m], seen[j]);
    }
  }

  lemma {:induction false} SeenGrows(events: seq<Event>, limit: nat, a: nat, b: nat)
    requires Orderly(events, limit) && a <= b <= |events|
    ensures Seen(events, a) <= Seen(events, b)
  {
    if 0 < a { TruncMonotone(events[a - 1].now, events[b - 1].now); }
  }

  function Trail(events: seq<Event>, limit: nat): seq<Records> {
    seq(|events| + 1, n requires 0 <= n <= |events| => RecordsAt(events, limit, n))
  }

  function SeenTrail(events: seq<Event>): seq<int> {
    seq(|events| + 1, n requires 0 <= n <= |events| => Seen(events, n))
  }

  lemma {:induction false} TrailAt(events: seq<Event>, limit: nat, n: nat)
    requires n <= |events|
    ensures Trail(events, limit)[n] == RecordsAt(events, limit, n) && SeenTrail(events)[n] == Seen(events, n)
  {
  }

  lemma {:induction false} SeenSorted(events: seq<Event>, limit: nat)
    requires Orderly(events, limit)
    ensures forall a, b :: 0 <= a <= b < |SeenTrail(events)| ==> SeenTrail(events)[a] <= SeenTrail(events)[b]
  {
    forall a, b | 0 <= a <= b < |SeenTrail(events)| ensures SeenTrail(events)[a] <= SeenTrail(events)[b] {
      SeenGrows(events, limit, a, b);
    }
  }

  lemma {:induction false} TrailStep(events: seq<Event>, limit: nat, m: nat, k: string)
    requires m < |events| && Orderly(events, limit) && !ChargesKey(events, limit, m, k)
    ensures SameOrExpired(Trail(events, limit)[m], Trail(events, limit)[m + 1], k, SeenTrail(events)[m + 1])
  {
    TrailAt(events, limit, m);
    TrailAt(events, limit, m + 1);
    StepKeeps(events, limit, m, k);
  }

  lemma {:induction false} RunKeepsRecord(events: seq<Event>, limit: nat, i: nat, j: nat, k: string)
    requires i <= j <= |events| && Orderly(events, limit) && forall m :: i <= m < j ==> !ChargesKey(events, limit, m, k)
    ensures SameOrExpired(Trail(events, limit)[i], Trail(events, limit)[j], k, SeenTrail(events)[j])
  {
    var trail, seen := Trail(events, limit), SeenTrail(events);
    SeenSorted(events, limit);
    forall m | i <= m < j ensures SameOrExpired(trail[m], trail[m + 1], k, seen[m + 1]) { TrailStep(events, limit, m, k); }
    TrailKeeps(trail, seen, i, j, k);
  }

  lemma {:induction false} KeepsThrough(a: Records, b: Records, c: Records, k: string, now: int, later: int)
    requires SameOrExpired(a, b, k, now) && SameOrExpired(b, c, k, later) && now <= later
    ensures SameOrExpired(a, c, k, later)
  {
  }

  lemma {:induction false} SameWait(before: Records, after: Records, buckets: seq<Bucket>, n: nat, now: nat)
    requires n <= |buckets| && forall i :: 0 <= i < |buckets| ==> Positive(buckets[i]) && SameOrExpired(before, after, buckets[i].key, now)
    ensures Wait(after, buckets, n, now) == Wait(before, buckets, n, now)
  {
    if n > 0 {
      SameWait(before, after, buckets, n - 1, now);
      Nonnegative(buckets[n - 1], buckets[n - 1].burst - 1);
    }
  }

  /**
   * A denied check that is made again is denied exactly until the promised instant, as long as no key it names was
   * charged in between: whatever else was checked, reclaimed or pruned.
   */
  lemma {:induction false} RetryAfterExact(events: seq<Event>, limit: nat, i: nat, j: nat)
    requires i < j < |events| && Orderly(events, limit) && events[i].Check? && events[j].Check? && events[j].buckets == events[i].buckets
    requires OutcomeAt(events, limit, i).Denied?
    requires forall m, b :: i < m < j && 0 <= b < |events[i].buckets| ==> !ChargesKey(events, limit, m, events[i].buckets[b].key)
    ensures var retryAfter := OutcomeAt(events, limit, i).retryAfter;
      && retryAfter > 0
      && (OutcomeAt(events, limit, j).Denied? <==> Trunc(events[j].now) < Trunc(events[i].now) + retryAfter)
  {
    var buckets, before, after := events[i].buckets, RecordsAt(events, limit, i), RecordsAt(events, limit, j);
    var now, later := Trunc(events[i].now), Trunc(events[j].now);
    TruncMonotone(events[i].now, events[j].now);
    SeenLater(events, limit, j);
    forall b | 0 <= b < |buckets| ensures Positive(buckets[b]) && SameOrExpired(before, after, buckets[b].key, later) {
      assert Valid(buckets[b]);
      RunKeepsRecord(events, limit, i, j, buckets[b].key);
    }
    WaitShrinks(before, buckets, |buckets|, now, later);
    SameWait(before, after, buckets, |buckets|, later);
  }

  /**
   * In every run, a well-formed check is denied exactly when some token bucket it names has no token. Capacity
   * is the only other reason not to admit it.
   */
  lemma {:induction false} DecidesAsTokenBuckets(events: seq<Event>, quotas: Quotas, limit: nat, i: nat)
    requires FixedQuotas(events, quotas) && Orderly(events, limit)
    requires i < |events| && events[i].Check? && WellFormed(events[i].buckets)
    ensures OutcomeAt(events, limit, i).Denied? <==>
      !AllAvailable(FamilyAt(events, limit, i), events[i].buckets, Trunc(events[i].now))
    ensures Admits(events, limit, i) <==>
      && AllAvailable(FamilyAt(events, limit, i), events[i].buckets, Trunc(events[i].now))
      && !OutcomeAt(events, limit, i).Capacity?
  {
    AlwaysSimulates(events, quotas, limit, i);
    SeenLater(events, limit, i);
    CheckAgrees(RecordsAt(events, limit, i), FamilyAt(events, limit, i), quotas, Seen(events, i),
                events[i].buckets, events[i].now, limit);
  }

  // ----- Pruning is invisible -----

  predicate SameChecks(e: Event, f: Event) {
    e.now == f.now && e.Check? == f.Check? && (e.Check? ==> e.buckets == f.buckets)
  }

  predicate NoCapacityErrors(events: seq<Event>, limit: nat) {
    forall i :: 0 <= i < |events| && events[i].Check? ==> !OutcomeAt(events, limit, i).Capacity?
  }

  /** Two runs with the same token buckets so far admit the same check. */
  lemma {:induction false} SameAdmission(a: seq<Event>, b: seq<Event>, quotas: Quotas, limitA: nat, limitB: nat, i: nat)
    requires i < |a| && i < |b| && SameChecks(a[i], b[i])
    requires FixedQuotas(a, quotas) && FixedQuotas(b, quotas) && Orderly(a, limitA) && Orderly(b, limitB)
    requires a[i].Check? ==> !OutcomeAt(a, limitA, i).Capacity? && !OutcomeAt(b, limitB, i).Capacity?
    requires FamilyAt(a, limitA, i) == FamilyAt(b, limitB, i)
    ensures Admits(a, limitA, i) <==> Admits(b, limitB, i)
  {
    if a[i].Check? && WellFormed(a[i].buckets) {
      DecidesAsTokenBuckets(a, quotas, limitA, i);
      DecidesAsTokenBuckets(b, quotas, limitB, i);
    }
  }

  lemma {:induction false} SameFamily(a: seq<Event>, b: seq<Event>, quotas: Quotas, limitA: nat, limitB: nat, n: nat)
    requires n <= |a| == |b| && forall i :: 0 <= i < |a| ==> SameChecks(a[i], b[i])
    requires FixedQuotas(a, quotas) && FixedQuotas(b, quotas) && Orderly(a, limitA) && Orderly(b, limitB)
    requires NoCapacityErrors(a, limitA) && NoCapacityErrors(b, limitB)
    ensures FamilyAt(a, limitA, n) == FamilyAt(b, limitB, n)
  {
    for i := 0 to n
      invariant FamilyAt(a, limitA, i) == FamilyAt(b, limitB, i)
    {
      SameStep(a, b, quotas, limitA, limitB, i);
    }
  }

  lemma {:induction false} SameStep(a: seq<Event>, b: seq<Event>, quotas: Quotas, limitA: nat, limitB: nat, i: nat)
    requires i < |a| && i < |b| && SameChecks(a[i], b[i])
    requires FixedQuotas(a, quotas) && FixedQuotas(b, quotas) && Orderly(a, limitA) && Orderly(b, limitB)
    requires NoCapacityErrors(a, limitA) && NoCapacityErrors(b, limitB)
    requires FamilyAt(a, limitA, i) == FamilyAt(b, limitB, i)
    ensures FamilyAt(a, limitA, i + 1) == FamilyAt(b, limitB, i + 1)
  {
    SameAdmission(a, b, quotas, limitA, limitB, i);
    SameNext(a, b, limitA, limitB, i);
  }

  lemma {:induction false} SameNext(a: seq<Event>, b: seq<Event>, limitA: nat, limitB: nat, i: nat)
    requires i < |a| && i < |b| && SameChecks(a[i], b[i]) && Admits(a, limitA, i) == Admits(b, limitB, i)
    requires FamilyAt(a, limitA, i) == FamilyAt(b, limitB, i)
    ensures FamilyAt(a, limitA, i + 1) == FamilyAt(b, limitB, i + 1)
  {
    var family, admitted := FamilyAt(a, limitA, i), Admits(a, limitA, i);
    assert FamilyNext(family, a[i], admitted) == FamilyNext(family, b[i], admitted);
  }

  /** Deleting expired records, by pruning or by reclaiming, never changes a later quota decision. */
  lemma {:induction false} PruningUnseen(a: seq<Event>, b: seq<Event>, quotas: Quotas, limitA: nat, limitB: nat, i: nat)
    requires i < |a| == |b| && a[i].Check? && forall j :: 0 <= j < |a| ==> SameChecks(a[j], b[j])
    requires FixedQuotas(a, quotas) && FixedQuotas(b, quotas) && Orderly(a, limitA) && Orderly(b, limitB)
    requires NoCapacityErrors(a, limitA) && NoCapacityErrors(b, limitB)
    ensures Admits(a, limitA, i) <==> Admits(b, limitB, i)
  {
    SameFamily(a, b, quotas, limitA, limitB, i);
    SameAdmission(a, b, quotas, limitA, limitB, i);
  }

  // ----- A window admits at most the burst plus what refills in it -----

  /** Every check that names the bucket's key gives it this quota. */
  predicate OneQuota(events: seq<Event>, b: Bucket) {
    forall i, j :: 0 <= i < |events| && events[i].Check? && 0 <= j < |events[i].buckets| && events[i].buckets[j].key == b.key ==>
      events[i].buckets[j] == b
  }

  predicate AdmitsKey(events: seq<Event>, limit: nat, i: nat, key: string)
    requires i < |events|
  {
    Admits(events, limit, i) && exists j :: 0 <= j < |events[i].buckets| && events[i].buckets[j].key == key
  }

  /** How many checks naming `key` were admitted among events `i` up to `j`. */
  function Admitted(events: seq<Event>, limit: nat, key: string, i: nat, j: nat): nat
    requires i <= j <= |events|
  {
    if i == j then 0
    else Admitted(events, limit, key, i, j - 1) + if AdmitsKey(events, limit, j - 1, key) then 1 else 0
  }

  /** The instant at which the bucket is full again, never before now. */
  function Level(records: Records, key: string, now: int): int {
    if key in records then Max(records[key].micros * MICROSECOND, now) else now
  }

  /** Each admission raises the level by one interval, and leaves it at most a burst above now. */
  lemma {:induction false} ChargeRaises(records: Records, buckets: seq<Bucket>, storeNow: nat, limit: nat, j: nat)
    requires j < |buckets| && Decide(records, buckets, storeNow, limit).1.Allowed?
    ensures var after, now, b := Decide(records, buckets, storeNow, limit).0, Trunc(storeNow), buckets[j];
      && Level(after, b.key, now) == Level(records, b.key, now) + b.interval
      && Level(after, b.key, now) <= now + b.burst * b.interval
  {
    var now, b := Trunc(storeNow), buckets[j];
    assert Valid(b);
    ChargesAll(records, buckets, storeNow, limit, b.key);
    ChargeSound(records, b, now);
    WaitPositive(records, buckets, |buckets|, now);
    assert Passes(records, buckets[j], now);
    BurstAbove(b, Tat(records, b.key, now), now);
  }

  lemma {:induction false} BurstAbove(b: Bucket, tat: int, now: int)
    requires Positive(b) && tat - (b.burst - 1) * b.interval <= now
    ensures Max(tat, now) + b.interval <= now + b.burst * b.interval
  {
    assert (b.burst - 1) * b.interval + b.interval == b.burst * b.interval;
    Nonnegative(b, b.burst - 1);
  }

  lemma {:induction false} AdmissionRaises(events: seq<Event>, b: Bucket, limit: nat, i: nat)
    requires i < |events| && OneQuota(events, b) && AdmitsKey(events, limit, i, b.key)
    ensures var now := Trunc(events[i].now);
      && Level(RecordsAt(events, limit, i + 1), b.key, now) == Level(RecordsAt(events, limit, i), b.key, now) + b.interval
      && Level(RecordsAt(events, limit, i + 1), b.key, now) <= now + b.burst * b.interval
  {
    var e := events[i];
    var j :| 0 <= j < |e.buckets| && e.buckets[j].key == b.key;
    assert events[i].buckets[j] == b;
    ChargeRaises(RecordsAt(events, limit, i), e.buckets, e.now, limit, j);
  }

  /** No other event lowers the level. */
  lemma {:induction false} LevelKept(events: seq<Event>, limit: nat, i: nat, key: string)
    requires i < |events| && Orderly(events, limit) && Sound(RecordsAt(events, limit, i)) && !AdmitsKey(events, limit, i, key)
    ensures var now := Trunc(events[i].now);
      Level(RecordsAt(events, limit, i + 1), key, now) == Level(RecordsAt(events, limit, i), key, now)
  {
    if Admits(events, limit, i) {
      ChargesAll(RecordsAt(events, limit, i), events[i].buckets, events[i].now, limit, key);
    } else {
      QuietStep(events, limit, i, key);
    }
  }

  function Rise(events: seq<Event>, b: Bucket, limit: nat, i: nat): int
    requires i < |events|
  {
    if AdmitsKey(events, limit, i, b.key) then b.interval else 0
  }

  /** One event raises the level by an interval if it admits the key, and never lowers it. */
  lemma {:induction false} LevelStep(events: seq<Event>, b: Bucket, limit: nat, i: nat)
    requires i < |events| && Orderly(events, limit) && OneQuota(events, b)
    ensures var next := Level(RecordsAt(events, limit, i + 1), b.key, Seen(events, i + 1));
      && next >= Level(RecordsAt(events, limit, i), b.key, Seen(events, i)) + Rise(events, b, limit, i)
      && next >= Seen(events, i + 1) + Rise(events, b, limit, i)
  {
    AlwaysSound(events, limit, i);
    SeenLater(events, limit, i);
    if AdmitsKey(events, limit, i, b.key) {
      AdmissionRaises(events, b, limit, i);
    } else {
      LevelKept(events, limit, i, b.key);
    }
  }

  /** How far the events of a window raise the level. */
  function Raised(events: seq<Event>, b: Bucket, limit: nat, i: nat, j: nat): int
    requires i <= j <= |events|
  {
    if i == j then 0 else Raised(events, b, limit, i, j - 1) + Rise(events, b, limit, j - 1)
  }

  lemma {:induction false} RaisedIs(events: seq<Event>, b: Bucket, limit: nat, i: nat, j: nat)
    requires i <= j <= |events|
    ensures Raised(events, b, limit, i, j) == Admitted(events, limit, b.key, i, j) * b.interval
  {
    if i < j {
      RaisedIs(events, b, limit, i, j - 1);
      OneMore(Admitted(events, limit, b.key, i, j - 1), AdmitsKey(events, limit, j - 1, b.key), b.interval);
    }
  }

  lemma {:induction false} OneMore(n: nat, more: bool, interval: int)
    ensures (n + if more then 1 else 0) * interval == n * interval + if more then interval else 0
  {
    assert (n + 1) * interval == n * interval + interval;
  }

  lemma {:induction false} LevelRises(events: seq<Event>, b: Bucket, limit: nat, i: nat, j: nat)
    requires i < j <= |events| && Orderly(events, limit) && OneQuota(events, b)
    ensures Seen(events, i + 1) + Raised(events, b, limit, i, j) <= Level(RecordsAt(events, limit, j), b.key, Seen(events, j))
  {
    LevelStep(events, b, limit, j - 1);
    if i < j - 1 { LevelRises(events, b, limit, i, j - 1); }
  }

  /** Up to the last admission, the admissions of a key are covered by its burst and the time elapsed. */
  lemma {:induction false} WindowProduct(events: seq<Event>, b: Bucket, limit: nat, i: nat, j: nat)
    requires i < j <= |events| && Orderly(events, limit) && OneQuota(events, b) && Positive(b)
    ensures Admitted(events, limit, b.key, i, j) * b.interval
      <= b.burst * b.interval + (Trunc(events[j - 1].now) - Trunc(events[i].now))
  {
    if AdmitsKey(events, limit, j - 1, b.key) {
      WindowTo(events, b, limit, i, j - 1);
    } else if i < j - 1 {
      WindowProduct(events, b, limit, i, j - 1);
      SeenLater(events, limit, j - 1);
    } else {
      Nonnegative(b, b.burst);
    }
  }

  lemma {:induction false} WindowTo(events: seq<Event>, b: Bucket, limit: nat, i: nat, last: nat)
    requires i <= last < |events| && Orderly(events, limit) && OneQuota(events, b) && AdmitsKey(events, limit, last, b.key)
    ensures Admitted(events, limit, b.key, i, last + 1) * b.interval
      <= b.burst * b.interval + (Trunc(events[last].now) - Trunc(events[i].now))
  {
    LevelRises(events, b, limit, i, last + 1);
    RaisedIs(events, b, limit, i, last + 1);
    AdmissionRaises(events, b, limit, last);
  }

  /** In any window of events the admissions of a key are at most its burst plus one per whole interval elapsed. */
  lemma {:induction false} WindowBound(events: seq<Event>, b: Bucket, limit: nat, i: nat, j: nat)
    requires i < j <= |events| && Orderly(events, limit) && OneQuota(events, b) && Valid(b)
    ensures Admitted(events, limit, b.key, i, j) <= b.burst + (Trunc(events[j - 1].now) - Trunc(events[i].now)) / b.interval
  {
    WindowProduct(events, b, limit, i, j);
    Floor(Admitted(events, limit, b.key, i, j), b.burst, Trunc(events[j - 1].now) - Trunc(events[i].now), b.interval);
  }

  lemma {:induction false} Floor(n: int, burst: int, t: int, interval: int)
    requires interval > 0 && n * interval <= burst * interval + t
    ensures n <= burst + t / interval
  {
    var over := n - burst - t / interval;
    assert t / interval * interval + t % interval == t;
    assert over * interval == n * interval - burst * interval - t / interval * interval;
    assert over >= 1 ==> over * interval >= interval;
  }
}
