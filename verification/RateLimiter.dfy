/** `Limiter.Check` as the code runs it, and the bound on stored records. */
module RateLimiter {
  import opened RateLimit

  /** The stored expiry is the stored timestamp. */
  ghost predicate Sound(records: Records) {
    forall k :: k in records ==> records[k].expiresAt == records[k].micros * MICROSECOND
  }

  ghost predicate WithinCapacity(records: Records, limit: nat) {
    Sound(records) && |records| <= limit
  }

  method CheckBuckets(buckets: seq<Bucket>) returns (ok: bool)
    ensures ok == WellFormed(buckets)
  {
    if |buckets| == 0 || |buckets| > 32 { return false; }
    var seen := {};
    for i := 0 to |buckets|
      invariant forall k :: k in seen <==> exists j :: 0 <= j < i && buckets[j].key == k
      invariant forall j :: 0 <= j < i ==> Valid(buckets[j])
      invariant forall j, m :: 0 <= j < m < i ==> buckets[j].key != buckets[m].key
    {
      if !Valid(buckets[i]) || buckets[i].key in seen { return false; }
      seen := seen + {buckets[i].key};
    }
    return true;
  }

  /** The new record of each of the first `n` buckets. */
  function Charges(records: Records, buckets: seq<Bucket>, n: nat, now: nat): (r: seq<Record>)
    requires n <= |buckets|
    ensures |r| == n
  {
    if n == 0 then [] else Charges(records, buckets, n - 1, now) + [Charge(records, buckets[n - 1], now)]
  }

  lemma {:induction false} ChargesAt(records: Records, buckets: seq<Bucket>, n: nat, now: nat, i: nat)
    requires i < n <= |buckets|
    ensures Charges(records, buckets, n, now)[i] == Charge(records, buckets[i], now)
  {
    if i < n - 1 { ChargesAt(records, buckets, n - 1, now, i); }
  }

  /** One pass over the buckets: the wait, the charges to make, and how many keys are new. */
  method Evaluate(records: Records, buckets: seq<Bucket>, now: nat) returns (wait: int, pending: seq<Record>, newKeys: nat)
    ensures wait == Wait(records, buckets, |buckets|, now)
    ensures pending == Charges(records, buckets, |buckets|, now)
    ensures newKeys == NewKeys(records, buckets, |buckets|)
  {
    wait, pending, newKeys := 0, [], 0;
    for i := 0 to |buckets|
      invariant wait == Wait(records, buckets, i, now)
      invariant pending == Charges(records, buckets, i, now)
      invariant newKeys == NewKeys(records, buckets, i)
    {
      var over, next, isNew := EvaluateOne(records, buckets[i], now);
      if isNew {
        newKeys := newKeys + 1;
      }
      if over > 0 {
        wait := Max(wait, over);
      }
      pending := pending + [next];
    }
  }

  method EvaluateOne(records: Records, b: Bucket, now: nat) returns (over: int, next: Record, isNew: bool)
    ensures over == AllowAt(records, b, now) - now
    ensures next == Charge(records, b, now)
    ensures isNew <==> b.key !in records
  {
    var tat := now;
    isNew := b.key !in records;
    if !isNew {
      tat := records[b.key].micros * MICROSECOND;
    }
    over := tat - (b.burst - 1) * b.interval - now;
    if tat < now {
      tat := now;
    }
    next := Record((tat + b.interval) / MICROSECOND, tat + b.interval);
  }

  /** Drops expired records that the call does not name. */
  method Reclaim(records: Records, buckets: seq<Bucket>, now: nat) returns (kept: Records)
    ensures kept == Reclaimed(records, buckets, now)
  {
    kept := records;
    var rest := records.Keys;
    while rest != {}
      invariant rest <= records.Keys
      invariant forall k :: k in kept ==> k in records && kept[k] == records[k]
      invariant forall k :: k in records ==>
        (k in kept <==> k in rest || now < records[k].expiresAt || k in Keys(buckets))
      decreases rest
    {
      var k :| k in rest;
      if records[k].expiresAt <= now && k !in Keys(buckets) {
        kept := kept - {k};
      }
      rest := rest - {k};
    }
    assert kept == Reclaimed(records, buckets, now);
  }

  class Limiter {
    const limit: nat
    var records: Records

    constructor (limit: nat)
      ensures this.limit == limit && records == map[]
    {
      this.limit, records := limit, map[];
    }

    /** Consumes every bucket or none. */
    method Check(buckets: seq<Bucket>, storeNow: nat) returns (outcome: Outcome)
      requires WithinCapacity(records, limit)
      modifies this
      ensures (records, outcome) == Decide(old(records), buckets, storeNow, limit)
      ensures WithinCapacity(records, limit)
    {
      var ok := CheckBuckets(buckets);
      if !ok { return Invalid; }
      CapacityKept(records, buckets, storeNow, limit);
      var now := Trunc(storeNow);
      var wait, pending, newKeys := Evaluate(records, buckets, now);
      if wait > 0 { return Denied(wait); }
      var base := records;
      if newKeys > 0 {
        base := Reclaim(records, buckets, now);
        if |base| + newKeys > limit { return Capacity; }
      }
      records := Write(records, base, buckets, pending, now);
      return Allowed;
    }
  }

  method Write(before: Records, base: Records, buckets: seq<Bucket>, pending: seq<Record>, now: nat) returns (after: Records)
    requires pending == Charges(before, buckets, |buckets|, now)
    ensures after == Charged(before, base, buckets, |buckets|, now)
  {
    after := base;
    for i := 0 to |buckets|
      invariant after == Charged(before, base, buckets, i, now)
    {
      ChargesAt(before, buckets, |buckets|, now, i);
      after := after[buckets[i].key := pending[i]];
    }
  }

  // ----- The record count never exceeds the limit -----

  lemma {:induction false} ChargedKeys(base: Records, records: Records, buckets: seq<Bucket>, n: nat, now: nat)
    requires n <= |buckets| && now % MICROSECOND == 0 && forall i :: 0 <= i < |buckets| ==> Valid(buckets[i])
    ensures Charged(base, records, buckets, n, now).Keys == records.Keys + KeysUpTo(buckets, n)
    ensures Sound(records) ==> Sound(Charged(base, records, buckets, n, now))
  {
    if n > 0 {
      ChargedKeys(base, records, buckets, n - 1, now);
      ChargeSound(base, buckets[n - 1], now);
    }
  }

  lemma {:induction false} ChargeSound(records: Records, b: Bucket, now: nat)
    requires b.interval % MICROSECOND == 0 && now % MICROSECOND == 0
    ensures Charge(records, b, now).expiresAt == Charge(records, b, now).micros * MICROSECOND
  {
    var tat := Tat(records, b.key, now);
    assert tat % MICROSECOND == 0;
    MultiplesAdd(Max(tat, now), b.interval);
  }

  lemma {:induction false} MultiplesAdd(a: int, b: int)
    requires a % MICROSECOND == 0 && b % MICROSECOND == 0
    ensures (a + b) % MICROSECOND == 0
  {
  }

  /** Under a fixed limit, no check stores more than `limit` records. */
  lemma {:induction false} CapacityKept(records: Records, buckets: seq<Bucket>, storeNow: nat, limit: nat)
    requires WithinCapacity(records, limit)
    ensures WithinCapacity(Decide(records, buckets, storeNow, limit).0, limit)
  {
    var (after, outcome) := Decide(records, buckets, storeNow, limit);
    if outcome.Allowed? {
      var now := Trunc(storeNow);
      var base := Base(records, buckets, now);
      ChargedKeys(records, base, buckets, |buckets|, now);
      forall i | 0 <= i < |buckets| && buckets[i].key in records ensures buckets[i].key in base {
        KeyIn(buckets, |buckets|, buckets[i].key);
      }
      NewKeysBound(records, base.Keys, buckets, |buckets|);
      assert |base| == |base.Keys|;
      assert |after| == |after.Keys|;
    }
  }

  /** Charging adds at most as many records as there are new keys. */
  lemma {:induction false} NewKeysBound(records: Records, kept: set<string>, buckets: seq<Bucket>, n: nat)
    requires n <= |buckets|
    requires forall i :: 0 <= i < |buckets| && buckets[i].key in records ==> buckets[i].key in kept
    ensures |kept + KeysUpTo(buckets, n)| <= |kept| + NewKeys(records, buckets, n)
  {
    if n == 0 {
      assert kept + KeysUpTo(buckets, 0) == kept;
    } else {
      var front := KeysUpTo(buckets, n - 1);
      NewKeysBound(records, kept, buckets, n - 1);
      AddKey(kept, front, buckets[n - 1].key);
      assert KeysUpTo(buckets, n) == front + {buckets[n - 1].key};
    }
  }

  lemma {:induction false} AddKey(base: set<string>, front: set<string>, key: string)
    ensures |base + (front + {key})| <= |base + front| + 1
    ensures key in base ==> |base + (front + {key})| == |base + front|
  {
    var u := base + front;
    assert base + (front + {key}) == u + {key};
    if key in u { assert u + {key} == u; }
  }
}
