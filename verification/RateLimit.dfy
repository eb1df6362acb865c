/** The request limiter: one timestamp per bucket, charged all or none. Times are nanoseconds. */
module RateLimit {

  datatype Bucket = Bucket(key: string, interval: int, burst: int)

  const MICROSECOND := 1_000
  const DAY := 86_400_000_000_000

  predicate Valid(b: Bucket) {
    && b.key != "" && MICROSECOND <= b.interval <= DAY && b.interval % MICROSECOND == 0
    && 1 <= b.burst <= 1_000_000 && b.burst <= 30 * DAY / b.interval
  }

  /** The stored microsecond timestamp at which the bucket would be full again. */
  datatype Record = Record(micros: int, expiresAt: int)

  type Records = map<string, Record>

  function Trunc(t: nat): (r: nat)
    ensures r <= t < r + MICROSECOND && r % MICROSECOND == 0
  {
    t - t % MICROSECOND
  }

  function Tat(records: Records, key: string, now: nat): int {
    if key in records then records[key].micros * MICROSECOND else now
  }

  function AllowAt(records: Records, b: Bucket, now: nat): int {
    Tat(records, b.key, now) - (b.burst - 1) * b.interval
  }

  predicate Passes(records: Records, b: Bucket, now: nat) {
    AllowAt(records, b, now) <= now
  }

  function Max(a: int, b: int): int {
    if a < b then b else a
  }

  /** The longest wait over the first `n` buckets; 0 if all of them pass. */
  function Wait(records: Records, buckets: seq<Bucket>, n: nat, now: nat): (w: int)
    requires n <= |buckets|
    ensures w >= 0
  {
    if n == 0 then 0
    else Max(Wait(records, buckets, n - 1, now), AllowAt(records, buckets[n - 1], now) - now)
  }

  function Charge(records: Records, b: Bucket, now: nat): Record {
    var next := Max(Tat(records, b.key, now), now) + b.interval;
    Record(next / MICROSECOND, next)
  }

  /** The records after the first `n` buckets were charged against `base`. */
  function Charged(base: Records, records: Records, buckets: seq<Bucket>, n: nat, now: nat): Records
    requires n <= |buckets|
  {
    if n == 0 then records
    else Charged(base, records, buckets, n - 1, now)[buckets[n - 1].key := Charge(base, buckets[n - 1], now)]
  }

  function KeysUpTo(buckets: seq<Bucket>, n: nat): set<string>
    requires n <= |buckets|
  {
    if n == 0 then {} else KeysUpTo(buckets, n - 1) + {buckets[n - 1].key}
  }

  function Keys(buckets: seq<Bucket>): set<string> {
    KeysUpTo(buckets, |buckets|)
  }

  lemma {:induction false} KeyIn(buckets: seq<Bucket>, n: nat, key: string)
    requires n <= |buckets|
    ensures key in KeysUpTo(buckets, n) <==> exists i :: 0 <= i < n && buckets[i].key == key
  {
    if n > 0 { KeyIn(buckets, n - 1, key); }
  }

  /** Expired records that this call does not name are reclaimed. */
  function Reclaimed(records: Records, buckets: seq<Bucket>, now: nat): Records {
    map k | k in records && (now < records[k].expiresAt || k in Keys(buckets)) :: records[k]
  }

  predicate WellFormed(buckets: seq<Bucket>) {
    && 0 < |buckets| <= 32
    && (forall i :: 0 <= i < |buckets| ==> Valid(buckets[i]))
    && Distinct(buckets)
  }

  predicate Distinct(buckets: seq<Bucket>) {
    forall i, j :: 0 <= i < j < |buckets| ==> buckets[i].key != buckets[j].key
  }

  datatype Outcome = Invalid | Capacity | Denied(retryAfter: int) | Allowed

  /** How many of the first `n` buckets have no record yet. */
  function NewKeys(records: Records, buckets: seq<Bucket>, n: nat): nat
    requires n <= |buckets|
  {
    if n == 0 then 0 else NewKeys(records, buckets, n - 1) + if buckets[n - 1].key in records then 0 else 1
  }

  /** Reclaiming happens only when the call brings a new key. */
  function Base(records: Records, buckets: seq<Bucket>, now: nat): Records {
    if NewKeys(records, buckets, |buckets|) == 0 then records else Reclaimed(records, buckets, now)
  }

  function Decide(records: Records, buckets: seq<Bucket>, storeNow: nat, limit: nat): (Records, Outcome) {
    if !WellFormed(buckets) then (records, Invalid)
    else
      var now := Trunc(storeNow);
      var wait := Wait(records, buckets, |buckets|, now);
      if wait > 0 then (records, Denied(wait))
      else
        var base := Base(records, buckets, now);
        var newKeys := NewKeys(records, buckets, |buckets|);
        if newKeys > 0 && |base| + newKeys > limit then (records, Capacity)
        else (Charged(records, base, buckets, |buckets|, now), Allowed)
  }
}
