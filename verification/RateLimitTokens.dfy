/** Token buckets, and why one timestamp per key decides exactly as they do. */
module RateLimitTokens {
  import opened RateLimit
  import opened RateLimiter

  /** A bucket of `count` tokens; below capacity the next one arrives at `due`. */
  datatype Tokens = Tokens(count: nat, due: int)

  type Family = map<string, Tokens>

  predicate Positive(b: Bucket) {
    b.interval > 0 && b.burst > 0
  }

  function TokensOf(family: Family, b: Bucket): Tokens
    requires Valid(b)
  {
    if b.key in family then family[b.key] else Tokens(b.burst, 0)
  }

  /** One token per interval, up to the burst. */
  function Refill(b: Bucket, t: Tokens, now: int): Tokens
    decreases b.burst - t.count
  {
    if t.count < b.burst && t.due <= now then Refill(b, Tokens(t.count + 1, t.due + b.interval), now) else t
  }

  /** Removes a token; a full bucket starts its clock now. */
  function Take(b: Bucket, t: Tokens, now: int): Tokens
    requires t.count > 0
  {
    if t.count >= b.burst then Tokens(t.count - 1, now + b.interval) else Tokens(t.count - 1, t.due)
  }

  predicate Available(family: Family, b: Bucket, now: int)
    requires Valid(b)
  {
    Refill(b, TokensOf(family, b), now).count > 0
  }

  predicate AllAvailable(family: Family, buckets: seq<Bucket>, now: int)
    requires forall i :: 0 <= i < |buckets| ==> Valid(buckets[i])
  {
    forall i :: 0 <= i < |buckets| ==> Available(family, buckets[i], now)
  }

  function Taken(family: Family, b: Bucket, now: int): Tokens
    requires Valid(b) && Available(family, b, now)
  {
    Take(b, Refill(b, TokensOf(family, b), now), now)
  }

  /** Takes one token from each of the first `n` buckets. */
  function TakeAll(family: Family, buckets: seq<Bucket>, n: nat, now: int): Family
    requires n <= |buckets| && (forall i :: 0 <= i < |buckets| ==> Valid(buckets[i])) && AllAvailable(family, buckets, now)
  {
    if n == 0 then family
    else TakeAll(family, buckets, n - 1, now)[buckets[n - 1].key := Taken(family, buckets[n - 1], now)]
  }

  // ----- The relation between the stored timestamp and the tokens -----

  /** When a bucket that is not full becomes full. */
  function FullAt(b: Bucket, t: Tokens): int {
    t.due + (b.burst - 1 - t.count) * b.interval
  }

  /** The timestamp and the tokens describe the same bucket, as seen at `now`. */
  predicate Agree(records: Records, b: Bucket, t: Tokens, now: int) {
    && t.count <= b.burst
    && (t.count == b.burst ==> b.key in records ==> records[b.key].micros * MICROSECOND <= now)
    && (t.count < b.burst ==> t.due <= now + b.interval)
    && (t.count < b.burst && b.key in records ==> records[b.key].micros * MICROSECOND == FullAt(b, t))
    && (t.count < b.burst && b.key !in records ==> FullAt(b, t) <= now)
  }

  lemma {:induction false} OneMore(b: Bucket, t: Tokens)
    ensures FullAt(b, Tokens(t.count + 1, t.due + b.interval)) == FullAt(b, t)
  {
    assert (b.burst - 1 - t.count) * b.interval == (b.burst - 2 - t.count) * b.interval + b.interval;
  }

  lemma {:induction false} OneLess(b: Bucket, t: Tokens)
    requires t.count > 0
    ensures FullAt(b, Tokens(t.count - 1, t.due)) == FullAt(b, t) + b.interval
  {
    assert (b.burst - t.count) * b.interval == (b.burst - 1 - t.count) * b.interval + b.interval;
  }

  lemma {:induction false} Nonnegative(b: Bucket, n: int)
    requires b.interval >= 0 && n >= 0
    ensures n * b.interval >= 0
    ensures n >= 1 ==> n * b.interval >= b.interval
  {
  }

  /** Refilling keeps the agreement and leaves no overdue token. */
  lemma {:induction false} RefillAgrees(records: Records, b: Bucket, t: Tokens, last: int, now: int)
    requires Positive(b) && Agree(records, b, t, last) && last <= now
    ensures Agree(records, b, Refill(b, t, now), now)
    ensures Refill(b, t, now).count < b.burst ==> now < Refill(b, t, now).due
    decreases b.burst - t.count
  {
    if t.count < b.burst && t.due <= now {
      OneMore(b, t);
      assert FullAt(b, Tokens(b.burst - 1, t.due)) == t.due;
      RefillAgrees(records, b, Tokens(t.count + 1, t.due + b.interval), now, now);
    }
  }

  lemma {:induction false} Oldest(b: Bucket, t: Tokens)
    ensures FullAt(b, t) - (b.burst - 1) * b.interval == t.due - t.count * b.interval
  {
  }

  /** The timestamp passes exactly when the token bucket has a token. */
  lemma {:induction false} PassesWithToken(records: Records, b: Bucket, t: Tokens, last: int, now: nat)
    requires Positive(b) && Agree(records, b, t, last) && last <= now
    ensures Passes(records, b, now) <==> Refill(b, t, now).count > 0
  {
    RefillAgrees(records, b, t, last, now);
    var v := Refill(b, t, now);
    Nonnegative(b, b.burst - 1);
    if v.count < b.burst {
      Nonnegative(b, b.burst - 1 - v.count);
      assert FullAt(b, v) > now;
      Oldest(b, v);
      Nonnegative(b, v.count);
    }
  }

  /** Charging the timestamp and taking a token keep the agreement. */
  lemma {:induction false} ChargeTakes(records: Records, b: Bucket, t: Tokens, last: int, now: nat, after: Records)
    requires Valid(b) && Agree(records, b, t, last) && last <= now && now % MICROSECOND == 0
    requires Refill(b, t, now).count > 0
    requires b.key in after && after[b.key] == Charge(records, b, now)
    ensures Agree(after, b, Take(b, Refill(b, t, now), now), now)
  {
    RefillAgrees(records, b, t, last, now);
    ChargeSound(records, b, now);
    var v := Refill(b, t, now);
    if v.count < b.burst {
      OneLess(b, v);
      Nonnegative(b, b.burst - 1 - v.count);
    } else {
      assert FullAt(b, Tokens(b.burst - 1, now + b.interval)) == now + b.interval;
    }
  }

  /** Time passing and dropping an expired record keep the agreement. */
  lemma {:induction false} LaterAgrees(records: Records, b: Bucket, t: Tokens, last: int, now: int, after: Records)
    requires Agree(records, b, t, last) && last <= now
    requires b.key in after ==> b.key in records && after[b.key].micros == records[b.key].micros
    requires b.key in records && b.key !in after ==> records[b.key].micros * MICROSECOND <= now
    ensures Agree(after, b, t, now)
  {
  }
}
