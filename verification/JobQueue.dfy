/** The job repository's operations as the code runs them. */
module JobQueue {
  import opened Basics
  import opened Names
  import opened Jobs

  /** Keys strictly after `after` under a prefix, in order, up to a limit: all of them if the page is short. */
  ghost predicate Page(docs: map<string, string>, prefix: string, after: string, limit: nat, rows: seq<string>) {
    && Increasing(rows, Itself) && |rows| <= limit
    && (forall k :: k in rows ==> k in docs && prefix <= k && Before(after, k))
    && (forall k :: k in docs && prefix <= k && Before(after, k) && k !in rows ==>
         |rows| == limit && forall i :: 0 <= i < |rows| ==> Before(rows[i], k))
  }

  method Scan(docs: map<string, string>, prefix: string, after: string, limit: nat) returns (rows: seq<string>)
    ensures Page(docs, prefix, after, limit, rows)
  {
    var ordered := SortedNames(set k | k in docs && prefix <= k && Before(after, k));
    rows := ordered;
    if |ordered| > limit {
      rows := ordered[..limit];
      assert forall k :: k in rows ==> k in ordered;
      assert ordered == rows + ordered[limit..];
      forall j, i | limit <= j < |ordered| && 0 <= i < limit ensures Before(rows[i], ordered[j]) {
        assert Before(Itself(ordered[i]), Itself(ordered[j]));
      }
      forall k | k in ordered && k !in rows ensures forall i :: 0 <= i < |rows| ==> Before(rows[i], k) {
        assert k in ordered[limit..];
        var j :| limit <= j < |ordered| && ordered[j] == k;
      }
    }
  }

  class Repository {
    var db: Db

    /** Reuses an outstanding sync of the account, or queues a new one. */
    method Enqueue(account: string, id: string, generation: string, force: bool, now: int) returns (error: Option<Error>, job: string)
      requires id !in db.jobs
      modifies this
      ensures error == EnqueueError(old(db), account)
      ensures db == if error.None? then AfterEnqueue(old(db), account, id, generation, force, now) else old(db)
      ensures error.None? ==> Outstanding(db, account, job) && (job != id ==> db == old(db))
    {
      if account !in db.accounts { return Some(NotFound), ""; }
      if !db.accounts[account].enabled { return Some(Invalid), ""; }
      var keys := SortedNames(db.jobs.Keys);
      var found := None;
      for i := 0 to |keys|
        invariant found.None? ==> forall j :: 0 <= j < i ==> !Outstanding(db, account, keys[j])
        invariant found.Some? ==> Outstanding(db, account, found.value)
      {
        if Outstanding(db, account, keys[i]) { found := Some(keys[i]); }
      }
      if found.Some? {
        assert exists k :: k in db.jobs && Outstanding(db, account, k);
        return None, found.value;
      }
      db := db.(jobs := db.jobs[id := Job(account, db.accounts[account].revision, generation, Queued, None, now, force, FROM_START)]);
      return None, id;
    }

    /** The oldest runnable job, the first in key order among equals. */
    method Pick() returns (id: Option<string>)
      ensures id.Some? ==> Oldest(db.jobs, id.value)
      ensures id.None? ==> forall k :: k in db.jobs ==> !Runnable(db.jobs[k])
    {
      var keys := SortedNames(db.jobs.Keys);
      id := None;
      for i := 0 to |keys|
        invariant id.None? ==> forall j :: 0 <= j < i ==> !Runnable(db.jobs[keys[j]])
        invariant id.Some? ==> id.value in keys[..i] && Runnable(db.jobs[id.value])
        invariant id.Some? ==> forall j :: 0 <= j < i && Runnable(db.jobs[keys[j]]) && keys[j] != id.value ==>
          db.jobs[id.value].created < db.jobs[keys[j]].created
          || (db.jobs[id.value].created == db.jobs[keys[j]].created && Before(id.value, keys[j]))
      {
        assert forall j :: 0 <= j < i ==> Before(Itself(keys[j]), Itself(keys[i]));
        if Runnable(db.jobs[keys[i]]) && (id.None? || db.jobs[keys[i]].created < db.jobs[id.value].created) {
          id := Some(keys[i]);
        }
        assert keys[..i + 1] == keys[..i] + [keys[i]];
      }
    }

    /** Takes the lease for the oldest runnable job, or cancels a job whose account moved on. */
    method Claim(owner: string, now: int) returns (error: Option<Error>, id: string)
      modifies this
      ensures error.None? <==> !Held(old(db), now) && exists k :: k in old(db).jobs && Runnable(old(db).jobs[k])
      ensures error.Some? ==> db == old(db) && error.value == (if Held(old(db), now) then LeaseHeld else NotFound)
      ensures error.None? ==> Oldest(old(db).jobs, id) && db == AfterClaim(old(db), id, owner, now)
    {
      if db.lease.Some? && now < db.lease.value.until { return Some(LeaseHeld), ""; }
      var pick := Pick();
      if pick.None? { return Some(NotFound), ""; }
      id := pick.value;
      var j := db.jobs[id];
      if j.account !in db.accounts || !db.accounts[j.account].enabled || db.accounts[j.account].revision != j.revision {
        db := db.(jobs := db.jobs[id := j.(state := Cancelled, finishedAt := Some(now))]);
        return None, id;
      }
      db := db.(lease := Some(Lease(id, owner, now + LEASE)));
      db := db.(jobs := db.jobs[id := j.(state := Running)]);
      return None, id;
    }

    /** Checks owner, lease, state and account before the worker's copy replaces the job. */
    method CommitJob(owner: string, w: Worker, progress: Progress, end: Option<State>, now: int) returns (error: Option<Error>)
      modifies this
      ensures error == CommitError(old(db), owner, w, now)
      ensures error.Some? ==> db == old(db)
      ensures error.None? ==> db == AfterCommit(old(db), w, progress, end, now)
    {
      if db.lease.None? { return Some(NotFound); }
      var l := db.lease.value;
      if l.job != w.id || l.owner != owner || l.until <= now { return Some(LeaseHeld); }
      if w.id !in db.jobs { return Some(NotFound); }
      if db.jobs[w.id].state != Running { return Some(Stopped); }
      if w.job.account !in db.accounts { return Some(NotFound); }
      var a := db.accounts[w.job.account];
      if a.revision != w.job.revision || !a.enabled { return Some(Stopped); }
      db := db.(lease := Some(l.(until := now + LEASE)));
      db := db.(jobs := db.jobs[w.id := Written(w.job, progress, end, now)]);
      return None;
    }

    /** Fences the lease, restarts open jobs, removes the old namespaces and sets the marker, all in one transaction. */
    method Migrate(fence: string, generations: map<string, string>, evidence: map<string, string>)
      requires "" !in db.docs && "" !in evidence && forall k :: k in db.jobs ==> k in generations
      modifies this
      ensures db == AfterMigrate(old(db), fence, generations, evidence)
    {
      if MARKER in db.docs { return; }
      var docs := db.docs + evidence;
      if db.lease.Some? { db := db.(lease := Some(db.lease.value.(owner := fence))); }
      var jobs := RestartAll(db.jobs, generations);
      docs := PurgeAll(docs);
      db := db.(jobs := jobs, docs := docs[MARKER := "true"]);
    }
  }

  /** Gives every unfinished job a new generation and sends it back to the start. */
  method RestartAll(jobs: map<string, Job>, generations: map<string, string>) returns (after: map<string, Job>)
    requires forall k :: k in jobs ==> k in generations
    ensures after == map k | k in jobs :: Migration(jobs[k], generations[k])
  {
    var keys := SortedNames(jobs.Keys);
    after := jobs;
    ghost var done := {};
    for i := 0 to |keys|
      invariant after.Keys == jobs.Keys
      invariant forall k :: k in done <==> k in keys[..i]
      invariant forall k :: k in jobs ==> after[k] == if k in done then Migration(jobs[k], generations[k]) else jobs[k]
    {
      Fresh(keys, i);
      var next := RestartOne(after[keys[i]], generations[keys[i]]);
      after := after[keys[i] := next];
      done := done + {keys[i]};
      assert keys[..i + 1] == keys[..i] + [keys[i]];
    }
    assert forall k :: k in jobs ==> k in keys[..|keys|];
  }

  method RestartOne(j: Job, generation: string) returns (after: Job)
    ensures after == Migration(j, generation)
  {
    if j.finishedAt.Some? || j.state == Success || j.state == Partial || j.state == Failed || j.state == Cancelled { return j; }
    after := j.(generation := generation, progress := FROM_START);
    if after.state == Running { after := after.(state := Queued); }
  }

  /** Deletes every document under a prefix, a page at a time. */
  method Purge(docs: map<string, string>, prefix: string) returns (left: map<string, string>)
    requires "" !in docs
    ensures forall k :: k in left <==> k in docs && !(prefix <= k)
    ensures forall k :: k in left ==> left[k] == docs[k]
  {
    left := docs;
    var after := "";
    while true
      invariant forall k :: k in left ==> k in docs && left[k] == docs[k]
      invariant forall k :: k in docs && !(prefix <= k) ==> k in left
      invariant forall k :: k in left && prefix <= k ==> Before(after, k)
      decreases left.Keys
    {
      var rows := Scan(left, prefix, after, 128);
      ghost var before := left;
      for i := 0 to |rows|
        invariant forall k :: k in left <==> k in before && k !in rows[..i]
        invariant forall k :: k in left ==> left[k] == before[k]
        invariant i > 0 ==> after == rows[i - 1]
      {
        left := left - {rows[i]};
        after := rows[i];
        assert rows[..i + 1] == rows[..i] + [rows[i]];
      }
      assert rows[..|rows|] == rows;
      if |rows| < 128 { return; }
      assert rows[0] in before && rows[0] !in left;
    }
  }

  method PurgeAll(docs: map<string, string>) returns (left: map<string, string>)
    requires "" !in docs
    ensures left == map k | k in docs && !Under(k, PURGED) :: docs[k]
  {
    left := docs;
    for i := 0 to |PURGED|
      invariant "" !in left
      invariant forall k :: k in left <==> k in docs && !Under(k, PURGED[..i])
      invariant forall k :: k in left ==> left[k] == docs[k]
    {
      left := Purge(left, PURGED[i]);
      forall k ensures Under(k, PURGED[..i + 1]) <==> Under(k, PURGED[..i]) || PURGED[i] <= k { UnderOneMore(k, PURGED, i); }
    }
    assert PURGED[..|PURGED|] == PURGED;
  }

  lemma {:induction false} Fresh(keys: seq<string>, i: nat)
    requires Increasing(keys, Itself) && i < |keys|
    ensures keys[i] !in keys[..i]
  {
    forall m | 0 <= m < i ensures keys[m] != keys[i] {
      assert Before(Itself(keys[m]), Itself(keys[i]));
      BeforeTotal(keys[m], keys[i]);
    }
  }

  lemma {:induction false} UnderOneMore(key: string, prefixes: seq<string>, i: nat)
    requires i < |prefixes|
    ensures Under(key, prefixes[..i + 1]) <==> Under(key, prefixes[..i]) || prefixes[i] <= key
  {
    if Under(key, prefixes[..i]) {
      var j :| 0 <= j < i && prefixes[..i][j] <= key;
      assert prefixes[..i + 1][j] <= key;
    } else if prefixes[i] <= key {
      assert prefixes[..i + 1][i] <= key;
    } else {
      assert forall j :: 0 <= j < i ==> prefixes[..i][j] == prefixes[j];
    }
  }
}
