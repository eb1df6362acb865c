/** What holds in every run of the job queue. */
module JobSafety {
  import opened Basics
  import opened Names
  import opened Jobs
  import opened JobRuns

  predicate SameIdentity(a: Job, b: Job) {
    a.account == b.account && a.revision == b.revision && a.generation == b.generation && a.created == b.created && a.force == b.force
  }

  /** A job is finished exactly when it is no longer queued, running or paused. */
  ghost predicate Consistent(db: Db) {
    forall k :: k in db.jobs ==> (Open(db.jobs[k]) <==> db.jobs[k].finishedAt.None?)
  }

  /** At most one open job per account revision. */
  ghost predicate OneOpen(db: Db) {
    forall k, m :: k in db.jobs && m in db.jobs && k != m && Open(db.jobs[k]) && Open(db.jobs[m]) ==>
      db.jobs[k].account != db.jobs[m].account || db.jobs[k].revision != db.jobs[m].revision
  }

  ghost predicate Issued(s: Sys) {
    && s.db.jobs.Keys <= s.ids && s.workers.Keys <= s.owners
    && (s.db.lease.Some? ==> s.db.lease.value.owner in s.owners && s.db.lease.value.job in s.ids)
    && (forall k :: k in s.db.jobs ==> s.db.jobs[k].generation in s.generations)
  }

  /** The worker that holds the lease holds a copy of the job as stored. */
  ghost predicate HolderCurrent(s: Sys) {
    s.db.lease.Some? && s.db.lease.value.owner in s.workers ==>
      var l := s.db.lease.value;
      s.workers[l.owner].id == l.job && (l.job in s.db.jobs ==> SameIdentity(s.db.jobs[l.job], s.workers[l.owner].job))
  }

  ghost predicate NoRetired(db: Db) {
    Migrated(db) ==> forall k :: k in db.docs ==> !Retired(k)
  }

  ghost predicate Inv(s: Sys) {
    Consistent(s.db) && OneOpen(s.db) && Issued(s) && HolderCurrent(s) && NoRetired(s.db)
  }

  lemma {:induction false} KeepsConsistent(s: Sys, a: Action)
    requires Succeeds(s, a) && Consistent(s.db)
    ensures Consistent(Next(s, a).db)
  {
  }

  lemma {:induction false} KeepsIssued(s: Sys, a: Action)
    requires Succeeds(s, a) && Issued(s) && HolderCurrent(s)
    ensures Issued(Next(s, a))
  {
    if a.Migrate? {
      forall k | k in a.generations ensures a.generations[k] in a.generations.Values {
      }
    }
  }

  lemma {:induction false} KeepsHolder(s: Sys, a: Action)
    requires Succeeds(s, a) && Issued(s) && HolderCurrent(s)
    ensures HolderCurrent(Next(s, a))
  {
  }

  lemma {:induction false} KeepsOneOpen(s: Sys, a: Action)
    requires Succeeds(s, a) && HolderCurrent(s) && OneOpen(s.db)
    ensures OneOpen(Next(s, a).db)
  {
    if a.Enqueue? {
      EnqueueOneOpen(s.db, a.account, a.id, a.generation, a.force, a.now);
    } else {
      NothingOpened(s, a);
      StillOneOpen(s.db, Next(s, a).db);
    }
  }

  /** Every open job was open before, for the same account revision. */
  ghost predicate NoneOpened(db: Db, after: Db) {
    forall k :: k in after.jobs && Open(after.jobs[k]) ==>
      && k in db.jobs && Open(db.jobs[k])
      && after.jobs[k].account == db.jobs[k].account && after.jobs[k].revision == db.jobs[k].revision
  }

  lemma {:induction false} NothingOpened(s: Sys, a: Action)
    requires Succeeds(s, a) && HolderCurrent(s) && !a.Enqueue?
    ensures NoneOpened(s.db, Next(s, a).db)
  {
  }

  lemma {:induction false} StillOneOpen(db: Db, after: Db)
    requires OneOpen(db) && NoneOpened(db, after)
    ensures OneOpen(after)
  {
  }

  lemma {:induction false} EnqueueOneOpen(db: Db, account: string, id: string, generation: string, force: bool, now: int)
    requires OneOpen(db) && EnqueueError(db, account).None?
    ensures OneOpen(AfterEnqueue(db, account, id, generation, force, now))
  {
    if !exists k :: k in db.jobs && Outstanding(db, account, k) {
      assert forall k :: k in db.jobs ==> !Outstanding(db, account, k);
    }
  }

  lemma {:induction false} KeepsNoRetired(s: Sys, a: Action)
    requires Succeeds(s, a) && NoRetired(s.db)
    ensures NoRetired(Next(s, a).db)
  {
    MarkerKept();
    if a.Migrate? && !Migrated(s.db) {
      forall k | k in Next(s, a).db.docs ensures !Retired(k) { PurgedRetired(k); }
    }
  }

  lemma {:induction false} PurgedRetired(key: string)
    ensures Retired(key) ==> Under(key, PURGED)
  {
    if Retired(key) {
      var i :| 0 <= i < |RETIRED| && RETIRED[i] <= key;
      assert PURGED[i] == RETIRED[i];
    }
  }

  lemma {:induction false} MarkerKept()
    ensures !Under(MARKER, PURGED) && !Retired(MARKER)
  {
    assert forall i :: 0 <= i < |PURGED| ==> PURGED[i][0] != MARKER[0];
    PurgedRetired(MARKER);
  }

  lemma {:induction false} RunKeeps(start: Sys, actions: seq<Action>)
    requires Initial(start)
    ensures Inv(Run(start, actions))
  {
    if actions != [] {
      var s, a := Run(start, actions[..|actions| - 1]), actions[|actions| - 1];
      RunKeeps(start, actions[..|actions| - 1]);
      if Succeeds(s, a) {
        KeepsConsistent(s, a);
        KeepsIssued(s, a);
        KeepsHolder(s, a);
        KeepsOneOpen(s, a);
        KeepsNoRetired(s, a);
      }
    }
  }

  lemma {:induction false} Extend(start: Sys, actions: seq<Action>, n: nat)
    requires n < |actions|
    ensures Run(start, actions[..n + 1]) == Step(Run(start, actions[..n]), actions[n])
  {
    assert actions[..n + 1][..n] == actions[..n];
  }

  // ----- Fencing -----

  /** An owner without the lease, whose identifier was already issued. */
  predicate Fenced(s: Sys, owner: string) {
    owner in s.owners && (s.db.lease.None? || s.db.lease.value.owner != owner)
  }

  lemma {:induction false} StepFenced(s: Sys, a: Action, owner: string)
    requires Fenced(s, owner)
    ensures Fenced(Step(s, a), owner)
  {
  }

  /** Once an owner has lost the lease, none of its commits ever succeeds again. */
  lemma {:induction false} FencedForever(start: Sys, actions: seq<Action>, i: nat, j: nat, owner: string)
    requires i <= j <= |actions| && Fenced(Run(start, actions[..i]), owner)
    ensures Fenced(Run(start, actions[..j]), owner)
    ensures j < |actions| && actions[j].Commit? && actions[j].owner == owner ==> !Succeeds(Run(start, actions[..j]), actions[j])
  {
    if i < j {
      FencedForever(start, actions, i, j - 1, owner);
      Extend(start, actions, j - 1);
      StepFenced(Run(start, actions[..j - 1]), actions[j - 1], owner);
    }
  }

  /** A new claim fences every owner before it, for good. */
  lemma {:induction false} ClaimFences(start: Sys, actions: seq<Action>, i: nat, j: nat, owner: string)
    requires i < j < |actions| && actions[i].Claim? && Succeeds(Run(start, actions[..i]), actions[i])
    requires Current(Run(start, actions[..i]).db, Run(start, actions[..i]).db.jobs[actions[i].id])
    requires owner in Run(start, actions[..i]).owners && actions[j].Commit? && actions[j].owner == owner
    ensures !Succeeds(Run(start, actions[..j]), actions[j])
  {
    Extend(start, actions, i);
    FencedForever(start, actions, i + 1, j, owner);
  }

  /** After a migration no worker that claimed before it can commit. */
  lemma {:induction false} MigrateFences(start: Sys, actions: seq<Action>, i: nat, j: nat, owner: string)
    requires Initial(start) && i < j < |actions| && actions[i].Migrate? && Succeeds(Run(start, actions[..i]), actions[i])
    requires !Migrated(Run(start, actions[..i]).db)
    requires owner in Run(start, actions[..i]).workers && actions[j].Commit? && actions[j].owner == owner
    ensures !Succeeds(Run(start, actions[..j]), actions[j])
  {
    RunKeeps(start, actions[..i]);
    Extend(start, actions, i);
    FencedForever(start, actions, i + 1, j, owner);
  }

  /** A commit keeps the job's account, revision and generation, so no stale copy is ever written. */
  lemma {:induction false} CommitKeepsIdentity(start: Sys, actions: seq<Action>, i: nat)
    requires Initial(start) && i < |actions| && actions[i].Commit? && Succeeds(Run(start, actions[..i]), actions[i])
    ensures var s := Run(start, actions[..i]); var id := s.workers[actions[i].owner].id;
      id in s.db.jobs && SameIdentity(s.db.jobs[id], Next(s, actions[i]).db.jobs[id])
  {
    RunKeeps(start, actions[..i]);
  }

  // ----- Finished jobs -----

  lemma {:induction false} StepFinished(s: Sys, a: Action, id: string)
    requires Consistent(s.db) && Issued(s) && id in s.ids
    ensures id in s.db.jobs && s.db.jobs[id].finishedAt.Some? && id in Step(s, a).db.jobs ==> Step(s, a).db.jobs[id] == s.db.jobs[id]
    ensures id !in s.db.jobs ==> id !in Step(s, a).db.jobs
    ensures id in Step(s, a).ids
  {
  }

  /** A job that was pruned never comes back. */
  lemma {:induction false} PrunedStaysGone(start: Sys, actions: seq<Action>, i: nat, j: nat, id: string)
    requires Initial(start) && i <= j <= |actions|
    requires id in Run(start, actions[..i]).ids && id !in Run(start, actions[..i]).db.jobs
    ensures id in Run(start, actions[..j]).ids && id !in Run(start, actions[..j]).db.jobs
  {
    if i < j {
      PrunedStaysGone(start, actions, i, j - 1, id);
      RunKeeps(start, actions[..j - 1]);
      Extend(start, actions, j - 1);
      StepFinished(Run(start, actions[..j - 1]), actions[j - 1], id);
    }
  }

  /** A finished job never changes again, except that pruning may remove it. */
  lemma {:induction false} FinishedStays(start: Sys, actions: seq<Action>, i: nat, j: nat, id: string)
    requires Initial(start) && i <= j <= |actions|
    requires id in Run(start, actions[..i]).db.jobs && Run(start, actions[..i]).db.jobs[id].finishedAt.Some?
    ensures id in Run(start, actions[..j]).ids
    ensures id in Run(start, actions[..j]).db.jobs ==> Run(start, actions[..j]).db.jobs[id] == Run(start, actions[..i]).db.jobs[id]
  {
    RunKeeps(start, actions[..i]);
    if i < j {
      FinishedStays(start, actions, i, j - 1, id);
      RunKeeps(start, actions[..j - 1]);
      Extend(start, actions, j - 1);
      StepFinished(Run(start, actions[..j - 1]), actions[j - 1], id);
    }
  }

  /** In every run, at most one queued, running or paused job exists per account revision. */
  lemma {:induction false} AtMostOneOpen(start: Sys, actions: seq<Action>, k: string, m: string)
    requires Initial(start) && k in Run(start, actions).db.jobs && m in Run(start, actions).db.jobs
    requires Open(Run(start, actions).db.jobs[k]) && Open(Run(start, actions).db.jobs[m])
    requires Run(start, actions).db.jobs[k].account == Run(start, actions).db.jobs[m].account
    requires Run(start, actions).db.jobs[k].revision == Run(start, actions).db.jobs[m].revision
    ensures k == m
  {
    RunKeeps(start, actions);
  }

  // ----- Migration -----

  lemma {:induction false} StaysMigrated(start: Sys, actions: seq<Action>, i: nat, j: nat)
    requires i <= j <= |actions| && Migrated(Run(start, actions[..i]).db)
    ensures Migrated(Run(start, actions[..j]).db)
  {
    if i < j {
      StaysMigrated(start, actions, i, j - 1);
      Extend(start, actions, j - 1);
      StepMigrated(Run(start, actions[..j - 1]), actions[j - 1]);
    }
  }

  lemma {:induction false} StepMigrated(s: Sys, a: Action)
    requires Migrated(s.db)
    ensures Migrated(Step(s, a).db)
  {
  }

  /** After a migration no state ever holds a key of a retired namespace. */
  lemma {:induction false} RetiredForever(start: Sys, actions: seq<Action>, i: nat, j: nat, key: string)
    requires Initial(start) && i < j <= |actions| && actions[i].Migrate? && Succeeds(Run(start, actions[..i]), actions[i])
    requires Retired(key)
    ensures key !in Run(start, actions[..j]).db.docs
  {
    Extend(start, actions, i);
    StaysMigrated(start, actions, i + 1, j);
    RunKeeps(start, actions[..j]);
  }

  lemma {:induction false} StepKeepsIdentity(s: Sys, a: Action, id: string)
    requires Inv(s) && Migrated(s.db) && id in s.ids
    ensures id in Step(s, a).ids
    ensures id in Step(s, a).db.jobs ==> id in s.db.jobs && SameIdentity(s.db.jobs[id], Step(s, a).db.jobs[id])
  {
  }

  /** After a migration no job ever changes its generation again. */
  lemma {:induction false} IdentityKept(start: Sys, actions: seq<Action>, i: nat, j: nat, id: string)
    requires Initial(start) && i <= j <= |actions| && Migrated(Run(start, actions[..i]).db) && id in Run(start, actions[..i]).ids
    ensures var s, t := Run(start, actions[..i]), Run(start, actions[..j]);
      id in t.ids && (id in t.db.jobs ==> id in s.db.jobs && SameIdentity(s.db.jobs[id], t.db.jobs[id]))
  {
    if i < j {
      IdentityKept(start, actions, i, j - 1, id);
      StaysMigrated(start, actions, i, j - 1);
      RunKeeps(start, actions[..j - 1]);
      Extend(start, actions, j - 1);
      StepKeepsIdentity(Run(start, actions[..j - 1]), actions[j - 1], id);
    }
  }

  /** An unfinished job starts again, under a generation that was never used; a finished one is as it was. */
  predicate MigratedTo(s: Sys, job: Job, next: Job) {
    if job.finishedAt.Some? then next == job
    else next.progress == FROM_START && next.generation !in s.generations && Open(next) && next.state != Running
         && next.account == job.account && next.revision == job.revision
  }

  lemma {:induction false} JobMigrates(s: Sys, a: Action, id: string)
    requires Inv(s) && a.Migrate? && Succeeds(s, a) && !Migrated(s.db) && id in s.db.jobs
    ensures var t := Next(s, a); Migrated(t.db) && id in t.ids && id in t.db.jobs && MigratedTo(s, s.db.jobs[id], t.db.jobs[id])
  {
  }

  /**
   * The first migration of a run restarts every unfinished job, and no later state ever holds one of them under a
   * generation from before it.
   */
  lemma {:induction false} MigrateRestarts(start: Sys, actions: seq<Action>, i: nat, j: nat, id: string)
    requires Initial(start) && i < j <= |actions| && actions[i].Migrate? && Succeeds(Run(start, actions[..i]), actions[i])
    requires !Migrated(Run(start, actions[..i]).db) && id in Run(start, actions[..i]).db.jobs
    ensures var s, t, u := Run(start, actions[..i]), Run(start, actions[..i + 1]), Run(start, actions[..j]);
      && id in t.db.jobs && MigratedTo(s, s.db.jobs[id], t.db.jobs[id])
      && (id in u.db.jobs && s.db.jobs[id].finishedAt.None? ==> u.db.jobs[id].generation !in s.generations)
  {
    RunKeeps(start, actions[..i]);
    Extend(start, actions, i);
    JobMigrates(Run(start, actions[..i]), actions[i], id);
    IdentityKept(start, actions, i + 1, j, id);
  }

  /** Any later migration leaves the store as it is. */
  lemma {:induction false} MigratesOnce(start: Sys, actions: seq<Action>, i: nat, j: nat)
    requires Initial(start) && i < j < |actions| && actions[i].Migrate? && Succeeds(Run(start, actions[..i]), actions[i])
    requires actions[j].Migrate?
    ensures Run(start, actions[..j + 1]).db == Run(start, actions[..j]).db
  {
    Extend(start, actions, i);
    StaysMigrated(start, actions, i + 1, j);
    Extend(start, actions, j);
  }
}
