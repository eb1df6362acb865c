/** Runs of the job queue, with any number of workers that may stop anywhere. */
module JobRuns {
  import opened Basics
  import opened Jobs

  /** `owners`, `ids` and `generations` are the identifiers generated so far. */
  datatype Sys = Sys(db: Db, workers: map<string, Worker>, owners: set<string>, ids: set<string>, generations: set<string>)

  datatype Action =
    | Enqueue(account: string, id: string, generation: string, force: bool, now: int)
    | Control(id: string, command: Command, now: int)
    | Claim(owner: string, id: string, now: int)
    | Commit(owner: string, progress: Progress, end: Option<State>, now: int)
    | Release(owner: string)
    | SaveAccount(account: string, enabled: bool)
    | DeleteAccount(account: string, revision: int, now: int)
    | CancelAll(now: int)
    | Prune(before: int)
    | Put(key: string, value: string)
    | Delete(key: string)
    | Migrate(fence: string, generations: map<string, string>, evidence: map<string, string>)

  /** A worker ends its job only with one of these. */
  predicate Final(end: Option<State>) {
    end.Some? ==> end.value == Success || end.value == Partial || end.value == Failed
  }

  /** Whether the transaction goes through; otherwise nothing changes. */
  predicate Succeeds(s: Sys, a: Action) {
    match a
    case Enqueue(account, id, generation, force, now) =>
      EnqueueError(s.db, account).None? && id !in s.ids && generation !in s.generations
    case Control(id, command, now) => ControlError(s.db, id, command).None?
    case Claim(owner, id, now) => !Held(s.db, now) && Oldest(s.db.jobs, id) && owner !in s.owners
    case Commit(owner, progress, end, now) =>
      owner in s.workers && Final(end) && CommitError(s.db, owner, s.workers[owner], now).None?
    case Release(owner) => owner in s.workers
    case SaveAccount(account, enabled) => true
    case DeleteAccount(account, revision, now) => account in s.db.accounts && s.db.accounts[account].revision == revision
    case CancelAll(now) => true
    case Prune(before) => true
    case Put(key, value) => key != MARKER && MayPut(s.db, key)
    case Delete(key) => key != MARKER
    case Migrate(fence, generations, evidence) =>
      && fence !in s.owners && generations.Keys == s.db.jobs.Keys
      && (forall k :: k in generations ==> generations[k] !in s.generations)
      && (forall k :: k in evidence ==> !Under(k, PURGED) && k != MARKER)
  }

  function Next(s: Sys, a: Action): Sys
    requires Succeeds(s, a)
  {
    match a
    case Enqueue(account, id, generation, force, now) =>
      s.(db := AfterEnqueue(s.db, account, id, generation, force, now), ids := s.ids + {id}, generations := s.generations + {generation})
    case Control(id, command, now) => s.(db := AfterControl(s.db, id, command, now))
    case Claim(owner, id, now) =>
      var db := AfterClaim(s.db, id, owner, now);
      s.(db := db, owners := s.owners + {owner},
         workers := if db.jobs[id].state == Running then s.workers[owner := Worker(id, db.jobs[id])] else s.workers)
    case Commit(owner, progress, end, now) => s.(db := AfterCommit(s.db, s.workers[owner], progress, end, now))
    case Release(owner) => s.(db := AfterRelease(s.db, owner, s.workers[owner]))
    case SaveAccount(account, enabled) =>
      var revision := if account in s.db.accounts then s.db.accounts[account].revision + 1 else 1;
      s.(db := s.db.(accounts := s.db.accounts[account := Account(enabled, revision)]))
    case DeleteAccount(account, revision, now) => s.(db := AfterDeleteAccount(s.db, account, now))
    case CancelAll(now) => s.(db := AfterCancelAll(s.db, now))
    case Prune(before) => s.(db := AfterPrune(s.db, before))
    case Put(key, value) => s.(db := s.db.(docs := s.db.docs[key := value]))
    case Delete(key) => s.(db := s.db.(docs := s.db.docs - {key}))
    case Migrate(fence, generations, evidence) =>
      s.(db := AfterMigrate(s.db, fence, generations, evidence), owners := s.owners + {fence},
         generations := s.generations + generations.Values)
  }

  function Step(s: Sys, a: Action): Sys {
    if Succeeds(s, a) then Next(s, a) else s
  }

  /** Any store that has not been migrated may be where a run starts: no job, no worker, any old documents. */
  predicate Initial(s: Sys) {
    s.db.jobs == map[] && s.db.lease.None? && s.workers == map[] && !Migrated(s.db)
  }

  function Run(start: Sys, actions: seq<Action>): Sys {
    if actions == [] then start else Step(Run(start, actions[..|actions| - 1]), actions[|actions| - 1])
  }
}
