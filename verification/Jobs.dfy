/** The inventory's leased job queue and the migration that fences it. Each operation is one transaction. */
module Jobs {
  import opened Basics
  import opened Names

  datatype Error = NotFound | Invalid | Conflict | LeaseHeld | Stopped

  datatype State = Queued | Running | Paused | Success | Partial | Failed | Cancelled

  /** Where a job is; every job starts from `FROM_START`. */
  datatype Progress = Progress(
    stage: string, cursor: string, checkpoint: string, devices: nat, coverage: nat, attempts: nat, failed: nat, error: string)

  const FROM_START := Progress("devices", "", "", 0, 0, 0, 0, "")

  datatype Job = Job(
    account: string, revision: int, generation: string, state: State, finishedAt: Option<int>, created: int, force: bool, progress: Progress)

  datatype Lease = Lease(job: string, owner: string, until: int)

  datatype Account = Account(enabled: bool, revision: int)

  datatype Command = Pause | Resume | Cancel

  /** `docs` holds every other document of the inventory, under its full key. */
  datatype Db = Db(jobs: map<string, Job>, lease: Option<Lease>, accounts: map<string, Account>, docs: map<string, string>)

  /** A worker's own copy of the job it claimed. */
  datatype Worker = Worker(id: string, job: Job)

  const LEASE := 120_000_000_000

  predicate Open(j: Job) {
    j.state == Queued || j.state == Running || j.state == Paused
  }

  predicate Runnable(j: Job) {
    j.state == Queued || j.state == Running
  }

  // ----- Queueing and control -----

  predicate Outstanding(db: Db, account: string, id: string) {
    && id in db.jobs && account in db.accounts && db.jobs[id].account == account
    && db.jobs[id].revision == db.accounts[account].revision && Open(db.jobs[id])
  }

  function EnqueueError(db: Db, account: string): Option<Error> {
    if account !in db.accounts then Some(NotFound)
    else if !db.accounts[account].enabled then Some(Invalid)
    else None
  }

  /** A sync already outstanding for the account's revision is reused. */
  function AfterEnqueue(db: Db, account: string, id: string, generation: string, force: bool, now: int): Db
    requires EnqueueError(db, account).None?
  {
    if exists k :: k in db.jobs && Outstanding(db, account, k) then db
    else db.(jobs := db.jobs[id := Job(account, db.accounts[account].revision, generation, Queued, None, now, force, FROM_START)])
  }

  function ControlError(db: Db, id: string, command: Command): Option<Error> {
    if id !in db.jobs then Some(NotFound)
    else
      var j := db.jobs[id];
      match command
      case Pause => if j.state != Running && j.state != Queued then Some(Conflict) else None
      case Resume => if j.state != Paused then Some(Conflict) else None
      case Cancel => if j.finishedAt.Some? then Some(Conflict) else None
  }

  function AfterControl(db: Db, id: string, command: Command, now: int): Db
    requires ControlError(db, id, command).None?
  {
    var j := db.jobs[id];
    var next := match command
      case Pause => j.(state := Paused)
      case Resume => j.(state := Queued)
      case Cancel => Ended(j, now);
    db.(jobs := db.jobs[id := next])
  }

  function Ended(j: Job, now: int): Job {
    j.(state := Cancelled, finishedAt := Some(now))
  }

  // ----- The lease -----

  predicate Held(db: Db, now: int) {
    db.lease.Some? && now < db.lease.value.until
  }

  /** The oldest runnable job; the smaller key decides between equals. */
  predicate Oldest(jobs: map<string, Job>, id: string) {
    && id in jobs && Runnable(jobs[id])
    && forall k :: k in jobs && Runnable(jobs[k]) && k != id ==>
         jobs[id].created < jobs[k].created || (jobs[id].created == jobs[k].created && Before(id, k))
  }

  predicate Current(db: Db, j: Job) {
    j.account in db.accounts && db.accounts[j.account].enabled && db.accounts[j.account].revision == j.revision
  }

  /** A job whose account moved on is cancelled instead of claimed. */
  function AfterClaim(db: Db, id: string, owner: string, now: int): Db
    requires id in db.jobs
  {
    var j := db.jobs[id];
    if !Current(db, j) then db.(jobs := db.jobs[id := Ended(j, now)])
    else db.(jobs := db.jobs[id := j.(state := Running)], lease := Some(Lease(id, owner, now + LEASE)))
  }

  function CommitError(db: Db, owner: string, w: Worker, now: int): Option<Error> {
    if db.lease.None? then Some(NotFound)
    else if db.lease.value.job != w.id || db.lease.value.owner != owner || db.lease.value.until <= now then Some(LeaseHeld)
    else if w.id !in db.jobs then Some(NotFound)
    else if db.jobs[w.id].state != Running then Some(Stopped)
    else if w.job.account !in db.accounts then Some(NotFound)
    else if !Current(db, w.job) then Some(Stopped)
    else None
  }

  /** What a worker writes: its copy with new progress, and its end when it has one. */
  function Written(j: Job, progress: Progress, end: Option<State>, now: int): Job {
    j.(progress := progress, state := if end.Some? then end.value else Running, finishedAt := if end.Some? then Some(now) else None)
  }

  function AfterCommit(db: Db, w: Worker, progress: Progress, end: Option<State>, now: int): Db
    requires db.lease.Some?
  {
    db.(jobs := db.jobs[w.id := Written(w.job, progress, end, now)], lease := Some(db.lease.value.(until := now + LEASE)))
  }

  function AfterRelease(db: Db, owner: string, w: Worker): Db {
    if db.lease.Some? && db.lease.value.owner == owner && db.lease.value.job == w.id then db.(lease := None) else db
  }

  // ----- Stopping and pruning -----

  function AfterDeleteAccount(db: Db, account: string, now: int): Db {
    db.(jobs := map k | k in db.jobs :: if db.jobs[k].account == account && db.jobs[k].finishedAt.None? then Ended(db.jobs[k], now) else db.jobs[k],
        accounts := db.accounts - {account})
  }

  function AfterCancelAll(db: Db, now: int): Db {
    db.(jobs := map k | k in db.jobs :: if db.jobs[k].finishedAt.None? then Ended(db.jobs[k], now) else db.jobs[k])
  }

  predicate Stale(j: Job, before: int) {
    j.finishedAt.Some? && j.finishedAt.value < before
  }

  function AfterPrune(db: Db, before: int): Db {
    db.(jobs := map k | k in db.jobs && !Stale(db.jobs[k], before) :: db.jobs[k])
  }

  // ----- Documents and migration -----

  const MARKER := "model/source-evidence-v1"

  const RETIRED: seq<string> := ["device/", "source/", "alias/", "serial/", "serialconflict/", "field/", "indexes/"]

  const PURGED: seq<string> := RETIRED + ["jobpage/"]

  predicate Under(key: string, prefixes: seq<string>) {
    exists i :: 0 <= i < |prefixes| && prefixes[i] <= key
  }

  predicate Retired(key: string) {
    Under(key, RETIRED)
  }

  /** Once the marker exists, a write to a retired namespace is refused. */
  predicate MayPut(db: Db, key: string) {
    !(Retired(key) && MARKER in db.docs)
  }

  predicate Migrated(db: Db) {
    MARKER in db.docs
  }

  predicate Restarts(j: Job) {
    j.finishedAt.None? && Open(j)
  }

  function Restarted(j: Job, generation: string): Job {
    j.(generation := generation, progress := FROM_START, state := if j.state == Running then Queued else j.state)
  }

  function Migration(j: Job, generation: string): Job {
    if Restarts(j) then Restarted(j, generation) else j
  }

  /** `evidence` holds the documents rebuilt from the old aggregates; `generations` the new generation of each job. */
  function AfterMigrate(db: Db, fence: string, generations: map<string, string>, evidence: map<string, string>): Db
    requires forall k :: k in db.jobs ==> k in generations
  {
    if Migrated(db) then db
    else Db(map k | k in db.jobs :: Migration(db.jobs[k], generations[k]),
            if db.lease.Some? then Some(db.lease.value.(owner := fence)) else None,
            db.accounts,
            (map k | k in (db.docs + evidence) && !Under(k, PURGED) :: (db.docs + evidence)[k])[MARKER := "true"])
  }
}
