/** Every interleaving of any number of replicas working on assignment workflows. */
module AssignmentRuns {
  import opened Basics
  import opened Assignment

  /** Where a replica is inside `Step`, between two transactions. */
  datatype Phase =
    | Start          // claimed, nothing done yet
    | Marking        // about to commit the "submitting" marker
    | Ready          // marker committed, POST not sent
    | Accepting      // about to commit the accepted activity
    | Reading        // about to read the activity
    | Ending         // about to commit the terminal status
    | Fetching       // about to fetch the log
    | Logging(csv: Bytes)     // about to commit the log
    | Observing(next: nat)    // about to observe target `next`
    | Releasing      // about to commit and give the lease back

  datatype Worker = Worker(w: Workflow, phase: Phase)

  /** One assignment POST, with the stored states at the moment it was sent. */
  datatype Post = Post(id: string, owner: string, account: string, serials: seq<string>, states: map<string, State>)

  /** The stored documents, the live replicas, and the history the theorems are about. */
  datatype Sys = Sys(
    db: Db,
    workers: map<string, Worker>,
    issued: set<string>,
    born: seq<string>,
    marks: map<string, string>,
    posts: seq<Post>,
    saved: map<string, Bytes>,
    generations: set<string>,
    created: set<(string, int)>)

  /** Work of one replica on its own copy. Replies from Apple and times are part of the move. */
  datatype Move =
    | Fail(code: string, devices: seq<string>, now: int)
    | Prepare(devices: seq<string>, now: int)
    | Resume
    | ReadActivity(status: string, subStatus: string)
    | SkipLog
    | FetchLog(csv: Bytes, complete: bool, succeeded: bool, rows: seq<(string, string)>)
    | Observe(service: string, now: int)
    | Settle(now: int)

  /** What can happen next: changes of configuration, requests, and steps or crashes of replicas. */
  datatype Action =
    | Administer(change: Change)
    | Request(account: string, id: string, serials: seq<string>, op: Operation, now: int)
    | Claim(id: string, owner: string, now: int)
    | Crash(owner: string)
    | Local(owner: string, move: Move)
    | Send(owner: string, activity: string, now: int)
    | Commit(owner: string, now: int, observed: bool)

  // ----- The local part of a step -----

  function WithDevices(targets: seq<Target>, devices: seq<string>): seq<Target> {
    seq(|targets|, i requires 0 <= i < |targets| =>
      if i < |devices| then targets[i].(deviceId := devices[i]) else targets[i])
  }

  function LastOutcome(rows: seq<(string, string)>, serial: string, default: string): string {
    if rows == [] then default
    else if rows[|rows| - 1].0 == serial then rows[|rows| - 1].1
    else LastOutcome(rows[..|rows| - 1], serial, default)
  }

  function WithOutcomes(targets: seq<Target>, rows: seq<(string, string)>): seq<Target> {
    seq(|targets|, i requires 0 <= i < |targets| =>
      targets[i].(outcome := LastOutcome(rows, targets[i].serial, targets[i].outcome)))
  }

  function Desired(w: Workflow): string {
    if w.operation == Unassign then "" else w.binding.service
  }

  predicate Settled(w: Workflow) {
    forall i :: 0 <= i < |w.targets| && w.targets[i].outcome == w.binding.columns.success ==> w.targets[i].converged
  }

  /** `fail`: keep what was learned, note the code, retry later. */
  function Failing(w: Workflow, code: string, now: int): Worker {
    Worker(w.(error := code, nextAttempt := now + 5_000_000_000), Releasing)
  }

  function AfterFail(k: Worker, code: string, devices: seq<string>, now: int): Worker {
    if k.phase == Start && k.w.state == Queued then
      Failing(k.w.(targets := WithDevices(k.w.targets, devices)), code, now)
    else Failing(k.w, code, now)
  }

  function Prepared(w: Workflow, devices: seq<string>, now: int): Worker {
    Worker(w.(targets := WithDevices(w.targets, devices), startedAt := Some(now), state := Submitting, error := ""), Marking)
  }

  function Answered(w: Workflow, activity: string, now: int): Worker {
    if activity == "" then Failing(w.(state := Uncertain), "submission_uncertain", now)
    else Worker(w.(activity := activity, acceptedAt := Some(now), state := Accepted), Accepting)
  }

  function ActivityRead(w: Workflow, status: string, subStatus: string): Worker {
    if w.activity == "" || status == "" then Worker(w, Observing(0))
    else Worker(w.(terminalStatus := status, terminalSubStatus := subStatus, state := Terminal), Ending)
  }

  function LogFetched(w: Workflow, csv: Bytes, complete: bool, succeeded: bool, rows: seq<(string, string)>): Worker {
    Worker(w.(logComplete := complete, logSucceeded := succeeded, targets := WithOutcomes(w.targets, rows),
              error := if complete then "" else "log_incomplete"), Logging(csv))
  }

  function Observed(w: Workflow, i: nat, service: string, now: int): Worker
    requires i < |w.targets|
  {
    Worker(w.(targets := w.targets[i := w.targets[i].(observedService := service, observedAt := Some(now),
                                                      converged := service == Desired(w))]), Observing(i + 1))
  }

  function Finished(w: Workflow, now: int): Worker {
    var state := if w.terminalStatus != "" && w.logComplete && Settled(w) then Complete else w.state;
    Worker(w.(state := state, nextAttempt := now + 5_000_000_000), Releasing)
  }

  predicate CanMove(k: Worker, m: Move) {
    match m
    case Fail(_, _, _) => k.phase in {Start, Reading, Fetching} || k.phase.Observing?
    case Prepare(_, _) => k.phase == Start && k.w.state == Queued
    case Resume => k.phase == Start && k.w.state != Queued
    case ReadActivity(_, _) => k.phase == Reading
    case SkipLog => k.phase == Fetching
    case FetchLog(_, _, _, _) => k.phase == Fetching && !k.w.logComplete
    case Observe(_, _) => k.phase.Observing? && k.phase.next < |k.w.targets|
    case Settle(_) => k.phase.Observing? && k.phase.next == |k.w.targets|
  }

  function AfterMove(k: Worker, m: Move): Worker
    requires CanMove(k, m)
  {
    match m
    case Fail(code, devices, now) => AfterFail(k, code, devices, now)
    case Prepare(devices, now) => Prepared(k.w, devices, now)
    case Resume => Worker(k.w, Reading)
    case ReadActivity(status, subStatus) => ActivityRead(k.w, status, subStatus)
    case SkipLog => Worker(k.w, Observing(0))
    case FetchLog(csv, complete, succeeded, rows) => LogFetched(k.w, csv, complete, succeeded, rows)
    case Observe(service, now) => Observed(k.w, k.phase.next, service, now)
    case Settle(now) => Finished(k.w, now)
  }

  // ----- One transition -----

  predicate Commits(p: Phase) {
    p in {Marking, Accepting, Ending, Releasing} || p.Logging?
  }

  /** Generations are new, and an account that is created again has another creation time than before. */
  predicate MayChange(s: Sys, c: Change) {
    && Accepts(s.db, c)
    && (c.SaveAccount? && Creates(s.db, c.account.id) ==> (c.account.id, c.now) !in s.created)
    && (c.Configure? ==> c.generation !in s.generations)
  }

  function AfterChange(s: Sys, c: Change): Sys
    requires MayChange(s, c)
  {
    s.(db := s.db.(accounts := AccountsAfter(s.db, c), keys := KeysAfter(s.db, c), bindings := BindingsAfter(s.db, c)),
       generations := if c.Configure? then s.generations + {c.generation} else s.generations,
       created := if c.SaveAccount? then s.created + {(c.account.id, SavedAccount(s.db, c.account, c.key, c.now).createdAt)} else s.created)
  }

  predicate Enabled(s: Sys, a: Action) {
    match a
    case Administer(change) => MayChange(s, change)
    case Request(_, _, _, _, _) => true
    case Claim(_, owner, _) => owner !in s.issued
    case Crash(owner) => owner in s.workers
    case Local(owner, move) => owner in s.workers && CanMove(s.workers[owner], move)
    case Send(owner, _, _) => owner in s.workers && s.workers[owner].phase == Ready
    case Commit(owner, _, _) => owner in s.workers && Commits(s.workers[owner].phase)
  }

  function Serials(w: Workflow): seq<string> {
    seq(|w.targets|, i requires 0 <= i < |w.targets| => w.targets[i].serial)
  }

  function States(db: Db): map<string, State> {
    map id | id in db.workflows :: db.workflows[id].state
  }

  function Moved(s: Sys, owner: string, k: Worker): Sys {
    s.(workers := s.workers[owner := k])
  }

  function Gone(s: Sys, owner: string): Sys {
    s.(workers := s.workers - {owner})
  }

  function AfterClaimStep(s: Sys, id: string, owner: string, now: int): Sys {
    var t := s.(db := AfterClaim(s.db, id, owner, now), issued := s.issued + {owner});
    if Claimable(s.db, id, now) && Authorized(s.db, s.db.workflows[id].binding)
    then Moved(t, owner, Worker(Claimed(s.db.workflows[id]), Start)) else t
  }

  /** The phase that a successful commit leads to; `Releasing` ends the step. */
  function PhaseAfter(p: Phase): Phase {
    match p
    case Marking => Ready
    case Accepting => Reading
    case Ending => Fetching
    case Logging(_) => Observing(0)
    case _ => Start
  }

  function Evidence(p: Phase): Option<Bytes> {
    if p.Logging? then Some(p.csv) else None
  }

  function AfterCommitStep(s: Sys, owner: string, now: int, observed: bool): Sys
    requires owner in s.workers
  {
    var k := s.workers[owner];
    if !observed || !MayCommit(s.db, k.w, owner, now) then Gone(s, owner)
    else
      var t := s.(db := AfterCommit(s.db, k.w, owner, Evidence(k.phase), k.phase == Releasing, now),
                  marks := if k.phase == Marking then s.marks[k.w.id := owner] else s.marks,
                  saved := if k.phase.Logging? then s.saved[k.w.id := k.phase.csv] else s.saved);
      if k.phase == Releasing then Gone(t, owner)
      else Moved(t, owner, Worker(k.w.(updatedAt := now), PhaseAfter(k.phase)))
  }

  function AfterSend(s: Sys, owner: string, activity: string, now: int): Sys
    requires owner in s.workers
  {
    var w := s.workers[owner].w;
    var t := s.(posts := s.posts + [Post(w.id, owner, w.binding.account, Serials(w), States(s.db))]);
    Moved(t, owner, Answered(w, activity, now))
  }

  function AfterRequestStep(s: Sys, account: string, id: string, serials: seq<string>, op: Operation, now: int): Sys {
    var db := AfterRequest(s.db, account, id, serials, op, now);
    s.(db := db, born := if id in db.workflows && id !in s.db.workflows then s.born + [id] else s.born)
  }

  function Next(s: Sys, a: Action): Sys
    requires Enabled(s, a)
  {
    match a
    case Administer(change) => AfterChange(s, change)
    case Request(account, id, serials, op, now) => AfterRequestStep(s, account, id, serials, op, now)
    case Claim(id, owner, now) => AfterClaimStep(s, id, owner, now)
    case Crash(owner) => Gone(s, owner)
    case Local(owner, move) => Moved(s, owner, AfterMove(s.workers[owner], move))
    case Send(owner, activity, now) => AfterSend(s, owner, activity, now)
    case Commit(owner, now, observed) => AfterCommitStep(s, owner, now, observed)
  }

  const Initial := Sys(Db(map[], map[], map[], map[], map[], map[], map[]), map[], {}, [], map[], [], map[], {}, {})

  /** The state after a run; an action that is not possible changes nothing. */
  function Run(actions: seq<Action>): Sys {
    if actions == [] then Initial
    else
      var s := Run(actions[..|actions| - 1]);
      var a := actions[|actions| - 1];
      if Enabled(s, a) then Next(s, a) else s
  }
}
