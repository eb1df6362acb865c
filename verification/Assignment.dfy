/** Device assignment workflows: the stored documents and the transactions on them. */
module Assignment {
  import opened Basics

  datatype Error = Invalid | NotFound | Conflict | Stopped | LeaseLost

  datatype Result<+T> = Ok(value: T) | Err(error: Error)

  datatype State = Queued | Submitting | Uncertain | Accepted | Terminal | Complete | Fenced

  datatype Operation = Assign | Unassign

  /**
   * `connection` stands for the fields that need a new key when they change, `settings` for those no transition looks at
   * one by one. Creation time 0 is Go's zero time.
   */
  datatype Account = Account(
    id: string, enabled: bool, revision: int, connection: string, settings: string,
    createdAt: int, updatedAt: int, verifiedAt: Option<int>)

  /** The digest of an account and its key; a digest is taken to be as good as what it digests. */
  datatype Fingerprint = Fingerprint(account: Account, key: string)

  datatype Columns = Columns(serial: string, outcome: string, success: string)

  datatype Binding = Binding(
    generation: string, account: string, revision: int, fingerprint: Fingerprint, service: string, columns: Columns)

  datatype Target = Target(
    serial: string, deviceId: string, outcome: string,
    observedService: string, observedAt: Option<int>, converged: bool)

  datatype Workflow = Workflow(
    operation: Operation, id: string, binding: Binding, state: State, targets: seq<Target>,
    activity: string, startedAt: Option<int>, acceptedAt: Option<int>,
    terminalStatus: string, terminalSubStatus: string, logComplete: bool, logSucceeded: bool,
    error: string, createdAt: int, updatedAt: int, nextAttempt: int)

  datatype Lease = Lease(owner: string, until: int)

  type Bytes = seq<bv8>

  /** Every document the workflow code reads or writes, one map per key prefix. */
  datatype Db = Db(
    accounts: map<string, Account>,
    keys: map<string, string>,
    bindings: map<string, Binding>,
    workflows: map<string, Workflow>,
    leases: map<string, Lease>,
    chunks: map<(string, nat), Bytes>,
    counts: map<string, nat>)

  const LEASE_TIME := 120_000_000_000
  const CHUNK_SIZE := 0x40_0000

  function Print(a: Account, key: string): Fingerprint {
    Fingerprint(a.(verifiedAt := None), key)
  }

  /** The enabled account and its key. */
  function Snapshot(db: Db, id: string): Result<Fingerprint> {
    if id !in db.accounts then Err(NotFound)
    else if !db.accounts[id].enabled then Err(Stopped)
    else if id !in db.keys then Err(NotFound)
    else Ok(Print(db.accounts[id], db.keys[id]))
  }

  // ----- account configuration -----

  function StoredRevision(db: Db, id: string): int {
    if id in db.accounts then db.accounts[id].revision else 0
  }

  function StoredConnection(db: Db, id: string): string {
    if id in db.accounts then db.accounts[id].connection else ""
  }

  /** Saving compares revisions, and a changed connection needs a key. */
  predicate MaySave(db: Db, a: Account, key: Option<string>) {
    && ValidId(a.id) && a.connection != "" && a.revision == StoredRevision(db, a.id)
    && (a.connection != StoredConnection(db, a.id) ==> key.Some?)
  }

  /** Whether saving gives the account its creation time. */
  predicate Creates(db: Db, id: string) {
    id !in db.accounts || db.accounts[id].createdAt == 0
  }

  function SavedAccount(db: Db, a: Account, key: Option<string>, now: int): Account {
    a.(revision := a.revision + 1, updatedAt := now,
       createdAt := if Creates(db, a.id) then now else db.accounts[a.id].createdAt,
       verifiedAt := if key.Some? || a.id !in db.accounts then None else db.accounts[a.id].verifiedAt)
  }

  predicate IsRevision(db: Db, id: string, revision: int) {
    id in db.accounts && db.accounts[id].revision == revision
  }

  predicate MayConfigure(db: Db, account: string, revision: int, service: string, columns: Columns) {
    && !Blank(service) && columns.serial != "" && columns.outcome != "" && columns.success != "" && columns.serial != columns.outcome
    && Snapshot(db, account).Ok? && db.accounts[account].revision == revision
  }

  function NewBinding(db: Db, account: string, generation: string, service: string, columns: Columns): Binding
    requires Snapshot(db, account).Ok?
  {
    Binding(generation, account, db.accounts[account].revision, Snapshot(db, account).value, service, columns)
  }

  /** The ways in which an account, its key or its binding changes. */
  datatype Change =
    | SaveAccount(account: Account, key: Option<string>, now: int)
    | VerifyAccount(id: string, revision: int, at: int)
    | DeleteAccount(id: string, revision: int)
    | Configure(id: string, revision: int, service: string, columns: Columns, generation: string)

  predicate Accepts(db: Db, c: Change) {
    match c
    case SaveAccount(account, key, _) => MaySave(db, account, key)
    case VerifyAccount(id, revision, _) => IsRevision(db, id, revision)
    case DeleteAccount(id, revision) => IsRevision(db, id, revision)
    case Configure(id, revision, service, columns, _) => MayConfigure(db, id, revision, service, columns)
  }

  function AccountsAfter(db: Db, c: Change): map<string, Account>
    requires Accepts(db, c)
  {
    match c
    case SaveAccount(account, key, now) => db.accounts[account.id := SavedAccount(db, account, key, now)]
    case VerifyAccount(id, _, at) => db.accounts[id := db.accounts[id].(verifiedAt := Some(at))]
    case DeleteAccount(id, _) => db.accounts - {id}
    case Configure(_, _, _, _, _) => db.accounts
  }

  function KeysAfter(db: Db, c: Change): map<string, string> {
    match c
    case SaveAccount(account, key, _) => if key.Some? then db.keys[account.id := key.value] else db.keys
    case DeleteAccount(id, _) => db.keys - {id}
    case _ => db.keys
  }

  /** Deleting an account leaves its binding behind. */
  function BindingsAfter(db: Db, c: Change): map<string, Binding>
    requires Accepts(db, c)
  {
    match c
    case Configure(id, _, service, columns, generation) => db.bindings[id := NewBinding(db, id, generation, service, columns)]
    case _ => db.bindings
  }

  // ----- claim -----

  /** Whether the account, key and binding are still those the workflow was requested under. */
  predicate Authorized(db: Db, b: Binding) {
    Current(db, b) && db.accounts[b.account].revision == b.revision
  }

  function Claimed(w: Workflow): Workflow {
    if w.state == Submitting then w.(state := Uncertain, error := "submission_interrupted") else w
  }

  function FencedOff(w: Workflow, now: int): Workflow {
    w.(state := Fenced, error := "account_or_service_replaced", updatedAt := now)
  }

  predicate Claimable(db: Db, id: string, now: int) {
    && id in db.workflows
    && db.workflows[id].state != Complete && db.workflows[id].state != Fenced
    && db.workflows[id].nextAttempt <= now
    && (id in db.leases ==> db.leases[id].until <= now)
  }

  function ClaimError(db: Db, id: string, now: int): Error
    requires !Claimable(db, id, now)
  {
    if id !in db.workflows then NotFound
    else if db.workflows[id].state == Complete || db.workflows[id].state == Fenced
            || now < db.workflows[id].nextAttempt then Stopped
    else LeaseLost
  }

  function AfterClaim(db: Db, id: string, owner: string, now: int): Db {
    if !Claimable(db, id, now) then db
    else
      var w := db.workflows[id];
      if !Authorized(db, w.binding) then db.(workflows := db.workflows[id := FencedOff(w, now)])
      else db.(workflows := db.workflows[id := Claimed(w)], leases := db.leases[id := Lease(owner, now + LEASE_TIME)])
  }

  // ----- commit -----

  /** The account, the key and the binding are those of the binding. */
  predicate Current(db: Db, b: Binding) {
    && Snapshot(db, b.account).Ok?
    && b.account in db.bindings && db.bindings[b.account] == b
    && Snapshot(db, b.account).value == b.fingerprint
  }

  /** Commit looks at the lease, the account, the key and the binding, never at the stored state. */
  predicate MayCommit(db: Db, w: Workflow, owner: string, now: int) {
    w.id in db.leases && db.leases[w.id].owner == owner && now < db.leases[w.id].until && Current(db, w.binding)
  }

  function ChunkCount(csv: Bytes): nat {
    (|csv| + CHUNK_SIZE - 1) / CHUNK_SIZE
  }

  function Chunk(csv: Bytes, i: nat): Bytes
    requires i < ChunkCount(csv)
  {
    csv[i * CHUNK_SIZE..if (i + 1) * CHUNK_SIZE < |csv| then (i + 1) * CHUNK_SIZE else |csv|]
  }

  /** The chunk rows after the first `n` chunks of `csv` were written over whatever was there. */
  function WithChunks(chunks: map<(string, nat), Bytes>, id: string, csv: Bytes, n: nat): map<(string, nat), Bytes>
    requires n <= ChunkCount(csv)
  {
    if n == 0 then chunks else WithChunks(chunks, id, csv, n - 1)[(id, n - 1) := Chunk(csv, n - 1)]
  }

  function WithEvidence(db: Db, id: string, evidence: Option<Bytes>): Db {
    match evidence
    case None => db
    case Some(csv) =>
      db.(chunks := WithChunks(db.chunks, id, csv, ChunkCount(csv)), counts := db.counts[id := ChunkCount(csv)])
  }

  function AfterCommit(db: Db, w: Workflow, owner: string, evidence: Option<Bytes>, release: bool, now: int): Db {
    var d := WithEvidence(db, w.id, evidence);
    d.(workflows := d.workflows[w.id := w.(updatedAt := now)],
       leases := if release then d.leases - {w.id} else d.leases[w.id := Lease(owner, now + LEASE_TIME)])
  }

  // ----- request -----

  predicate Blank(s: string) {
    forall i :: 0 <= i < |s| ==> BlankChar(s[i])
  }

  predicate IdChar(c: char) {
    'a' <= c <= 'z' || 'A' <= c <= 'Z' || '0' <= c <= '9' || c == '-' || c == '_'
  }

  predicate ValidSerials(serials: seq<string>) {
    && 0 < |serials| <= 1000
    && (forall i :: 0 <= i < |serials| ==> !Blank(serials[i]))
    && (forall i, j :: 0 <= i < j < |serials| ==> serials[i] != serials[j])
  }

  predicate ValidId(id: string) {
    0 < |id| <= 128 && forall i :: 0 <= i < |id| ==> IdChar(id[i])
  }

  /** An unfinished workflow keeps its devices; so does a fenced one whose submission may have gone out. */
  predicate Outstanding(w: Workflow) {
    w.state != Complete && (w.state != Fenced || w.startedAt.Some?)
  }

  predicate Overlaps(w: Workflow, account: string, serials: seq<string>) {
    w.binding.account == account && exists i :: 0 <= i < |w.targets| && w.targets[i].serial in serials
  }

  predicate SameRequest(w: Workflow, b: Binding, op: Operation, serials: seq<string>) {
    && w.operation == op && w.binding == b && |w.targets| == |serials|
    && forall i :: 0 <= i < |serials| ==> w.targets[i].serial == serials[i]
  }

  function NewTargets(serials: seq<string>): seq<Target> {
    seq(|serials|, i requires 0 <= i < |serials| => Target(serials[i], "", "", "", None, false))
  }

  function NewWorkflow(id: string, op: Operation, b: Binding, serials: seq<string>, now: int): Workflow {
    Workflow(op, id, b, Queued, NewTargets(serials), "", None, None, "", "", false, false, "", now, now, now)
  }

  /** The binding a request would run under, or why it is refused before any workflow is looked at. */
  function RequestBinding(db: Db, account: string): Result<Binding> {
    var s := Snapshot(db, account);
    if s.Err? then Err(s.error)
    else if account !in db.bindings then Err(NotFound)
    else
      var b := db.bindings[account];
      if b.revision != db.accounts[account].revision || b.fingerprint != s.value then Err(Conflict) else Ok(b)
  }

  predicate Blocked(db: Db, account: string, serials: seq<string>) {
    exists id :: id in db.workflows && Outstanding(db.workflows[id]) && Overlaps(db.workflows[id], account, serials)
  }

  /** What a request answers: a new workflow, the one a retry already made, or an error. */
  function RequestReply(db: Db, account: string, id: string, serials: seq<string>, op: Operation, now: int): Result<Workflow> {
    if !ValidId(id) || !ValidSerials(serials) then Err(Invalid)
    else
      var b := RequestBinding(db, account);
      if b.Err? then Err(b.error)
      else if id in db.workflows then
        if SameRequest(db.workflows[id], b.value, op, serials) then Ok(db.workflows[id]) else Err(Conflict)
      else if Blocked(db, account, serials) then Err(Conflict)
      else Ok(NewWorkflow(id, op, b.value, serials, now))
  }

  function AfterRequest(db: Db, account: string, id: string, serials: seq<string>, op: Operation, now: int): Db {
    var r := RequestReply(db, account, id, serials, op, now);
    if r.Ok? && id !in db.workflows then db.(workflows := db.workflows[id := r.value]) else db
  }
}
