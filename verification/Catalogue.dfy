/** The package catalogue: each operation is one transaction over records, content rows and history rows. */
module Catalogue {
  import opened Basics

  datatype Error = Invalid | NotFound | Conflict | Integrity

  /** `parent` and `pinned` are empty when unset. The bytes of a package stand for their own digest. */
  datatype Metadata = Metadata(parent: string, pinned: string)

  datatype Record = Record(
    revision: string, metadata: Metadata, content: Option<Content>, manifest: Option<string>, deleting: bool, sequence: nat)

  /** A verified upload; its revision names the row and the blob. */
  datatype Content = Content(revision: string, backend: string, bytes: string)

  datatype Entry = Entry(revision: string, action: string, metadata: Metadata, content: Option<Content>)

  /** A content row or a history row is addressed by its package and its revision or sequence. */
  datatype RowKey = RowKey(id: string, revision: string)

  datatype EntryKey = EntryKey(id: string, sequence: nat)

  type Records = map<string, Record>

  datatype Store = Store(records: Records, rows: map<RowKey, Content>, history: map<EntryKey, Entry>)

  datatype Tx =
    | Create(id: string, token: string, metadata: Metadata)
    | Update(id: string, expected: string, token: string, metadata: Metadata)
    | Note(id: string, expected: string, token: string)
    | AssignManifest(id: string, expected: string, token: string)
    | DeleteManifest(id: string, expected: string, token: string)
    | Commit(id: string, expected: string, token: string, content: Content)
    | Tombstone(id: string, expected: string)
    | DropRow(id: string, revision: string)
    | Remove(id: string, expected: string)

  predicate Match(pinned: string, bytes: string) {
    pinned == "" || pinned == bytes
  }

  // ----- Parents -----

  const MAX_CHAIN := 1000

  /** Walks up from `current`; `seen` holds the package itself and every parent visited. */
  function ParentError(records: Records, current: string, seen: set<string>): Option<Error>
    decreases MAX_CHAIN + 1 - |seen|
  {
    if current == "" then None
    else if current in seen then Some(Invalid)
    else if |seen| > MAX_CHAIN then Some(Invalid)
    else if current !in records then Some(NotFound)
    else if records[current].deleting then Some(Conflict)
    else ParentError(records, records[current].metadata.parent, seen + {current})
  }

  predicate HasChild(records: Records, id: string) {
    exists k :: k in records && records[k].metadata.parent == id
  }

  // ----- Transactions -----

  /** The guard shared by every edit under optimistic concurrency. */
  function EditError(records: Records, id: string, expected: string): Option<Error> {
    if expected == "" then Some(Invalid)
    else if id !in records then Some(NotFound)
    else if records[id].revision != expected || records[id].deleting then Some(Conflict)
    else None
  }

  function TxError(s: Store, tx: Tx): Option<Error> {
    match tx
    case Create(id, token, metadata) => ParentError(s.records, metadata.parent, {id})
    case Update(id, expected, token, metadata) =>
      if EditError(s.records, id, expected).Some? then EditError(s.records, id, expected)
      else if ParentError(s.records, metadata.parent, {id}).Some? then ParentError(s.records, metadata.parent, {id})
      else if s.records[id].content.Some? && !Match(metadata.pinned, s.records[id].content.value.bytes) then Some(Integrity)
      else None
    case Note(id, expected, token) => EditError(s.records, id, expected)
    case AssignManifest(id, expected, token) =>
      if EditError(s.records, id, expected).Some? then EditError(s.records, id, expected)
      else if s.records[id].content.None? then Some(Invalid)
      else None
    case DeleteManifest(id, expected, token) => EditError(s.records, id, expected)
    case Commit(id, expected, token, content) => EditError(s.records, id, expected)
    case Tombstone(id, expected) =>
      if expected == "" then Some(Invalid)
      else if id !in s.records then Some(NotFound)
      else if s.records[id].revision != expected then Some(Conflict)
      else if !s.records[id].deleting && HasChild(s.records, id) then Some(Conflict)
      else None
    case DropRow(id, revision) => None
    case Remove(id, expected) =>
      if id in s.records && (!s.records[id].deleting || s.records[id].revision != expected) then Some(Conflict) else None
  }

  /** Writes a record together with the history entry of the change. */
  function Logged(s: Store, id: string, r: Record, action: string): Store {
    var next := r.(sequence := r.sequence + 1);
    s.(records := s.records[id := next],
       history := s.history[EntryKey(id, next.sequence) := Entry(next.revision, action, next.metadata, next.content)])
  }

  function Apply(s: Store, tx: Tx): Store
    requires TxError(s, tx).None?
  {
    match tx
    case Create(id, token, metadata) => Logged(s, id, Record(token, metadata, None, None, false, 0), "created")
    case Update(id, expected, token, metadata) =>
      Logged(s, id, s.records[id].(metadata := metadata, revision := token), "updated")
    case Note(id, expected, token) => Logged(s, id, s.records[id].(revision := token), "note-added")
    case AssignManifest(id, expected, token) =>
      Logged(s, id, s.records[id].(manifest := Some(s.records[id].content.value.revision), revision := token), "manifest-assigned")
    case DeleteManifest(id, expected, token) =>
      Logged(s, id, s.records[id].(manifest := None, revision := token), "manifest-deleted")
    case Commit(id, expected, token, content) =>
      Logged(s.(rows := s.rows[RowKey(id, content.revision) := content]), id,
             s.records[id].(content := Some(content), manifest := None, revision := token), "uploaded")
    case Tombstone(id, expected) =>
      if s.records[id].deleting then s else Logged(s, id, s.records[id].(deleting := true), "deletion-started")
    case DropRow(id, revision) => s.(rows := s.rows - {RowKey(id, revision)})
    case Remove(id, expected) =>
      if id !in s.records then s
      else
        var logged := Logged(s, id, s.records[id], "deleted");
        logged.(records := logged.records - {id})
  }

  // ----- The package forest -----

  /** The `n`-th ancestor, "" past the top. */
  function Up(records: Records, x: string, n: nat): string
    decreases n
  {
    if n == 0 then x else if x in records then Up(records, records[x].metadata.parent, n - 1) else ""
  }

  ghost predicate Rooted(records: Records, x: string) {
    exists n: nat :: Up(records, x, n) == ""
  }

  /** Every parent exists and is not being deleted, and following parents always ends. */
  ghost predicate Forest(records: Records) {
    && "" !in records
    && (forall x :: x in records && records[x].metadata.parent != "" ==>
         records[x].metadata.parent in records && !records[records[x].metadata.parent].deleting)
    && (forall x :: x in records ==> Rooted(records, x))
  }

  /** A live package has exactly the history rows 1 up to its sequence. */
  ghost predicate Recorded(s: Store) {
    forall id, n: nat :: id in s.records ==> (EntryKey(id, n) in s.history <==> 1 <= n <= s.records[id].sequence)
  }

  // ----- What an accepted parent means -----

  lemma {:induction false} UpAdd(records: Records, x: string, a: nat, b: nat)
    requires "" !in records
    ensures Up(records, x, a + b) == Up(records, Up(records, x, a), b)
    decreases a
  {
    if a > 0 {
      if x in records { UpAdd(records, records[x].metadata.parent, a - 1, b); } else { PastTop(records, b); }
    }
  }

  lemma {:induction false} PastTop(records: Records, n: nat)
    requires "" !in records
    ensures Up(records, "", n) == ""
  {
  }

  /** A chain that ends never comes back to where it was. */
  lemma {:induction false} NoLoop(records: Records, x: string, j: nat, n: nat)
    requires "" !in records && x != "" && j > 0 && Up(records, x, n) == ""
    ensures Up(records, x, j) != x
    decreases n
  {
    if Up(records, x, j) == x {
      if n >= j {
        UpAdd(records, x, j, n - j);
        NoLoop(records, x, j, n - j);
      } else {
        UpAdd(records, x, n, j - n);
        PastTop(records, j - n);
      }
    }
  }

  /** What an accepted walk has established: a chain of live packages that ends without meeting `seen`. */
  lemma {:induction false} Walked(records: Records, current: string, seen: set<string>) returns (n: nat)
    requires ParentError(records, current, seen).None? && |seen| <= MAX_CHAIN + 1
    ensures Up(records, current, n) == "" && n + |seen| <= MAX_CHAIN + 1
    ensures forall m :: 0 <= m < n ==>
      Up(records, current, m) in records && Up(records, current, m) !in seen && !records[Up(records, current, m)].deleting
    ensures current != "" ==> n > 0
    decreases MAX_CHAIN + 1 - |seen|
  {
    if current == "" {
      n := 0;
    } else {
      var rest := Walked(records, records[current].metadata.parent, seen + {current});
      n := rest + 1;
      assert forall m :: 0 < m < n ==> Up(records, current, m) == Up(records, records[current].metadata.parent, m - 1);
    }
  }

  /** Conversely, in a forest such a chain is accepted. */
  lemma {:induction false} Walks(records: Records, current: string, seen: set<string>, n: nat)
    requires Forest(records) && Up(records, current, n) == "" && n + |seen| <= MAX_CHAIN + 1
    requires forall m :: 0 <= m < n ==> Up(records, current, m) !in seen
    requires current != "" ==> current in records && !records[current].deleting
    ensures ParentError(records, current, seen).None?
    decreases n
  {
    if current != "" {
      assert n > 0 && Up(records, current, 0) !in seen;
      var parent := records[current].metadata.parent;
      forall m | 0 <= m < n - 1 ensures Up(records, parent, m) !in seen + {current} {
        assert Up(records, current, m + 1) == Up(records, parent, m);
        NoLoop(records, current, m + 1, n);
      }
      Walks(records, parent, seen + {current}, n - 1);
    }
  }

  /** The package is not the given one or one of its ancestors. */
  ghost predicate Clear(records: Records, from: string, id: string) {
    forall m: nat :: Up(records, from, m) != id
  }

  /**
   * In a forest a parent is accepted exactly when it is empty, or a live package with at most 1000 packages from it
   * to its root, none of them the package itself.
   */
  lemma {:induction false} ParentAccepted(records: Records, id: string, parent: string)
    requires Forest(records) && id != ""
    ensures ParentError(records, parent, {id}).None? <==>
      || parent == ""
      || (parent in records && !records[parent].deleting && Up(records, parent, MAX_CHAIN) == "" && Clear(records, parent, id))
  {
    if ParentError(records, parent, {id}).None? {
      var n := Walked(records, parent, {id});
      assert Up(records, parent, 0) == parent;
      forall m: nat | m >= n ensures Up(records, parent, m) == "" {
        UpAdd(records, parent, n, m - n);
        PastTop(records, m - n);
      }
    }
    if parent in records && !records[parent].deleting && Up(records, parent, MAX_CHAIN) == "" && Clear(records, parent, id) {
      var n := FirstTop(records, parent, MAX_CHAIN);
      Walks(records, parent, {id}, n);
    }
  }

  lemma {:induction false} FirstTop(records: Records, x: string, n: nat) returns (first: nat)
    requires Up(records, x, n) == ""
    ensures first <= n && Up(records, x, first) == "" && forall m :: 0 <= m < first ==> Up(records, x, m) != ""
  {
    first := 0;
    while Up(records, x, first) != ""
      invariant first <= n && forall m :: 0 <= m < first ==> Up(records, x, m) != ""
      decreases n - first
    {
      first := first + 1;
    }
  }
}
