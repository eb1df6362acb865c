/**
 * Uploads and deletions interleaved with every other catalogue transaction. Metadata and blobs live in two stores
 * with no common transaction, so each call is a process that takes one step at a time and may stop anywhere.
 */
module CatalogueRuns {
  import opened Basics
  import opened Catalogue
  import opened CatalogueForest

  /** Where a package's bytes are kept. */
  datatype Place = Place(backend: string, id: string, revision: string)

  datatype UploadPhase = Staged | Stored | Verified | Committed | Failed | Cleaned

  /** An upload whose record was read, and whose bytes matched that record's pinned digest. */
  datatype Upload = Upload(id: string, expected: string, content: Content, phase: UploadPhase)

  datatype DeletePhase = Idle | Scanning | BlobGone | Empty | Ended

  /**
   * A deletion after its tombstone: the rows of the last listing and how many of them are gone. `lists` counts the
   * listings that found rows, and `bound` the rows there were at the start.
   */
  datatype Deletion = Deletion(
    id: string, expected: string, rows: seq<Content>, next: nat, phase: DeletePhase, lists: nat, bound: nat)

  datatype Sys = Sys(
    store: Store, blobs: map<Place, string>, uploads: map<nat, Upload>, deletions: map<nat, Deletion>, tokens: set<string>)

  datatype Action =
    | Edit(tx: Tx)
    | Begin(u: nat, id: string, expected: string, content: Content)
    | PutBlob(u: nat, written: Option<string>, ok: bool)
    | ReadBack(u: nat, ok: bool)
    | CommitUpload(u: nat, token: string, ok: bool)
    | Cleanup(u: nat, gone: bool, ok: bool)
    | BeginDelete(d: nat, id: string, expected: string)
    | List(d: nat, found: seq<Content>)
    | DropBlob(d: nat, gone: bool, ok: bool)
    | DropRow(d: nat, ok: bool)
    | Finish(d: nat, ok: bool)

  function PlaceOf(u: Upload): Place {
    Place(u.content.backend, u.id, u.content.revision)
  }

  function RowsOf(s: Store, id: string): set<RowKey> {
    set k | k in s.rows && k.id == id
  }

  /** Some rows of the package, and none only if there are none. */
  predicate Listing(s: Store, id: string, found: seq<Content>) {
    && (found == [] ==> RowsOf(s, id) == {})
    && (forall i :: 0 <= i < |found| ==> RowKey(id, found[i].revision) in s.rows && s.rows[RowKey(id, found[i].revision)] == found[i])
    && (forall i, j :: 0 <= i < j < |found| ==> found[i].revision != found[j].revision)
  }

  /** Generated identifiers and revision tokens are new. */
  predicate New(s: Sys, token: string) {
    token != "" && token !in s.tokens
  }

  predicate Enabled(s: Sys, a: Action) {
    match a
    case Edit(tx) =>
      match tx {
        case Create(id, token, metadata) => Permitted(s.store, tx) && New(s, token)
        case Update(id, expected, token, metadata) => Permitted(s.store, tx) && New(s, token)
        case Note(id, expected, token) => Permitted(s.store, tx) && New(s, token)
        case AssignManifest(id, expected, token) => Permitted(s.store, tx) && New(s, token)
        case DeleteManifest(id, expected, token) => Permitted(s.store, tx) && New(s, token)
        case _ => false
      }
    case Begin(u, id, expected, content) =>
      && u !in s.uploads && EditError(s.store.records, id, expected).None?
      && Match(s.store.records[id].metadata.pinned, content.bytes)
      && content.bytes != "" && New(s, content.revision)
    case PutBlob(u, written, ok) => u in s.uploads && s.uploads[u].phase == Staged
    case ReadBack(u, ok) => u in s.uploads && s.uploads[u].phase == Stored
    case CommitUpload(u, token, ok) => u in s.uploads && s.uploads[u].phase == Verified && New(s, token)
    case Cleanup(u, gone, ok) => u in s.uploads && s.uploads[u].phase == Failed
    case BeginDelete(d, id, expected) => d !in s.deletions && TxError(s.store, Tombstone(id, expected)).None?
    case List(d, found) => d in s.deletions && s.deletions[d].phase == Idle && Listing(s.store, s.deletions[d].id, found)
    case DropBlob(d, gone, ok) => d in s.deletions && s.deletions[d].phase == Scanning && s.deletions[d].next < |s.deletions[d].rows|
    case DropRow(d, ok) => d in s.deletions && s.deletions[d].phase == BlobGone && s.deletions[d].next < |s.deletions[d].rows|
    case Finish(d, ok) => d in s.deletions && s.deletions[d].phase == Empty
  }

  function WithUpload(s: Sys, u: nat, phase: UploadPhase): Sys
    requires u in s.uploads
  {
    s.(uploads := s.uploads[u := s.uploads[u].(phase := phase)])
  }

  function WithDeletion(s: Sys, d: nat, deletion: Deletion): Sys {
    s.(deletions := s.deletions[d := deletion])
  }

  function CommitTx(u: Upload, token: string): Tx {
    Commit(u.id, u.expected, token, u.content)
  }

  function Next(s: Sys, a: Action): Sys
    requires Enabled(s, a)
  {
    match a
    case Edit(tx) => s.(store := Apply(s.store, tx), tokens := s.tokens + {tx.token})
    case Begin(u, id, expected, content) =>
      s.(uploads := s.uploads[u := Upload(id, expected, content, Staged)], tokens := s.tokens + {content.revision})
    case PutBlob(u, written, ok) =>
      // A backend may store other bytes than it was given, whether or not it reports success.
      var put := if written.Some? then s.(blobs := s.blobs[PlaceOf(s.uploads[u]) := written.value]) else s;
      WithUpload(put, u, if ok then Stored else Failed)
    case ReadBack(u, ok) =>
      var place := PlaceOf(s.uploads[u]);
      WithUpload(s, u, if ok && place in s.blobs && s.blobs[place] == s.uploads[u].content.bytes then Verified else Failed)
    case CommitUpload(u, token, ok) =>
      var tx := CommitTx(s.uploads[u], token);
      if ok && TxError(s.store, tx).None? then
        WithUpload(s.(store := Apply(s.store, tx), tokens := s.tokens + {token}), u, Committed)
      else WithUpload(s, u, Failed)
    case Cleanup(u, gone, ok) =>
      // A backend that reports failure may or may not have removed the blob.
      var dropped := if ok || gone then s.(blobs := s.blobs - {PlaceOf(s.uploads[u])}) else s;
      if ok then WithUpload(dropped, u, Cleaned) else dropped
    case BeginDelete(d, id, expected) =>
      WithDeletion(s.(store := Apply(s.store, Tombstone(id, expected))), d,
                   Deletion(id, expected, [], 0, Idle, 0, |RowsOf(s.store, id)|))
    case List(d, found) =>
      var deletion := s.deletions[d];
      if found == [] then WithDeletion(s, d, deletion.(phase := Empty))
      else WithDeletion(s, d, deletion.(rows := found, next := 0, phase := Scanning, lists := deletion.lists + 1))
    case DropBlob(d, gone, ok) =>
      var deletion := s.deletions[d];
      var row := deletion.rows[deletion.next];
      var dropped := if ok || gone then s.(blobs := s.blobs - {Place(row.backend, deletion.id, row.revision)}) else s;
      WithDeletion(dropped, d, deletion.(phase := if ok then BlobGone else Ended))
    case DropRow(d, ok) =>
      var deletion := s.deletions[d];
      var row := deletion.rows[deletion.next];
      if ok then
        WithDeletion(s.(store := Apply(s.store, Tx.DropRow(deletion.id, row.revision))), d,
                     deletion.(next := deletion.next + 1, phase := if deletion.next + 1 == |deletion.rows| then Idle else Scanning))
      else WithDeletion(s, d, deletion.(phase := Ended))
    case Finish(d, ok) =>
      var tx := Remove(s.deletions[d].id, s.deletions[d].expected);
      var ended := WithDeletion(s, d, s.deletions[d].(phase := Ended));
      if ok && TxError(s.store, tx).None? then ended.(store := Apply(s.store, tx)) else ended
  }

  const START := Sys(Store(map[], map[], map[]), map[], map[], map[], {})

  /** The state after a run; an action that is not possible changes nothing. */
  function Run(actions: seq<Action>): Sys {
    if actions == [] then START
    else
      var s := Run(actions[..|actions| - 1]);
      var a := actions[|actions| - 1];
      if Enabled(s, a) then Next(s, a) else s
  }
}
