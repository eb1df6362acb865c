/** What every interleaving of uploads, deletions and edits keeps. */
module CatalogueContent {
  import opened Basics
  import opened Catalogue
  import opened CatalogueForest
  import opened CatalogueRuns

  /** Every revision in use was generated, and no two uploads share one. */
  ghost predicate Generated(s: Sys) {
    && (forall id :: id in s.store.records ==> s.store.records[id].revision in s.tokens)
    && (forall k :: k in s.store.rows ==> k.revision in s.tokens && s.store.rows[k].revision == k.revision)
    && (forall u :: u in s.uploads ==> s.uploads[u].content.revision in s.tokens && s.uploads[u].expected in s.tokens)
    && (forall u, v :: u in s.uploads && v in s.uploads && u != v ==> s.uploads[u].content.revision != s.uploads[v].content.revision)
    && (forall d, i :: d in s.deletions && 0 <= i < |s.deletions[d].rows| ==> s.deletions[d].rows[i].revision in s.tokens)
  }

  /** Only a committed upload has a row, and none was ever listed without one. */
  ghost predicate Unpublished(s: Sys) {
    && (forall u, k :: u in s.uploads && k in s.store.rows && k.revision == s.uploads[u].content.revision ==>
         s.uploads[u].phase == Committed)
    && (forall u, d, i :: u in s.uploads && d in s.deletions && 0 <= i < |s.deletions[d].rows| ==>
         s.deletions[d].rows[i].revision == s.uploads[u].content.revision ==> s.uploads[u].phase == Committed)
  }

  /** A verified upload's bytes are in place, and still match the record it was read from. */
  ghost predicate Ready(s: Sys) {
    && (forall u :: u in s.uploads && s.uploads[u].phase == Verified ==>
         PlaceOf(s.uploads[u]) in s.blobs && s.blobs[PlaceOf(s.uploads[u])] == s.uploads[u].content.bytes)
    && (forall u :: u in s.uploads && s.uploads[u].id in s.store.records ==>
         s.store.records[s.uploads[u].id].revision == s.uploads[u].expected ==>
         Match(s.store.records[s.uploads[u].id].metadata.pinned, s.uploads[u].content.bytes))
  }

  /** No row outlives its package, and a row of a package that is not being deleted has its bytes. */
  ghost predicate Deployable(s: Sys) {
    && (forall k :: k in s.store.rows ==> k.id in s.store.records)
    && (forall k :: k in s.store.rows && !s.store.records[k.id].deleting ==> Backed(s, k))
  }

  predicate Backed(s: Sys, k: RowKey)
    requires k in s.store.rows
  {
    var place := Place(s.store.rows[k].backend, k.id, k.revision);
    place in s.blobs && s.blobs[place] == s.store.rows[k].bytes
  }

  /** A record's content has its row, matches its pin, and is what its manifest names. */
  ghost predicate Coherent(s: Sys) {
    forall id :: id in s.store.records ==> CoherentRecord(s.store, id)
  }

  predicate CoherentRecord(s: Store, id: string)
    requires id in s.records
  {
    var r := s.records[id];
    && r.sequence >= 1
    && (r.content.Some? ==> Match(r.metadata.pinned, r.content.value.bytes))
    && (r.content.Some? && !r.deleting ==>
         RowKey(id, r.content.value.revision) in s.rows && s.rows[RowKey(id, r.content.value.revision)] == r.content.value)
    && (r.manifest.Some? ==> r.content.Some? && r.content.value.revision == r.manifest.value)
  }

  /** A deletion's package stays tombstoned until it is gone, and its rows only go. */
  ghost predicate Shrinking(s: Sys) {
    forall d :: d in s.deletions ==> ShrinkingOne(s.store, s.deletions[d])
  }

  ghost predicate ShrinkingOne(s: Store, d: Deletion) {
    && EntryKey(d.id, 1) in s.history
    && (d.id in s.records ==> s.records[d.id].deleting && s.records[d.id].revision == d.expected)
    && d.next <= |d.rows|
    && (d.phase == Idle ==> d.next == |d.rows|)
    && (forall i :: 0 <= i < d.next ==> RowKey(d.id, d.rows[i].revision) !in s.rows)
    && (d.phase == Empty ==> RowsOf(s, d.id) == {})
    && d.lists + |RowsOf(s, d.id)| <= d.bound + if d.rows != [] && RowKey(d.id, d.rows[0].revision) in s.rows then 1 else 0
  }

  /** Every stored blob belongs to a row, or to an upload that has not finished cleaning up. */
  ghost predicate Owned(s: Sys) {
    forall p :: p in s.blobs ==> OwnedByRow(s, p) || OwnedByUpload(s, p)
  }

  /** A deletion removes the blob before its row. */
  ghost predicate BlobFirst(s: Sys) {
    forall d :: d in s.deletions && s.deletions[d].phase == BlobGone && s.deletions[d].next < |s.deletions[d].rows| ==>
      var row := s.deletions[d].rows[s.deletions[d].next]; Place(row.backend, s.deletions[d].id, row.revision) !in s.blobs
  }

  /** A row never changes between being listed and being removed. */
  ghost predicate Stable(s: Sys) {
    forall d, i :: d in s.deletions && 0 <= i < |s.deletions[d].rows| ==>
      var key := RowKey(s.deletions[d].id, s.deletions[d].rows[i].revision);
      key in s.store.rows ==> s.store.rows[key] == s.deletions[d].rows[i]
  }

  predicate OwnedByRow(s: Sys, p: Place) {
    RowKey(p.id, p.revision) in s.store.rows && s.store.rows[RowKey(p.id, p.revision)].backend == p.backend
  }

  ghost predicate OwnedByUpload(s: Sys, p: Place) {
    exists u :: u in s.uploads && PlaceOf(s.uploads[u]) == p && s.uploads[u].phase != Committed && s.uploads[u].phase != Cleaned
  }

  // ----- Edits and uploads -----

  /** The steps of an upload that leave the metadata store alone. */
  predicate UploadStep(a: Action) {
    a.Begin? || a.PutBlob? || a.ReadBack? || a.Cleanup?
  }

  predicate DeleteStep(a: Action) {
    a.BeginDelete? || a.List? || a.DropBlob? || a.DropRow? || a.Finish?
  }

  lemma {:induction false} EditGenerated(s: Sys, a: Action)
    requires a.Edit? && Enabled(s, a) && Generated(s)
    ensures Generated(Next(s, a))
  {
  }

  lemma {:induction false} UploadGenerated(s: Sys, a: Action)
    requires UploadStep(a) && Enabled(s, a) && Generated(s)
    ensures Generated(Next(s, a))
  {
  }

  lemma {:induction false} CommitGenerated(s: Sys, a: Action)
    requires a.CommitUpload? && Enabled(s, a) && Generated(s)
    ensures Generated(Next(s, a))
  {
  }

  lemma {:induction false} EditUnpublished(s: Sys, a: Action)
    requires a.Edit? && Enabled(s, a) && Generated(s) && Unpublished(s)
    ensures Unpublished(Next(s, a))
  {
  }

  lemma {:induction false} UploadUnpublished(s: Sys, a: Action)
    requires UploadStep(a) && Enabled(s, a) && Generated(s) && Unpublished(s)
    ensures Unpublished(Next(s, a))
  {
  }

  lemma {:induction false} CommitUnpublished(s: Sys, a: Action)
    requires a.CommitUpload? && Enabled(s, a) && Generated(s) && Unpublished(s)
    ensures Unpublished(Next(s, a))
  {
  }

  lemma {:induction false} EditReady(s: Sys, a: Action)
    requires a.Edit? && Enabled(s, a) && Generated(s) && Unpublished(s) && Ready(s)
    ensures Ready(Next(s, a))
  {
  }

  lemma {:induction false} UploadReady(s: Sys, a: Action)
    requires UploadStep(a) && Enabled(s, a) && Generated(s) && Unpublished(s) && Ready(s)
    ensures Ready(Next(s, a))
  {
  }

  lemma {:induction false} CommitReady(s: Sys, a: Action)
    requires a.CommitUpload? && Enabled(s, a) && Generated(s) && Unpublished(s) && Ready(s)
    ensures Ready(Next(s, a))
  {
  }

  lemma {:induction false} EditDeployable(s: Sys, a: Action)
    requires a.Edit? && Enabled(s, a) && Generated(s) && Unpublished(s) && Ready(s) && Deployable(s)
    ensures Deployable(Next(s, a))
  {
  }

  lemma {:induction false} UploadDeployable(s: Sys, a: Action)
    requires UploadStep(a) && Enabled(s, a) && Generated(s) && Unpublished(s) && Ready(s) && Deployable(s)
    ensures Deployable(Next(s, a))
  {
  }

  lemma {:induction false} CommitDeployable(s: Sys, a: Action)
    requires a.CommitUpload? && Enabled(s, a) && Generated(s) && Unpublished(s) && Ready(s) && Deployable(s)
    ensures Deployable(Next(s, a))
  {
  }

  lemma {:induction false} EditCoherent(s: Sys, a: Action)
    requires a.Edit? && Enabled(s, a) && Ready(s) && Coherent(s)
    ensures Coherent(Next(s, a))
  {
  }

  lemma {:induction false} UploadCoherent(s: Sys, a: Action)
    requires UploadStep(a) && Enabled(s, a) && Ready(s) && Coherent(s)
    ensures Coherent(Next(s, a))
  {
  }

  lemma {:induction false} CommitCoherent(s: Sys, a: Action)
    requires a.CommitUpload? && Enabled(s, a) && Ready(s) && Coherent(s)
    ensures Coherent(Next(s, a))
  {
  }

  // ----- Deletions: everything only shrinks -----

  /** What a deletion's step may do, apart from its own progress. */
  ghost predicate Shrunk(s: Sys, t: Sys) {
    && t.uploads == s.uploads && t.tokens == s.tokens
    && (forall id :: id in t.store.records ==> id in s.store.records && SameButDeleting(s.store.records[id], t.store.records[id]))
    && (forall k :: k in t.store.rows ==> k in s.store.rows && t.store.rows[k] == s.store.rows[k])
    && (forall d :: d in t.deletions ==> (d in s.deletions && t.deletions[d].rows == s.deletions[d].rows) || Listed(s, t.deletions[d]))
  }

  predicate SameButDeleting(r: Record, after: Record) {
    && after.revision == r.revision && after.metadata == r.metadata && after.content == r.content
    && after.manifest == r.manifest && (r.deleting ==> after.deleting) && after.sequence >= r.sequence
  }

  predicate Listed(s: Sys, d: Deletion) {
    forall i :: 0 <= i < |d.rows| ==>
      RowKey(d.id, d.rows[i].revision) in s.store.rows && s.store.rows[RowKey(d.id, d.rows[i].revision)] == d.rows[i]
  }

  lemma {:induction false} DeleteShrinks(s: Sys, a: Action)
    requires DeleteStep(a) && Enabled(s, a)
    ensures Shrunk(s, Next(s, a))
  {
    match a
    case BeginDelete(d, id, expected) => BeginShrinks(s, a);
    case Finish(d, ok) => FinishShrinks(s, a);
    case DropRow(d, ok) => RowShrinks(s, a);
    case _ => ScanShrinks(s, a);
  }

  lemma {:induction false} BeginShrinks(s: Sys, a: Action)
    requires a.BeginDelete? && Enabled(s, a)
    ensures Shrunk(s, Next(s, a))
  {
    TombstoneKeeps(s.store, a.id, a.expected);
  }

  lemma {:induction false} TombstoneKeeps(s: Store, id: string, expected: string)
    requires TxError(s, Tombstone(id, expected)).None?
    ensures forall k :: k in Apply(s, Tombstone(id, expected)).records ==>
      k in s.records && SameButDeleting(s.records[k], Apply(s, Tombstone(id, expected)).records[k])
    ensures Apply(s, Tombstone(id, expected)).rows == s.rows
  {
  }

  lemma {:induction false} FinishShrinks(s: Sys, a: Action)
    requires a.Finish? && Enabled(s, a)
    ensures Shrunk(s, Next(s, a))
  {
  }

  lemma {:induction false} RowShrinks(s: Sys, a: Action)
    requires a.DropRow? && Enabled(s, a)
    ensures Shrunk(s, Next(s, a))
  {
  }

  lemma {:induction false} ScanShrinks(s: Sys, a: Action)
    requires (a.List? || a.DropBlob?) && Enabled(s, a)
    ensures Shrunk(s, Next(s, a))
  {
  }

  lemma {:induction false} ShrunkGenerated(s: Sys, t: Sys)
    requires Shrunk(s, t) && Generated(s)
    ensures Generated(t)
  {
  }

  lemma {:induction false} ShrunkUnpublished(s: Sys, t: Sys)
    requires Shrunk(s, t) && Generated(s) && Unpublished(s)
    ensures Unpublished(t)
  {
  }

  /** The only blob a deletion removes is one it listed. */
  lemma {:induction false} DeleteBlobs(s: Sys, a: Action)
    requires DeleteStep(a) && Enabled(s, a)
    ensures forall p :: p in Next(s, a).blobs <==> p in s.blobs && !Dropped(s, a, p)
    ensures forall p :: p in Next(s, a).blobs ==> Next(s, a).blobs[p] == s.blobs[p]
  {
  }

  predicate Dropped(s: Sys, a: Action, p: Place) {
    && a.DropBlob? && (a.ok || a.gone) && a.d in s.deletions && s.deletions[a.d].next < |s.deletions[a.d].rows|
    && (var row := s.deletions[a.d].rows[s.deletions[a.d].next]; p == Place(row.backend, s.deletions[a.d].id, row.revision))
  }

  lemma {:induction false} ShrunkReady(s: Sys, a: Action, t: Sys)
    requires Shrunk(s, t) && Unpublished(s) && Ready(s)
    requires forall p :: p in s.blobs && !Dropped(s, a, p) ==> p in t.blobs && t.blobs[p] == s.blobs[p]
    ensures Ready(t)
  {
  }

  /** Rows go only from packages being deleted, and a package goes only when it has none left. */
  lemma {:induction false} DeleteRows(s: Sys, a: Action)
    requires DeleteStep(a) && Enabled(s, a) && Shrinking(s)
    ensures forall k :: k in s.store.rows && k !in Next(s, a).store.rows ==>
      k.id !in s.store.records || s.store.records[k.id].deleting
    ensures forall k :: k in s.store.rows && k.id in s.store.records ==> k.id in Next(s, a).store.records
  {
    match a
    case DropRow(d, ok) => assert ShrinkingOne(s.store, s.deletions[d]);
    case Finish(d, ok) => FinishRows(s, a);
    case _ =>
  }

  lemma {:induction false} FinishRows(s: Sys, a: Action)
    requires a.Finish? && Enabled(s, a) && Shrinking(s)
    ensures forall k :: k in s.store.rows && k.id in s.store.records ==> k.id in Next(s, a).store.records
    ensures Next(s, a).store.rows == s.store.rows
  {
    var d := s.deletions[a.d];
    assert ShrinkingOne(s.store, d);
    assert forall k :: k in s.store.rows && k.id == d.id ==> k in RowsOf(s.store, d.id);
  }

  lemma {:induction false} ShrunkDeployable(s: Sys, a: Action, t: Sys)
    requires Shrunk(s, t) && Shrinking(s) && Deployable(s)
    requires forall p :: p in s.blobs && !Dropped(s, a, p) ==> p in t.blobs && t.blobs[p] == s.blobs[p]
    requires forall k :: k in s.store.rows && k.id in s.store.records ==> k.id in t.store.records
    ensures Deployable(t)
  {
    forall k | k in t.store.rows && !t.store.records[k.id].deleting ensures Backed(t, k) {
      assert Backed(s, k);
      if a.DropBlob? && a.d in s.deletions { assert ShrinkingOne(s.store, s.deletions[a.d]); }
    }
  }

  lemma {:induction false} ShrunkCoherent(s: Sys, t: Sys)
    requires Shrunk(s, t) && Coherent(s)
    requires forall k :: k in s.store.rows && k !in t.store.rows ==> k.id !in s.store.records || s.store.records[k.id].deleting
    ensures Coherent(t)
  {
    forall id | id in t.store.records ensures CoherentRecord(t.store, id) {
      assert CoherentRecord(s.store, id);
    }
  }

  // ----- Deletions in progress -----

  /** From one store to a later one, a tombstoned package is not revived and gets no row. */
  ghost predicate Onward(s: Store, t: Store, id: string) {
    && EntryKey(id, 1) in t.history
    && (id in t.records ==> id in s.records && SameButDeleting(s.records[id], t.records[id]))
    && (forall k :: k in t.rows && k.id == id ==> k in s.rows)
  }

  lemma {:induction false} StillShrinking(s: Store, t: Store, d: Deletion)
    requires ShrinkingOne(s, d) && Onward(s, t, d.id)
    ensures ShrinkingOne(t, d)
  {
    var before, after := RowsOf(s, d.id), RowsOf(t, d.id);
    Fewer(after, before);
    if d.rows != [] {
      var first := RowKey(d.id, d.rows[0].revision);
      assert (first in s.rows <==> first in before) && (first in t.rows <==> first in after);
    }
  }

  lemma {:induction false} Fewer(a: set<RowKey>, b: set<RowKey>)
    requires a <= b
    ensures |a| <= |b|
    ensures forall k :: k in b && k !in a ==> |a| < |b|
  {
    assert b == a + (b - a);
  }

  /** No transaction adds a row to a tombstoned package, revives it or reuses its identifier. */
  lemma {:induction false} ApplyOnward(s: Store, tx: Tx, id: string)
    requires Permitted(s, tx) && EntryKey(id, 1) in s.history && (id in s.records ==> s.records[id].deleting)
    ensures Onward(s, Apply(s, tx), id)
  {
  }

  lemma {:induction false} EditShrinking(s: Sys, a: Action)
    requires (a.Edit? || a.CommitUpload? || UploadStep(a)) && Enabled(s, a) && Shrinking(s)
    ensures Shrinking(Next(s, a))
  {
    var t := Next(s, a);
    forall d | d in t.deletions ensures ShrinkingOne(t.store, t.deletions[d]) {
      assert ShrinkingOne(s.store, s.deletions[d]);
      if t.store != s.store {
        var tx := if a.Edit? then a.tx else CommitTx(s.uploads[a.u], a.token);
        ApplyOnward(s.store, tx, s.deletions[d].id);
        StillShrinking(s.store, t.store, s.deletions[d]);
      }
    }
  }

  /** The transaction of a deletion's step, if it takes one. */
  function DeleteTx(s: Sys, a: Action): Option<Tx>
    requires DeleteStep(a) && Enabled(s, a)
  {
    match a
    case BeginDelete(d, id, expected) => Some(Tombstone(id, expected))
    case DropRow(d, ok) => if ok then Some(Tx.DropRow(s.deletions[d].id, s.deletions[d].rows[s.deletions[d].next].revision)) else None
    case Finish(d, ok) =>
      var tx := Remove(s.deletions[d].id, s.deletions[d].expected);
      if ok && TxError(s.store, tx).None? then Some(tx) else None
    case _ => None
  }

  lemma {:induction false} DeleteStore(s: Sys, a: Action)
    requires DeleteStep(a) && Enabled(s, a)
    ensures DeleteTx(s, a).Some? ==> Permitted(s.store, DeleteTx(s, a).value) && Next(s, a).store == Apply(s.store, DeleteTx(s, a).value)
    ensures DeleteTx(s, a).None? ==> Next(s, a).store == s.store
    ensures forall d :: d in s.deletions && d != a.d ==> d in Next(s, a).deletions && Next(s, a).deletions[d] == s.deletions[d]
    ensures Next(s, a).deletions.Keys == s.deletions.Keys + {a.d}
  {
  }

  lemma {:induction false} DeleteShrinking(s: Sys, a: Action)
    requires DeleteStep(a) && Enabled(s, a) && Shrinking(s) && Recorded(s.store) && Coherent(s)
    ensures Shrinking(Next(s, a))
  {
    var t := Next(s, a);
    DeleteStore(s, a);
    forall d | d in t.deletions ensures ShrinkingOne(t.store, t.deletions[d]) {
      if d in s.deletions {
        assert ShrinkingOne(s.store, s.deletions[d]);
        if DeleteTx(s, a).Some? { ApplyOnward(s.store, DeleteTx(s, a).value, s.deletions[d].id); }
        assert Onward(s.store, t.store, s.deletions[d].id);
        StillShrinking(s.store, t.store, s.deletions[d]);
      }
      if d == a.d { OwnStep(s, a); }
    }
  }

  /** The deletion that takes the step keeps its own promises. */
  lemma {:induction false} OwnStep(s: Sys, a: Action)
    requires DeleteStep(a) && Enabled(s, a) && Shrinking(s) && Recorded(s.store) && Coherent(s)
    requires a.d in s.deletions ==> ShrinkingOne(Next(s, a).store, s.deletions[a.d])
    ensures a.d in Next(s, a).deletions && ShrinkingOne(Next(s, a).store, Next(s, a).deletions[a.d])
  {
    match a
    case BeginDelete(d, id, expected) => BeginOwn(s, a);
    case List(d, found) => ListOwn(s, a);
    case DropRow(d, ok) => RowOwn(s, a);
    case _ => DropOwn(s, a);
  }

  lemma {:induction false} RowOwn(s: Sys, a: Action)
    requires a.DropRow? && Enabled(s, a)
    requires ShrinkingOne(Next(s, a).store, s.deletions[a.d])
    ensures a.d in Next(s, a).deletions && ShrinkingOne(Next(s, a).store, Next(s, a).deletions[a.d])
  {
  }

  lemma {:induction false} DropOwn(s: Sys, a: Action)
    requires (a.DropBlob? || a.Finish?) && Enabled(s, a)
    requires ShrinkingOne(Next(s, a).store, s.deletions[a.d])
    ensures a.d in Next(s, a).deletions && ShrinkingOne(Next(s, a).store, Next(s, a).deletions[a.d])
  {
  }

  lemma {:induction false} BeginOwn(s: Sys, a: Action)
    requires a.BeginDelete? && Enabled(s, a) && Recorded(s.store) && Coherent(s)
    ensures a.d in Next(s, a).deletions && ShrinkingOne(Next(s, a).store, Next(s, a).deletions[a.d])
  {
    assert CoherentRecord(s.store, a.id);
    assert EntryKey(a.id, 1) in s.store.history;
    assert RowsOf(Next(s, a).store, a.id) == RowsOf(s.store, a.id);
  }

  /** A new listing starts only once every row of the last one is gone. */
  lemma {:induction false} ListOwn(s: Sys, a: Action)
    requires a.List? && Enabled(s, a) && Shrinking(s)
    ensures a.d in Next(s, a).deletions && ShrinkingOne(Next(s, a).store, Next(s, a).deletions[a.d])
  {
    var d := s.deletions[a.d];
    assert ShrinkingOne(s.store, d);
  }
}
