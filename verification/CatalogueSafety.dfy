/** Safety of the package catalogue over whole runs. */
module CatalogueSafety {
  import opened Basics
  import opened Catalogue
  import opened CatalogueForest
  import opened CatalogueRuns
  import opened CatalogueContent

  // ----- Every blob is accounted for -----

  lemma {:induction false} EditBlobFirst(s: Sys, a: Action)
    requires a.Edit? && Enabled(s, a) && BlobFirst(s)
    ensures BlobFirst(Next(s, a))
  {
  }

  lemma {:induction false} UploadBlobFirst(s: Sys, a: Action)
    requires UploadStep(a) && Enabled(s, a) && Unpublished(s) && BlobFirst(s)
    ensures BlobFirst(Next(s, a))
  {
  }

  lemma {:induction false} CommitBlobFirst(s: Sys, a: Action)
    requires a.CommitUpload? && Enabled(s, a) && BlobFirst(s)
    ensures BlobFirst(Next(s, a))
  {
  }

  lemma {:induction false} DeleteBlobFirst(s: Sys, a: Action)
    requires DeleteStep(a) && Enabled(s, a) && BlobFirst(s)
    ensures BlobFirst(Next(s, a))
  {
  }

  lemma {:induction false} EditStable(s: Sys, a: Action)
    requires a.Edit? && Enabled(s, a) && Stable(s)
    ensures Stable(Next(s, a))
  {
  }

  lemma {:induction false} UploadStable(s: Sys, a: Action)
    requires UploadStep(a) && Enabled(s, a) && Stable(s)
    ensures Stable(Next(s, a))
  {
  }

  lemma {:induction false} CommitStable(s: Sys, a: Action)
    requires a.CommitUpload? && Enabled(s, a) && Unpublished(s) && Stable(s)
    ensures Stable(Next(s, a))
  {
  }

  lemma {:induction false} ShrunkStable(s: Sys, t: Sys)
    requires Shrunk(s, t) && Stable(s)
    requires forall d :: d in s.deletions && d in t.deletions ==> t.deletions[d].id == s.deletions[d].id
    ensures Stable(t)
  {
  }

  lemma {:induction false} SameIds(s: Sys, a: Action)
    requires DeleteStep(a) && Enabled(s, a)
    ensures forall d :: d in s.deletions && d in Next(s, a).deletions ==> Next(s, a).deletions[d].id == s.deletions[d].id
  {
  }

  /** Keeping a blob's owner: its row stays, or its upload stays unfinished. */
  lemma {:induction false} OwnedBySame(s: Sys, t: Sys, p: Place)
    requires OwnedByRow(s, p) || OwnedByUpload(s, p)
    requires OwnedByRow(s, p) ==> OwnedByRow(t, p)
    requires forall u :: u in s.uploads && PlaceOf(s.uploads[u]) == p && s.uploads[u].phase != Committed && s.uploads[u].phase != Cleaned ==>
      u in t.uploads && t.uploads[u] == s.uploads[u]
    ensures OwnedByRow(t, p) || OwnedByUpload(t, p)
  {
    if OwnedByUpload(s, p) {
      var u :| u in s.uploads && PlaceOf(s.uploads[u]) == p && s.uploads[u].phase != Committed && s.uploads[u].phase != Cleaned;
      assert u in t.uploads && PlaceOf(t.uploads[u]) == p;
    }
  }

  lemma {:induction false} EditOwned(s: Sys, a: Action)
    requires a.Edit? && Enabled(s, a) && Owned(s)
    ensures Owned(Next(s, a))
  {
    forall p | p in Next(s, a).blobs ensures OwnedByRow(Next(s, a), p) || OwnedByUpload(Next(s, a), p) {
      OwnedBySame(s, Next(s, a), p);
    }
  }

  /** A step of an upload leaves every other upload alone, and its own blob with an owner. */
  lemma {:induction false} UploadOwns(s: Sys, a: Action, p: Place)
    requires UploadStep(a) && Enabled(s, a) && Generated(s) && Owned(s) && p in Next(s, a).blobs
    ensures OwnedByRow(Next(s, a), p) || OwnedByUpload(Next(s, a), p)
  {
    var t := Next(s, a);
    if a.u in s.uploads && PlaceOf(s.uploads[a.u]) == p && s.uploads[a.u].phase != Committed && s.uploads[a.u].phase != Cleaned {
      assert a.u in t.uploads && PlaceOf(t.uploads[a.u]) == p;
    } else {
      OwnedBySame(s, t, p);
    }
  }

  /** Committing hands the blob from the upload to its row. */
  lemma {:induction false} CommitOwns(s: Sys, a: Action, p: Place)
    requires a.CommitUpload? && Enabled(s, a) && Generated(s) && Unpublished(s) && Owned(s) && p in s.blobs
    ensures OwnedByRow(Next(s, a), p) || OwnedByUpload(Next(s, a), p)
  {
    var t := Next(s, a);
    if PlaceOf(s.uploads[a.u]) == p {
      assert t.uploads[a.u].phase == Committed ==> OwnedByRow(t, p);
      assert a.u in t.uploads && PlaceOf(t.uploads[a.u]) == p;
    } else {
      if OwnedByRow(s, p) { CommitRows(s, a, p); }
      OwnedBySame(s, t, p);
    }
  }

  lemma {:induction false} CommitRows(s: Sys, a: Action, p: Place)
    requires a.CommitUpload? && Enabled(s, a) && Unpublished(s) && OwnedByRow(s, p)
    ensures OwnedByRow(Next(s, a), p)
  {
  }

  lemma {:induction false} UploadOwned(s: Sys, a: Action)
    requires (UploadStep(a) || a.CommitUpload?) && Enabled(s, a) && Generated(s) && Unpublished(s) && Owned(s)
    ensures Owned(Next(s, a))
  {
    forall p | p in Next(s, a).blobs ensures OwnedByRow(Next(s, a), p) || OwnedByUpload(Next(s, a), p) {
      if UploadStep(a) { UploadOwns(s, a, p); } else { CommitOwns(s, a, p); }
    }
  }

  /** A row goes only after its blob, so no blob is orphaned. */
  lemma {:induction false} RowOwner(s: Sys, a: Action, p: Place)
    requires DeleteStep(a) && Enabled(s, a) && Stable(s) && BlobFirst(s) && p in s.blobs && OwnedByRow(s, p)
    ensures OwnedByRow(Next(s, a), p)
  {
    if a.DropRow? {
      var d := s.deletions[a.d];
      var key := RowKey(d.id, d.rows[d.next].revision);
      assert key in s.store.rows ==> s.store.rows[key] == d.rows[d.next];
    }
  }

  lemma {:induction false} DeleteOwned(s: Sys, a: Action)
    requires DeleteStep(a) && Enabled(s, a) && Stable(s) && BlobFirst(s) && Owned(s)
    ensures Owned(Next(s, a))
  {
    DeleteBlobs(s, a);
    forall p | p in Next(s, a).blobs ensures OwnedByRow(Next(s, a), p) || OwnedByUpload(Next(s, a), p) {
      if OwnedByRow(s, p) { RowOwner(s, a, p); }
      OwnedBySame(s, Next(s, a), p);
    }
  }

  // ----- Whole runs -----

  ghost predicate Inv(s: Sys) {
    && Forest(s.store.records) && Recorded(s.store)
    && Generated(s) && Unpublished(s) && Ready(s) && Deployable(s) && Coherent(s) && Shrinking(s)
    && BlobFirst(s) && Stable(s) && Owned(s)
  }

  lemma {:induction false} EditKeeps(s: Sys, a: Action)
    requires a.Edit? && Enabled(s, a) && Inv(s)
    ensures Inv(Next(s, a))
  {
    KeepsForest(s.store, a.tx);
    KeepsRecorded(s.store, a.tx);
    EditGenerated(s, a);
    EditUnpublished(s, a);
    EditReady(s, a);
    EditDeployable(s, a);
    EditCoherent(s, a);
    EditShrinking(s, a);
    EditBlobFirst(s, a);
    EditStable(s, a);
    EditOwned(s, a);
  }

  lemma {:induction false} UploadKeeps(s: Sys, a: Action)
    requires UploadStep(a) && Enabled(s, a) && Inv(s)
    ensures Inv(Next(s, a))
  {
    UploadSameStore(s, a);
    UploadGenerated(s, a);
    UploadUnpublished(s, a);
    UploadReady(s, a);
    UploadDeployable(s, a);
    UploadCoherent(s, a);
    EditShrinking(s, a);
    UploadBlobFirst(s, a);
    UploadStable(s, a);
    UploadOwned(s, a);
  }

  lemma {:induction false} UploadSameStore(s: Sys, a: Action)
    requires UploadStep(a) && Enabled(s, a)
    ensures Next(s, a).store == s.store
  {
  }

  lemma {:induction false} CommitStore(s: Sys, a: Action)
    requires a.CommitUpload? && Enabled(s, a) && Forest(s.store.records) && Recorded(s.store)
    ensures Forest(Next(s, a).store.records) && Recorded(Next(s, a).store)
  {
    var tx := CommitTx(s.uploads[a.u], a.token);
    if a.ok && TxError(s.store, tx).None? {
      KeepsForest(s.store, tx);
      KeepsRecorded(s.store, tx);
    }
  }

  lemma {:induction false} CommitKeeps(s: Sys, a: Action)
    requires a.CommitUpload? && Enabled(s, a) && Inv(s)
    ensures Inv(Next(s, a))
  {
    CommitStore(s, a);
    CommitGenerated(s, a);
    CommitUnpublished(s, a);
    CommitReady(s, a);
    CommitDeployable(s, a);
    CommitCoherent(s, a);
    EditShrinking(s, a);
    CommitBlobFirst(s, a);
    CommitStable(s, a);
    UploadOwned(s, a);
  }

  lemma {:induction false} DeleteForest(s: Sys, a: Action)
    requires DeleteStep(a) && Enabled(s, a) && Forest(s.store.records) && Recorded(s.store)
    ensures Forest(Next(s, a).store.records) && Recorded(Next(s, a).store)
  {
    DeleteStore(s, a);
    if DeleteTx(s, a).Some? {
      KeepsForest(s.store, DeleteTx(s, a).value);
      KeepsRecorded(s.store, DeleteTx(s, a).value);
    }
  }

  lemma {:induction false} DeleteKeeps(s: Sys, a: Action)
    requires DeleteStep(a) && Enabled(s, a) && Inv(s)
    ensures Inv(Next(s, a))
  {
    var t := Next(s, a);
    DeleteForest(s, a);
    DeleteShrinks(s, a);
    DeleteBlobs(s, a);
    DeleteRows(s, a);
    SameIds(s, a);
    ShrunkGenerated(s, t);
    ShrunkUnpublished(s, t);
    ShrunkReady(s, a, t);
    ShrunkDeployable(s, a, t);
    ShrunkCoherent(s, t);
    DeleteShrinking(s, a);
    DeleteBlobFirst(s, a);
    ShrunkStable(s, t);
    DeleteOwned(s, a);
  }

  lemma {:induction false} RunKeeps(actions: seq<Action>)
    ensures Inv(Run(actions))
  {
    if actions != [] {
      var s, a := Run(actions[..|actions| - 1]), actions[|actions| - 1];
      RunKeeps(actions[..|actions| - 1]);
      if Enabled(s, a) { StepKeeps(s, a); }
    }
  }

  lemma {:induction false} StepKeeps(s: Sys, a: Action)
    requires Enabled(s, a) && Inv(s)
    ensures Inv(Next(s, a))
  {
    if a.Edit? {
      EditKeeps(s, a);
    } else if UploadStep(a) {
      UploadKeeps(s, a);
    } else if a.CommitUpload? {
      CommitKeeps(s, a);
    } else {
      DeleteKeeps(s, a);
    }
  }

  /** In every run packages form a forest, no tombstone has a child, and histories are complete. */
  lemma {:induction false} AlwaysForest(actions: seq<Action>, id: string)
    ensures Forest(Run(actions).store.records) && Recorded(Run(actions).store)
    ensures id in Run(actions).store.records && Run(actions).store.records[id].deleting ==> !HasChild(Run(actions).store.records, id)
  {
    RunKeeps(actions);
  }

  /** In every run a row has a package, and its verified bytes unless the package is being deleted. */
  lemma {:induction false} RowsAreServed(actions: seq<Action>, k: RowKey)
    requires k in Run(actions).store.rows
    ensures k.id in Run(actions).store.records
    ensures !Run(actions).store.records[k.id].deleting ==> Backed(Run(actions), k)
  {
    RunKeeps(actions);
  }

  /** The content a live record names is stored whole, and matches the digest pinned by its metadata. */
  lemma {:induction false} ContentIsServed(actions: seq<Action>, id: string)
    requires id in Run(actions).store.records && !Run(actions).store.records[id].deleting
    requires Run(actions).store.records[id].content.Some?
    ensures var s := Run(actions); var c := s.store.records[id].content.value; var place := Place(c.backend, id, c.revision);
      place in s.blobs && s.blobs[place] == c.bytes && Match(s.store.records[id].metadata.pinned, c.bytes)
  {
    RunKeeps(actions);
    var s := Run(actions);
    assert CoherentRecord(s.store, id);
    assert Backed(s, RowKey(id, s.store.records[id].content.value.revision));
  }

  /** A deletion lists rows at most as often as there were rows when it began, whatever runs beside it. */
  lemma {:induction false} ScanEnds(actions: seq<Action>, d: nat)
    requires d in Run(actions).deletions
    ensures Run(actions).deletions[d].lists <= Run(actions).deletions[d].bound
  {
    RunKeeps(actions);
    var s := Run(actions);
    var deletion := s.deletions[d];
    assert ShrinkingOne(s.store, deletion);
    if deletion.rows != [] && RowKey(deletion.id, deletion.rows[0].revision) in s.store.rows {
      assert RowKey(deletion.id, deletion.rows[0].revision) in RowsOf(s.store, deletion.id);
    }
  }

  /** Once a package is gone, its only blobs are those of uploads that have not cleaned up yet. */
  lemma {:induction false} NothingLeft(actions: seq<Action>, p: Place)
    requires p in Run(actions).blobs && p.id !in Run(actions).store.records
    ensures OwnedByUpload(Run(actions), p)
  {
    RunKeeps(actions);
  }

  lemma {:induction false} StepHistory(s: Sys, a: Action, k: EntryKey)
    requires Enabled(s, a) && Recorded(s.store) && k in s.store.history
    ensures k in Next(s, a).store.history && Next(s, a).store.history[k] == s.store.history[k]
  {
    if a.Edit? {
      KeepsHistory(s.store, a.tx);
    } else if a.CommitUpload? {
      var tx := CommitTx(s.uploads[a.u], a.token);
      if a.ok && TxError(s.store, tx).None? { KeepsHistory(s.store, tx); }
    } else if DeleteStep(a) {
      DeleteStore(s, a);
      if DeleteTx(s, a).Some? { KeepsHistory(s.store, DeleteTx(s, a).value); }
    }
  }

  /** A history entry, once written, is there unchanged in every later state, also after its package is deleted. */
  lemma {:induction false} HistoryStays(actions: seq<Action>, n: nat, k: EntryKey)
    requires n <= |actions| && k in Run(actions[..n]).store.history
    ensures k in Run(actions).store.history && Run(actions).store.history[k] == Run(actions[..n]).store.history[k]
  {
    if n == |actions| {
      assert actions[..n] == actions;
    } else {
      var front := actions[..|actions| - 1];
      assert front[..n] == actions[..n];
      HistoryStays(front, n, k);
      RunKeeps(front);
      if Enabled(Run(front), actions[|actions| - 1]) { StepHistory(Run(front), actions[|actions| - 1], k); }
    }
  }
}
