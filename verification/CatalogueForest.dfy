/** What every catalogue transaction keeps: the package forest and the history rows. */
module CatalogueForest {
  import opened Basics
  import opened Catalogue

  /** A new package has an identifier that was never used. */
  predicate Unused(s: Store, id: string) {
    && id != "" && id !in s.records
    && (forall k :: k in s.history ==> k.id != id)
    && (forall k :: k in s.rows ==> k.id != id)
  }

  predicate Permitted(s: Store, tx: Tx) {
    TxError(s, tx).None? && (tx.Create? ==> Unused(s, tx.id))
  }

  // ----- Forest -----

  /** Above `id` nothing changes when the record of `id` does. */
  lemma {:induction false} SameAbove(records: Records, id: string, r: Record, x: string, n: nat)
    requires forall m :: 0 <= m < n ==> Up(records, x, m) != id
    ensures Up(records[id := r], x, n) == Up(records, x, n)
    decreases n
  {
    if n > 0 && x in records {
      assert Up(records, x, 0) == x;
      var parent := records[x].metadata.parent;
      forall m | 0 <= m < n - 1 ensures Up(records, parent, m) != id {
        assert Up(records, x, m + 1) == Up(records, parent, m);
      }
      SameAbove(records, id, r, parent, n - 1);
    } else if n > 0 {
      assert Up(records, x, 0) == x;
    }
  }

  /** Once `id` itself is rooted, so is every package that was. */
  lemma {:induction false} StillRooted(records: Records, after: Records, id: string, x: string, n: nat)
    requires "" !in records && Up(records, x, n) == "" && Rooted(after, id)
    requires forall y :: y in records && y != id ==> y in after && after[y].metadata.parent == records[y].metadata.parent
    requires forall y :: y in after ==> y in records || y == id
    ensures Rooted(after, x)
    decreases n
  {
    if x == "" || x !in after {
      assert Up(after, x, if x == "" then 0 else 1) == "";
    } else if x != id {
      var parent := records[x].metadata.parent;
      StillRooted(records, after, id, parent, n - 1);
      Above(after, x);
    }
  }

  lemma {:induction false} Above(records: Records, x: string)
    requires x in records && Rooted(records, records[x].metadata.parent)
    ensures Rooted(records, x)
  {
    var n: nat :| Up(records, records[x].metadata.parent, n) == "";
    assert Up(records, x, n + 1) == "";
  }

  lemma {:induction false} AllRooted(records: Records, after: Records, id: string)
    requires Forest(records) && Rooted(after, id)
    requires forall y :: y in records && y != id ==> y in after && after[y].metadata.parent == records[y].metadata.parent
    requires forall y :: y in after ==> y in records || y == id
    ensures forall x :: x in after ==> Rooted(after, x)
  {
    forall x | x in after ensures Rooted(after, x) {
      if x != id {
        var n: nat :| Up(records, x, n) == "";
        StillRooted(records, after, id, x, n);
      }
    }
  }

  /** Writing a record under a parent that was accepted keeps the forest. */
  lemma {:induction false} Reparent(records: Records, id: string, r: Record)
    requires Forest(records) && id != "" && !r.deleting && ParentError(records, r.metadata.parent, {id}).None?
    ensures Forest(records[id := r])
  {
    var n := Walked(records, r.metadata.parent, {id});
    var after := records[id := r];
    SameAbove(records, id, r, r.metadata.parent, n);
    Above(after, id);
    AllRooted(records, after, id);
    assert Up(records, r.metadata.parent, 0) == r.metadata.parent;
  }

  /** So does rewriting a record under its own parent, unless it tombstones a package with children. */
  lemma {:induction false} Rewrite(records: Records, id: string, r: Record)
    requires Forest(records) && id in records && r.metadata.parent == records[id].metadata.parent
    requires r.deleting ==> records[id].deleting || !HasChild(records, id)
    ensures Forest(records[id := r])
  {
    var after := records[id := r];
    assert "" !in after;
    var n: nat :| Up(records, id, n) == "";
    SameUp(records, after, id, n);
    AllRooted(records, after, id);
  }

  lemma {:induction false} SameUp(records: Records, after: Records, x: string, n: nat)
    requires records.Keys == after.Keys
    requires forall y :: y in records ==> after[y].metadata.parent == records[y].metadata.parent
    ensures Up(records, x, n) == Up(after, x, n)
    decreases n
  {
    if n > 0 && x in records { SameUp(records, after, records[x].metadata.parent, n - 1); }
  }

  lemma {:induction false} Unlink(records: Records, id: string)
    requires Forest(records) && id in records && records[id].deleting
    ensures Forest(records - {id})
  {
    var after := records - {id};
    assert Up(after, id, 1) == "";
    AllRooted(records, after, id);
  }

  lemma {:induction false} KeepsForest(s: Store, tx: Tx)
    requires Forest(s.records) && Permitted(s, tx)
    ensures Forest(Apply(s, tx).records)
  {
    var after := Apply(s, tx).records;
    match tx
    case Create(id, token, metadata) => Reparent(s.records, id, after[id]);
    case Update(id, expected, token, metadata) => Reparent(s.records, id, after[id]);
    case Note(id, expected, token) => Rewrite(s.records, id, after[id]);
    case AssignManifest(id, expected, token) => Rewrite(s.records, id, after[id]);
    case DeleteManifest(id, expected, token) => Rewrite(s.records, id, after[id]);
    case Commit(id, expected, token, content) => Rewrite(s.records, id, after[id]);
    case Tombstone(id, expected) => if !s.records[id].deleting { Rewrite(s.records, id, after[id]); }
    case DropRow(id, revision) =>
    case Remove(id, expected) => if id in s.records { RemovesOne(s, id); Unlink(s.records, id); }
  }

  lemma {:induction false} RemovesOne(s: Store, id: string)
    requires id in s.records
    ensures Logged(s, id, s.records[id], "deleted").records - {id} == s.records - {id}
  {
  }

  // ----- History -----

  /** Every transaction keeps the history of each live package at exactly 1 up to its sequence. */
  lemma {:induction false} KeepsRecorded(s: Store, tx: Tx)
    requires Recorded(s) && Permitted(s, tx)
    ensures Recorded(Apply(s, tx))
  {
    if tx.Create? {
      assert forall n: nat :: EntryKey(tx.id, n) !in s.history;
    }
  }

  /** History is never rewritten and never lost, not even by deletion. */
  lemma {:induction false} KeepsHistory(s: Store, tx: Tx)
    requires Recorded(s) && Permitted(s, tx)
    ensures forall k :: k in s.history ==> k in Apply(s, tx).history && Apply(s, tx).history[k] == s.history[k]
  {
  }
}
