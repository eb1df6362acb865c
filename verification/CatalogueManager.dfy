/** The manager's operations as the code runs them, one call at a time. */
module CatalogueManager {
  import opened Basics
  import opened Catalogue
  import opened CatalogueForest
  import opened CatalogueRuns

  /** Follows parents upwards, remembering every package met. */
  method ValidateParent(records: Records, id: string, parent: string) returns (error: Option<Error>)
    ensures error == ParentError(records, parent, {id})
  {
    var current := parent;
    var seen := {id};
    while current != ""
      invariant ParentError(records, parent, {id}) == ParentError(records, current, seen)
      decreases MAX_CHAIN + 1 - |seen|
    {
      if current in seen { return Some(Invalid); }
      if |seen| > MAX_CHAIN { return Some(Invalid); }
      seen := seen + {current};
      if current !in records { return Some(NotFound); }
      if records[current].deleting { return Some(Conflict); }
      current := records[current].metadata.parent;
    }
    return None;
  }

  /** Reads the records a page at a time; `ids` lists their keys in order. */
  method CheckNoChildren(records: Records, ids: seq<string>, id: string) returns (error: Option<Error>)
    requires forall k :: k in records <==> k in ids
    ensures error == if HasChild(records, id) then Some(Conflict) else None
  {
    var after := 0;
    while true
      invariant after <= |ids| && forall i :: 0 <= i < after ==> records[ids[i]].metadata.parent != id
      decreases |ids| - after
    {
      var rows := if |ids| - after < 1000 then ids[after..] else ids[after..after + 1000];
      for i := 0 to |rows|
        invariant forall j :: 0 <= j < after + i ==> records[ids[j]].metadata.parent != id
      {
        assert rows[i] == ids[after + i];
        if records[rows[i]].metadata.parent == id { return Some(Conflict); }
      }
      after := after + |rows|;
      if |rows| < 1000 { return None; }
    }
  }

  class Manager {
    var store: Store
    var blobs: map<Place, string>

    /** One transaction: its writes happen together, or not at all. */
    method Transact(tx: Tx) returns (error: Option<Error>)
      modifies this`store
      ensures error == TxError(old(store), tx)
      ensures store == if error.None? then Apply(old(store), tx) else old(store)
    {
      error := TxError(store, tx);
      if error.None? { store := Apply(store, tx); }
    }

    /**
     * Puts the bytes, reads them back, and only then commits. The backend stores `written`, which may differ from what
     * it was given; `works` and `cleans` say whether its calls succeed.
     */
    method Upload(id: string, expected: string, content: Content, token: string, written: string, works: bool, cleans: bool)
        returns (error: Option<Error>)
      requires Place(content.backend, id, content.revision) !in blobs
      modifies this
      ensures error.None? ==>
        && TxError(old(store), Commit(id, expected, token, content)).None?
        && store == Apply(old(store), Commit(id, expected, token, content))
        && blobs == old(blobs)[Place(content.backend, id, content.revision) := content.bytes]
      ensures error.Some? ==> store == old(store) && (cleans ==> blobs == old(blobs))
      ensures error.None? <==>
        && works && written == content.bytes && content.bytes != ""
        && EditError(old(store).records, id, expected).None? && Match(old(store).records[id].metadata.pinned, content.bytes)
    {
      error := EditError(store.records, id, expected);
      if error.Some? { return; }
      if content.bytes == "" { return Some(Invalid); }
      if !Match(store.records[id].metadata.pinned, content.bytes) { return Some(Integrity); }
      var place := Place(content.backend, id, content.revision);
      blobs := blobs[place := written];
      var committed := false;
      if works && blobs[place] == content.bytes {
        error := Transact(Commit(id, expected, token, content));
        committed := error.None?;
      } else {
        error := Some(Integrity);
      }
      if !committed && cleans { blobs := blobs - {place}; }
    }

    /** At most 100 rows of the package, and none only if it has none. */
    method List(id: string) returns (found: seq<Content>)
      requires Keyed(store)
      ensures Listing(store, id, found) && |found| <= 100
    {
      found := [];
      var rest := RowsOf(store, id);
      while rest != {} && |found| < 100
        invariant |found| <= 100 && rest <= RowsOf(store, id)
        invariant forall i :: 0 <= i < |found| ==>
          RowKey(id, found[i].revision) in store.rows && store.rows[RowKey(id, found[i].revision)] == found[i]
        invariant forall i :: 0 <= i < |found| ==> RowKey(id, found[i].revision) !in rest
        invariant forall i, j :: 0 <= i < j < |found| ==> found[i].revision != found[j].revision
        invariant found == [] ==> rest == RowsOf(store, id)
        decreases rest
      {
        var k :| k in rest;
        found := found + [store.rows[k]];
        rest := rest - {k};
      }
    }

    /** Removes a blob and then its row. */
    method Drop(id: string, row: Content, stuck: set<Place>) returns (error: Option<Error>)
      modifies this
      ensures store.records == old(store).records && (error.Some? ==> store == old(store) && blobs == old(blobs))
      ensures error.None? ==>
        && store.rows == old(store).rows - {RowKey(id, row.revision)}
        && blobs == old(blobs) - {Place(row.backend, id, row.revision)}
    {
      var place := Place(row.backend, id, row.revision);
      if place in stuck { return Some(Invalid); }
      blobs := blobs - {place};
      error := Transact(Tx.DropRow(id, row.revision));
    }

    /** One pass over the rows of a listing. */
    method DropAll(id: string, found: seq<Content>, stuck: set<Place>, ghost start: Store, ghost stored: map<Place, string>)
        returns (error: Option<Error>)
      requires found != [] && Listing(store, id, found) && Keyed(store)
      requires Removed(start, store, blobs, id) && Elsewhere(start, stored, store, blobs, id)
      modifies this
      ensures store.records == old(store).records && Keyed(store)
      ensures Removed(start, store, blobs, id) && Elsewhere(start, stored, store, blobs, id)
      ensures error.None? ==> RowsOf(store, id) < RowsOf(old(store), id)
    {
      error := None;
      for i := 0 to |found|
        invariant store.records == old(store).records && Keyed(store) && error.None?
        invariant Removed(start, store, blobs, id) && Elsewhere(start, stored, store, blobs, id)
        invariant forall j :: i <= j < |found| ==>
          RowKey(id, found[j].revision) in store.rows && store.rows[RowKey(id, found[j].revision)] == found[j]
        invariant store.rows.Keys <= old(store).rows.Keys && (i > 0 ==> RowKey(id, found[0].revision) !in store.rows)
      {
        error := Drop(id, found[i], stuck);
        if error.Some? { return; }
      }
      assert RowKey(id, found[0].revision) in RowsOf(old(store), id);
    }

    /** Tombstones the package, then removes each blob and its row, then the record. `stuck` blobs cannot be removed. */
    method Delete(id: string, expected: string, stuck: set<Place>) returns (error: Option<Error>)
      requires Keyed(store)
      modifies this
      ensures error.None? ==> id !in store.records && RowsOf(store, id) == {}
      ensures error.None? ==> Removed(old(store), store, blobs, id)
      ensures TxError(old(store), Tombstone(id, expected)).Some? ==> error.Some? && store == old(store) && blobs == old(blobs)
      ensures TxError(old(store), Tombstone(id, expected)).None? && error.Some? ==>
        id in store.records && store.records[id].deleting && store.records[id].revision == expected
      ensures Elsewhere(old(store), old(blobs), store, blobs, id)
    {
      error := Transact(Tombstone(id, expected));
      if error.Some? { return; }
      var records := store.records;
      var found := List(id);
      while found != []
        invariant store.records == records && Listing(store, id, found) && Keyed(store)
        invariant Removed(old(store), store, blobs, id) && Elsewhere(old(store), old(blobs), store, blobs, id)
        decreases RowsOf(store, id)
      {
        error := DropAll(id, found, stuck, old(store), old(blobs));
        if error.Some? { return; }
        found := List(id);
      }
      error := Transact(Remove(id, expected));
    }
  }

  /** A row is stored under the revision it carries. */
  predicate Keyed(s: Store) {
    forall k :: k in s.rows ==> s.rows[k].revision == k.revision
  }

  /** Every row that is gone was the package's, and its blob is gone with it. */
  ghost predicate Removed(before: Store, s: Store, blobs: map<Place, string>, id: string) {
    && (forall k :: k in s.rows ==> k in before.rows && s.rows[k] == before.rows[k])
    && (forall k :: k in before.rows && k !in s.rows ==> k.id == id && Place(before.rows[k].backend, id, k.revision) !in blobs)
  }

  ghost predicate Elsewhere(s: Store, blobs: map<Place, string>, after: Store, left: map<Place, string>, id: string) {
    && (forall k: RowKey :: k.id != id ==> (k in after.rows <==> k in s.rows) && (k in s.rows ==> after.rows[k] == s.rows[k]))
    && (forall p: Place :: p.id != id ==> (p in left <==> p in blobs) && (p in blobs ==> left[p] == blobs[p]))
    && (forall k: string :: k != id ==> (k in after.records <==> k in s.records) && (k in s.records ==> after.records[k] == s.records[k]))
  }
}
