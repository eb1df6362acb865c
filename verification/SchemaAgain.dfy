/** Merging the same older release into a tree a second time changes nothing. */
module SchemaAgain {
  import opened Names
  import opened SchemaHistory
  import opened SchemaMerging
  import opened SchemaTree

  predicate DistinctTree(t: Tree) {
    forall i :: 0 <= i < |t| ==> Distinct(t[i].payload) && Distinct(t[i].response)
  }

  /** The merged form of one older schema. */
  function MergedForm(current: Tree, moves: map<string, string>, older: Schema): Schema
    requires MergeSchema(Latest(current, moves, older), older).Ok?
  {
    MergeSchema(Latest(current, moves, older), older).value
  }

  lemma {:induction false} IndexAt(t: Tree, i: nat)
    requires UniquePaths(t) && i < |t|
    ensures IndexOf(t, t[i].path) == i
  {
    assert forall j :: 0 <= j < |t| && j != i ==> t[j].path != t[i].path;
  }

  lemma {:induction false} SortedUnique(t: Tree)
    requires Increasing(t, PathOf)
    ensures UniquePaths(t)
  {
    forall i, j | 0 <= i < j < |t| ensures t[i].path != t[j].path {
      assert Before(PathOf(t[i]), PathOf(t[j]));
      BeforeTotal(t[i].path, t[j].path);
    }
  }

  /** The same path and wire identity; the keys may differ. */
  predicate SameSchema(a: Schema, b: Schema) {
    a.path == b.path && a.family == b.family && a.identifier == b.identifier
  }

  // ----- Strays as sets -----

  ghost predicate IsStray(t: Tree, other: Tree, id: string, path: string) {
    exists i :: 0 <= i < |t| && t[i].path == path && Stray(t[i], other) && Identity(t[i]) == id
  }

  lemma {:induction false} StraysDiffer(t: Tree, other: Tree, id: string)
    requires UniquePaths(t)
    ensures forall i, j :: 0 <= i < j < |Strays(t, other, id)| ==> Strays(t, other, id)[i] != Strays(t, other, id)[j]
  {
    if t != [] {
      var front, last := t[..|t| - 1], t[|t| - 1];
      StraysDiffer(front, other, id);
      StraysHold(front, other, id);
      forall k | 0 <= k < |Strays(front, other, id)| ensures Strays(front, other, id)[k] != last.path {
        assert Strays(front, other, id)[k] in Strays(front, other, id);
      }
    }
  }

  /** One stray path of an identity, and no other. */
  lemma {:induction false} StraysOne(t: Tree, other: Tree, id: string, path: string)
    requires UniquePaths(t)
    ensures Strays(t, other, id) == [path] <==> forall p :: IsStray(t, other, id, p) <==> p == path
  {
    var strays := Strays(t, other, id);
    StraysHold(t, other, id);
    StraysDiffer(t, other, id);
    assert |strays| > 1 ==> strays[0] != strays[1];
    assert forall p :: p in strays <==> IsStray(t, other, id, p);
    if forall p :: IsStray(t, other, id, p) <==> p == path {
      assert path in strays;
      forall i | 0 <= i < |strays| ensures strays[i] == path {
        assert strays[i] in strays;
        assert IsStray(t, other, id, strays[i]);
      }
      assert strays == [path];
    }
  }

  // ----- The paths of a merged tree -----

  /** Where the merged form of an older schema is: at its own path, or where it moved. */
  lemma {:induction false} FormPath(current: Tree, previous: Tree, moves: map<string, string>, j: nat)
    requires UniquePaths(current) && UniquePaths(previous) && AreMoves(current, previous, moves) && j < |previous|
    requires MergeSchema(Latest(current, moves, previous[j]), previous[j]).Ok?
    ensures var p := previous[j].path;
      MergedForm(current, moves, previous[j]).path == if p in moves then moves[p] else p
    ensures previous[j].path in moves ==>
              && !HasPath(current, previous[j].path) && HasPath(current, moves[previous[j].path])
              && !HasPath(previous, moves[previous[j].path])
  {
    var p := previous[j].path;
    if p in moves { MoveEnds(current, previous, p, moves[p]); }
  }

  /** A path of the older release is missing from the merge exactly when its schema moved. */
  lemma {:induction false} OlderPath(current: Tree, previous: Tree, moves: map<string, string>, out: Tree, j: nat)
    requires UniquePaths(current) && UniquePaths(previous) && MergesTo(current, previous, moves, out) && j < |previous|
    ensures HasPath(out, previous[j].path) <==> previous[j].path !in moves
  {
    var a := previous[j].path;
    FormPath(current, previous, moves, j);
    var form := MergedForm(current, moves, previous[j]);
    assert IsMerged(current, previous, moves, |previous|, form);
    assert form in out;
    if HasPath(out, a) {
      var x := out[IndexOf(out, a)];
      assert x in out;
      FoundBack(current, previous, moves, j, x);
    }
  }

  /** A schema of the merge that stands at an older path came from the current schema or the older one at that path. */
  lemma {:induction false} FoundBack(current: Tree, previous: Tree, moves: map<string, string>, j: nat, x: Schema)
    requires UniquePaths(current) && UniquePaths(previous) && AreMoves(current, previous, moves)
    requires j < |previous| && x.path == previous[j].path
    requires IsMerged(current, previous, moves, |previous|, x) || Untouched(current, previous, moves, |previous|, x)
    ensures previous[j].path !in moves
  {
    if HasPath(current, x.path) {
      if x.path in moves { MoveEnds(current, previous, x.path, moves[x.path]); }
    } else {
      var k :| 0 <= k < |previous| && MergeSchema(Latest(current, moves, previous[k]), previous[k]) == Ok(x);
      FormPath(current, previous, moves, k);
      IndexAt(previous, j);
      IndexAt(previous, k);
    }
  }

  /** Outside the older release's paths, the merge has the current schemas' paths and identities. */
  lemma {:induction false} NewerPath(current: Tree, previous: Tree, moves: map<string, string>, out: Tree, id: string, q: string)
    requires UniquePaths(current) && UniquePaths(previous) && MergesTo(current, previous, moves, out)
    ensures IsStray(out, previous, id, q) <==> IsStray(current, previous, id, q)
  {
    if IsStray(out, previous, id, q) {
      var i :| 0 <= i < |out| && out[i].path == q && Stray(out[i], previous) && Identity(out[i]) == id;
      assert out[i] in out;
      FromCurrent(current, previous, moves, out[i]);
    }
    if IsStray(current, previous, id, q) {
      var i :| 0 <= i < |current| && current[i].path == q && Stray(current[i], previous) && Identity(current[i]) == id;
      KeptInOut(current, previous, moves, out, i);
    }
  }

  lemma {:induction false} FromCurrent(current: Tree, previous: Tree, moves: map<string, string>, x: Schema)
    requires UniquePaths(current) && UniquePaths(previous) && AreMoves(current, previous, moves) && !HasPath(previous, x.path)
    requires IsMerged(current, previous, moves, |previous|, x) || Untouched(current, previous, moves, |previous|, x)
    ensures exists i :: 0 <= i < |current| && SameSchema(current[i], x)
  {
    if IsMerged(current, previous, moves, |previous|, x) {
      var k :| 0 <= k < |previous| && MergeSchema(Latest(current, moves, previous[k]), previous[k]) == Ok(x);
      FormPath(current, previous, moves, k);
      IndexAt(previous, k);
      var i := IndexOf(current, x.path);
      assert Latest(current, moves, previous[k]) == current[i];
    } else {
      var i :| 0 <= i < |current| && current[i] == x;
    }
  }

  lemma {:induction false} KeptInOut(current: Tree, previous: Tree, moves: map<string, string>, out: Tree, i: nat)
    requires UniquePaths(current) && UniquePaths(previous) && MergesTo(current, previous, moves, out) && i < |current|
    ensures exists n :: 0 <= n < |out| && SameSchema(out[n], current[i])
  {
    if Untouched(current, previous, moves, |previous|, current[i]) {
      assert current[i] in out;
    } else {
      var j :| 0 <= j < |previous| && Latest(current, moves, previous[j]).path == current[i].path;
      var form := MergedForm(current, moves, previous[j]);
      IndexAt(current, i);
      LatestIsCurrent(current, moves, previous[j], i);
      assert IsMerged(current, previous, moves, |previous|, form);
      assert form in out;
    }
  }

  lemma {:induction false} LatestIsCurrent(current: Tree, moves: map<string, string>, older: Schema, i: nat)
    requires UniquePaths(current) && i < |current| && Latest(current, moves, older).path == current[i].path
    ensures Latest(current, moves, older) == current[i]
  {
    IndexAt(current, i);
  }

  // ----- The moves are found again -----

  lemma {:induction false} MovesAgain(current: Tree, previous: Tree, moves: map<string, string>, out: Tree, a: string, q: string)
    requires UniquePaths(current) && UniquePaths(previous) && MergesTo(current, previous, moves, out)
    ensures Moved(out, previous, a, q) <==> Moved(current, previous, a, q)
  {
    SortedUnique(out);
    if Moved(current, previous, a, q) {
      var id :| Strays(previous, current, id) == [a] && Strays(current, previous, id) == [q];
      SameStrays(current, previous, moves, out, id, a, q);
    }
    if Moved(out, previous, a, q) {
      var id :| Strays(previous, out, id) == [a] && Strays(out, previous, id) == [q];
      FirstMoved(current, previous, moves, out, id, a, q);
    }
  }

  lemma {:induction false} SameStrays(current: Tree, previous: Tree, moves: map<string, string>, out: Tree, id: string, a: string, q: string)
    requires UniquePaths(current) && UniquePaths(previous) && UniquePaths(out) && MergesTo(current, previous, moves, out)
    requires Strays(previous, current, id) == [a] && Strays(current, previous, id) == [q]
    ensures Strays(previous, out, id) == [a] && Strays(out, previous, id) == [q]
  {
    assert Moved(current, previous, a, q);
    StraysOne(previous, current, id, a);
    StraysOne(current, previous, id, q);
    forall p ensures IsStray(previous, out, id, p) <==> p == a { OlderStray(current, previous, moves, out, id, p); }
    StraysOne(previous, out, id, a);
    forall p ensures IsStray(out, previous, id, p) <==> p == q { NewerPath(current, previous, moves, out, id, p); }
    StraysOne(out, previous, id, q);
  }

  /** The older schemas that the merge does not have by path are the moved ones. */
  lemma {:induction false} OlderStray(current: Tree, previous: Tree, moves: map<string, string>, out: Tree, id: string, p: string)
    requires UniquePaths(current) && UniquePaths(previous) && MergesTo(current, previous, moves, out)
    ensures IsStray(previous, out, id, p) <==> IsStray(previous, current, id, p) && p in moves
  {
    if IsStray(previous, out, id, p) {
      var j :| 0 <= j < |previous| && previous[j].path == p && Stray(previous[j], out) && Identity(previous[j]) == id;
      OlderPath(current, previous, moves, out, j);
      FormPath(current, previous, moves, j);
    }
    if IsStray(previous, current, id, p) && p in moves {
      var j :| 0 <= j < |previous| && previous[j].path == p && Stray(previous[j], current) && Identity(previous[j]) == id;
      OlderPath(current, previous, moves, out, j);
    }
  }

  lemma {:induction false} FirstMoved(current: Tree, previous: Tree, moves: map<string, string>, out: Tree, id: string, a: string, q: string)
    requires UniquePaths(current) && UniquePaths(previous) && UniquePaths(out) && MergesTo(current, previous, moves, out)
    requires Strays(previous, out, id) == [a] && Strays(out, previous, id) == [q]
    ensures Moved(current, previous, a, q)
  {
    StraysOne(previous, out, id, a);
    StraysOne(out, previous, id, q);
    OlderStray(current, previous, moves, out, id, a);
    var first :| Strays(previous, current, first) == [a] && Strays(current, previous, first) == [moves[a]];
    SameIdentity(previous, current, id, first, a);
    NewerPath(current, previous, moves, out, id, moves[a]);
    StraysOne(current, previous, id, moves[a]);
  }

  lemma {:induction false} SameIdentity(t: Tree, other: Tree, id: string, first: string, a: string)
    requires UniquePaths(t) && IsStray(t, other, id, a) && Strays(t, other, first) == [a]
    ensures id == first
  {
    StraysOne(t, other, first, a);
    assert IsStray(t, other, first, a);
    var i :| 0 <= i < |t| && t[i].path == a && Stray(t[i], other) && Identity(t[i]) == id;
    var j :| 0 <= j < |t| && t[j].path == a && Stray(t[j], other) && Identity(t[j]) == first;
    IndexAt(t, i);
    IndexAt(t, j);
  }

  lemma {:induction false} SameMoves(current: Tree, previous: Tree, moves: map<string, string>, out: Tree, again: map<string, string>)
    requires UniquePaths(current) && UniquePaths(previous) && MergesTo(current, previous, moves, out)
    requires AreMoves(out, previous, again)
    ensures again == moves
  {
    forall a | a in moves ensures a in again && again[a] == moves[a] {
      MovesAgain(current, previous, moves, out, a, moves[a]);
    }
    forall a | a in again ensures a in moves {
      MovesAgain(current, previous, moves, out, a, again[a]);
    }
  }

  // ----- The merge is found again -----

  lemma {:induction false} LatestDistinct(current: Tree, moves: map<string, string>, older: Schema)
    requires DistinctTree(current) && Distinct(older.payload) && Distinct(older.response)
    ensures Distinct(Latest(current, moves, older).payload) && Distinct(Latest(current, moves, older).response)
  {
  }

  /** The newest form of an older schema is now its merged form, which takes nothing more from it. */
  lemma {:induction false} FormAgain(current: Tree, previous: Tree, moves: map<string, string>, out: Tree, j: nat)
    requires UniquePaths(current) && UniquePaths(previous) && DistinctTree(current) && DistinctTree(previous)
    requires MergesTo(current, previous, moves, out) && j < |previous|
    ensures var form := MergedForm(current, moves, previous[j]);
      Latest(out, moves, previous[j]) == form && MergeSchema(form, previous[j]) == Ok(form) && form in out
  {
    var older, latest := previous[j], Latest(current, moves, previous[j]);
    var form := MergedForm(current, moves, older);
    SortedUnique(out);
    FormPath(current, previous, moves, j);
    OlderPath(current, previous, moves, out, j);
    assert IsMerged(current, previous, moves, |previous|, form);
    var i :| 0 <= i < |out| && out[i] == form;
    IndexAt(out, i);
    LatestDistinct(current, moves, older);
    MergeAgain(latest.payload, older.payload, older.path);
    MergeAgain(latest.response, older.response, older.path + "#response");
  }

  /** A second merge has the members of the first. */
  lemma {:induction false} SameMembers(current: Tree, previous: Tree, moves: map<string, string>, out: Tree, x: Schema)
    requires UniquePaths(current) && UniquePaths(previous) && DistinctTree(current) && DistinctTree(previous)
    requires MergesTo(current, previous, moves, out)
    ensures x in out <==> IsMerged(out, previous, moves, |previous|, x) || Untouched(out, previous, moves, |previous|, x)
  {
    if x in out && IsMerged(current, previous, moves, |previous|, x) {
      var j :| 0 <= j < |previous| && MergeSchema(Latest(current, moves, previous[j]), previous[j]) == Ok(x);
      FormAgain(current, previous, moves, out, j);
    } else if x in out {
      forall j | 0 <= j < |previous| ensures Latest(out, moves, previous[j]).path != x.path {
        FormAgain(current, previous, moves, out, j);
      }
    }
    if IsMerged(out, previous, moves, |previous|, x) {
      var j :| 0 <= j < |previous| && MergeSchema(Latest(out, moves, previous[j]), previous[j]) == Ok(x);
      FormAgain(current, previous, moves, out, j);
    }
  }

  /** Merging an older release into the merge with it succeeds, finds the same moves, and changes nothing. */
  lemma {:induction false} HistoryAgain(current: Tree, previous: Tree, moves: map<string, string>, out: Tree)
    requires UniquePaths(current) && UniquePaths(previous) && DistinctTree(current) && DistinctTree(previous)
    requires MergesTo(current, previous, moves, out)
    ensures UniquePaths(out) && MergesTo(out, previous, moves, out)
    ensures forall found :: AreMoves(out, previous, found) ==> found == moves
    ensures forall found, again :: MergesTo(out, previous, found, again) ==> again == out
  {
    SortedUnique(out);
    forall a, q ensures Moved(out, previous, a, q) <==> Moved(current, previous, a, q) {
      MovesAgain(current, previous, moves, out, a, q);
    }
    forall j | 0 <= j < |previous| ensures MergeSchema(Latest(out, moves, previous[j]), previous[j]).Ok? {
      FormAgain(current, previous, moves, out, j);
    }
    forall x ensures x in out <==> IsMerged(out, previous, moves, |previous|, x) || Untouched(out, previous, moves, |previous|, x) {
      SameMembers(current, previous, moves, out, x);
    }
    forall found | AreMoves(out, previous, found) ensures found == moves {
      SameMoves(current, previous, moves, out, found);
    }
    forall found, again | MergesTo(out, previous, found, again) ensures again == out {
      assert found == moves;
      IncreasingUnique(again, out, PathOf);
    }
  }
}
