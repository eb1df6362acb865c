/** Merging whole releases: schemas are matched by path, or by a wire identity that is unique on both sides. */
module SchemaTree {
  import opened Names
  import opened SchemaHistory

  /** `rest` stands for the schema's fields that a merge copies without reading. */
  datatype Schema = Schema(path: string, family: string, identifier: string, rest: string, payload: seq<Key>, response: seq<Key>)

  type Tree = seq<Schema>

  function PathOf(s: Schema): string { s.path }

  predicate UniquePaths(t: Tree) {
    forall i, j :: 0 <= i < j < |t| ==> t[i].path != t[j].path
  }

  function Identity(s: Schema): string {
    s.family + ":" + s.identifier
  }

  function IndexOf(t: Tree, path: string): (i: int)
    ensures -1 <= i < |t|
    ensures i >= 0 ==> t[i].path == path
    ensures i < 0 ==> forall j :: 0 <= j < |t| ==> t[j].path != path
  {
    if t == [] then -1
    else if t[|t| - 1].path == path then |t| - 1
    else IndexOf(t[..|t| - 1], path)
  }

  predicate HasPath(t: Tree, path: string) {
    IndexOf(t, path) >= 0
  }

  // ----- Moves -----

  /** Schemas with an identity whose path the other release does not have. */
  predicate Stray(s: Schema, other: Tree) {
    !HasPath(other, s.path) && s.identifier != ""
  }

  /** The paths of the stray schemas of one identity, in order. */
  function Strays(t: Tree, other: Tree, id: string): seq<string> {
    if t == [] then []
    else
      var last := t[|t| - 1];
      Strays(t[..|t| - 1], other, id) + if Stray(last, other) && Identity(last) == id then [last.path] else []
  }

  lemma {:induction false} StraysHold(t: Tree, other: Tree, id: string)
    ensures forall p :: p in Strays(t, other, id) <==> exists i :: 0 <= i < |t| && t[i].path == p && Stray(t[i], other) && Identity(t[i]) == id
  {
    if t != [] {
      StraysHold(t[..|t| - 1], other, id);
    }
  }

  /** One schema of an identity vanished and one appeared: they are the same schema under a new path. */
  ghost predicate Moved(current: Tree, previous: Tree, from: string, to: string) {
    exists id :: Strays(previous, current, id) == [from] && Strays(current, previous, id) == [to]
  }

  method CollectIds(t: Tree, other: Tree) returns (ids: map<string, seq<string>>)
    ensures Collected(ids, t, other)
  {
    ids := map[];
    for n := 0 to |t|
      invariant forall id :: (id in ids <==> Strays(t[..n], other, id) != []) && (id in ids ==> ids[id] == Strays(t[..n], other, id))
    {
      assert t[..n + 1][..n] == t[..n];
      if Stray(t[n], other) {
        var id := Identity(t[n]);
        ids := ids[id := (if id in ids then ids[id] else []) + [t[n].path]];
      }
    }
    assert t[..|t|] == t;
  }

  type Ids = map<string, seq<string>>

  ghost predicate Collected(ids: Ids, t: Tree, other: Tree) {
    forall id :: (id in ids <==> Strays(t, other, id) != []) && (id in ids ==> ids[id] == Strays(t, other, id))
  }

  /** One of the identities in `done` pairs the two paths. */
  ghost predicate Pairs(before: Ids, after: Ids, done: set<string>, p: string, q: string) {
    exists id :: id in done && Pairing(before, after, id, p, q)
  }

  predicate Pairing(before: Ids, after: Ids, id: string, p: string, q: string) {
    id in before && before[id] == [p] && id in after && after[id] == [q]
  }

  ghost predicate Paired(moves: map<string, string>, before: Ids, after: Ids, done: set<string>) {
    && (forall p :: p in moves ==> Pairs(before, after, done, p, moves[p]))
    && (forall p, q :: Pairs(before, after, done, p, q) ==> p in moves && moves[p] == q)
  }

  /** No path is listed under two identities. */
  ghost predicate Separate(ids: Ids) {
    forall k, m, p :: k in ids && m in ids && ids[k] == [p] && ids[m] == [p] ==> k == m
  }

  lemma {:induction false} PairStep(moves: map<string, string>, before: Ids, after: Ids, done: set<string>, id: string, p: string, q: string)
    requires Separate(before) && Paired(moves, before, after, done) && id !in done && Pairing(before, after, id, p, q)
    ensures Paired(moves[p := q], before, after, done + {id})
  {
    var next := moves[p := q];
    forall r | r in next ensures Pairs(before, after, done + {id}, r, next[r]) {
      if r == p {
        assert Pairing(before, after, id, p, q);
      } else {
        assert Pairs(before, after, done, r, moves[r]);
      }
    }
    forall r, t | Pairs(before, after, done + {id}, r, t) ensures r in next && next[r] == t {
      var k :| k in done + {id} && Pairing(before, after, k, r, t);
      if k != id { assert Pairs(before, after, done, r, t); }
    }
  }

  lemma {:induction false} PairSkip(moves: map<string, string>, before: Ids, after: Ids, done: set<string>, id: string)
    requires Paired(moves, before, after, done) && forall p, q :: !Pairing(before, after, id, p, q)
    ensures Paired(moves, before, after, done + {id})
  {
    forall p | p in moves ensures Pairs(before, after, done + {id}, p, moves[p]) {
      assert Pairs(before, after, done, p, moves[p]);
    }
    forall r, t | Pairs(before, after, done + {id}, r, t) ensures r in moves && moves[r] == t {
      var k :| k in done + {id} && Pairing(before, after, k, r, t);
      assert Pairs(before, after, done, r, t);
    }
  }

  method HistoryMoves(current: Tree, previous: Tree) returns (moves: map<string, string>)
    requires UniquePaths(previous)
    ensures forall p :: p in moves ==> Moved(current, previous, p, moves[p])
    ensures forall p, q :: Moved(current, previous, p, q) ==> p in moves && moves[p] == q
  {
    var before := CollectIds(previous, current);
    var after := CollectIds(current, previous);
    SeparateIds(previous, current, before);
    moves := map[];
    var rest := before.Keys;
    while rest != {}
      invariant rest <= before.Keys && Paired(moves, before, after, before.Keys - rest)
      decreases rest
    {
      var id :| id in rest;
      ghost var done := before.Keys - rest;
      rest := rest - {id};
      assert before.Keys - rest == done + {id};
      if |before[id]| == 1 && id in after && |after[id]| == 1 {
        PairStep(moves, before, after, done, id, before[id][0], after[id][0]);
        moves := moves[before[id][0] := after[id][0]];
      } else {
        PairSkip(moves, before, after, done, id);
      }
    }
    assert before.Keys - rest == before.Keys;
    MovesAre(current, previous, before, after, moves);
  }

  lemma {:induction false} MovesAre(current: Tree, previous: Tree, before: Ids, after: Ids, moves: map<string, string>)
    requires Collected(before, previous, current) && Collected(after, current, previous) && Paired(moves, before, after, before.Keys)
    ensures forall p :: p in moves ==> Moved(current, previous, p, moves[p])
    ensures forall p, q :: Moved(current, previous, p, q) ==> p in moves && moves[p] == q
  {
    forall p | p in moves ensures Moved(current, previous, p, moves[p]) {
      assert Pairs(before, after, before.Keys, p, moves[p]);
    }
    forall p, q | Moved(current, previous, p, q) ensures p in moves && moves[p] == q {
      var id :| Strays(previous, current, id) == [p] && Strays(current, previous, id) == [q];
      assert Pairing(before, after, id, p, q);
      assert Pairs(before, after, before.Keys, p, q);
    }
  }

  lemma {:induction false} SeparateIds(t: Tree, other: Tree, ids: Ids)
    requires UniquePaths(t) && Collected(ids, t, other)
    ensures Separate(ids)
  {
    forall k, m, p | k in ids && m in ids && ids[k] == [p] && ids[m] == [p] ensures k == m {
      StraysHold(t, other, k);
      StraysHold(t, other, m);
      assert p in Strays(t, other, k) && p in Strays(t, other, m);
    }
  }

  // ----- Merging -----

  ghost predicate AreMoves(current: Tree, previous: Tree, moves: map<string, string>) {
    && (forall p :: p in moves ==> Moved(current, previous, p, moves[p]))
    && (forall p, q :: Moved(current, previous, p, q) ==> p in moves && moves[p] == q)
  }

  /** The newest form of an older schema: same path, moved path, or the schema itself. */
  function Latest(current: Tree, moves: map<string, string>, older: Schema): Schema {
    if HasPath(current, older.path) then current[IndexOf(current, older.path)]
    else if older.path in moves && HasPath(current, moves[older.path]) then current[IndexOf(current, moves[older.path])]
    else older
  }

  function MergeSchema(latest: Schema, older: Schema): Result<Schema> {
    var payload := Merge(latest.payload, older.payload, older.path);
    if payload.Err? then Err(payload.error)
    else
      var response := Merge(latest.response, older.response, older.path + "#response");
      if response.Err? then Err(response.error) else Ok(latest.(payload := payload.value, response := response.value))
  }

  /** Where a moved schema comes from and goes to. */
  lemma {:induction false} MoveEnds(current: Tree, previous: Tree, from: string, to: string)
    requires Moved(current, previous, from, to)
    ensures HasPath(current, to) && !HasPath(previous, to) && HasPath(previous, from) && !HasPath(current, from)
  {
    var id :| Strays(previous, current, id) == [from] && Strays(current, previous, id) == [to];
    StraysHold(previous, current, id);
    StraysHold(current, previous, id);
    assert from in Strays(previous, current, id) && to in Strays(current, previous, id);
  }

  /** Two older schemas never have the same newest form. */
  lemma {:induction false} LatestDiffer(current: Tree, previous: Tree, moves: map<string, string>, i: nat, j: nat)
    requires UniquePaths(previous) && UniquePaths(current) && AreMoves(current, previous, moves) && i < |previous| && j < |previous| && i != j
    ensures Latest(current, moves, previous[i]).path != Latest(current, moves, previous[j]).path
  {
    var a, b := previous[i].path, previous[j].path;
    assert a != b && HasPath(previous, a) && HasPath(previous, b);
    if a in moves { MoveEnds(current, previous, a, moves[a]); }
    if b in moves { MoveEnds(current, previous, b, moves[b]); }
    if a in moves && b in moves && moves[a] == moves[b] { OneOrigin(current, previous, a, b, moves[a]); }
  }

  lemma {:induction false} OneOrigin(current: Tree, previous: Tree, a: string, b: string, to: string)
    requires UniquePaths(current) && Moved(current, previous, a, to) && Moved(current, previous, b, to)
    ensures a == b
  {
    var k :| Strays(previous, current, k) == [a] && Strays(current, previous, k) == [to];
    var m :| Strays(previous, current, m) == [b] && Strays(current, previous, m) == [to];
    StraysHold(current, previous, k);
    StraysHold(current, previous, m);
    assert to in Strays(current, previous, k) && to in Strays(current, previous, m);
  }

  /** The schema is not the newest form of any of the first `n` older ones. */
  predicate Untouched(current: Tree, previous: Tree, moves: map<string, string>, n: nat, s: Schema)
    requires n <= |previous|
  {
    s in current && forall j :: 0 <= j < n ==> Latest(current, moves, previous[j]).path != s.path
  }

  ghost predicate IsMerged(current: Tree, previous: Tree, moves: map<string, string>, n: nat, s: Schema)
    requires n <= |previous|
  {
    exists j :: 0 <= j < n && MergeSchema(Latest(current, moves, previous[j]), previous[j]) == Ok(s)
  }

  /** The merged form of each of the first `n` older schemas, in their order. */
  ghost predicate MergedUpTo(current: Tree, previous: Tree, moves: map<string, string>, n: nat, out: Tree)
    requires n <= |previous|
  {
    |out| == n && forall j :: 0 <= j < n ==> MergeSchema(Latest(current, moves, previous[j]), previous[j]) == Ok(out[j])
  }

  /**
   * Every older schema is merged into its newest form, every other current schema is kept as it is, there is nothing
   * else, and the result is ordered by path.
   */
  ghost predicate MergesTo(current: Tree, previous: Tree, moves: map<string, string>, out: Tree) {
    && AreMoves(current, previous, moves) && Increasing(out, PathOf)
    && (forall j :: 0 <= j < |previous| ==> MergeSchema(Latest(current, moves, previous[j]), previous[j]).Ok?)
    && (forall s :: s in out <==>
         IsMerged(current, previous, moves, |previous|, s) || Untouched(current, previous, moves, |previous|, s))
  }

  method MergeHistory(current: Tree, previous: Tree) returns (out: Result<Tree>, moves: map<string, string>)
    requires UniquePaths(current) && UniquePaths(previous)
    ensures AreMoves(current, previous, moves)
    ensures out.Err? <==> exists j :: 0 <= j < |previous| && MergeSchema(Latest(current, moves, previous[j]), previous[j]).Err?
    ensures out.Ok? ==> MergesTo(current, previous, moves, out.value)
  {
    moves := HistoryMoves(current, previous);
    var merged: Tree := [];
    for n := 0 to |previous|
      invariant MergedUpTo(current, previous, moves, n, merged)
    {
      var one := MergeBoth(Latest(current, moves, previous[n]), previous[n]);
      if one.Err? { return Err(one.error), moves; }
      merged := merged + [one.value];
    }
    var rest := Remaining(current, previous, moves);
    AllDistinct(current, previous, moves, merged, rest);
    var all := merged + rest;
    var sorted := Sort(all, PathOf);
    forall s ensures s in sorted <==> IsMerged(current, previous, moves, |previous|, s) || Untouched(current, previous, moves, |previous|, s) {
      assert s in sorted <==> s in merged || s in rest;
      assert s in merged <==> IsMerged(current, previous, moves, |previous|, s);
    }
    return Ok(sorted), moves;
  }

  method MergeBoth(latest: Schema, older: Schema) returns (out: Result<Schema>)
    ensures out == MergeSchema(latest, older)
  {
    var payload := MergeKeys(latest.payload, older.payload, older.path);
    if payload.Err? { return Err(payload.error); }
    var response := MergeKeys(latest.response, older.response, older.path + "#response");
    if response.Err? { return Err(response.error); }
    return Ok(latest.(payload := payload.value, response := response.value));
  }

  /** The current schemas that no older one was merged into. */
  method Remaining(current: Tree, previous: Tree, moves: map<string, string>) returns (rest: Tree)
    requires UniquePaths(current)
    ensures UniquePaths(rest)
    ensures forall s :: s in rest <==> Untouched(current, previous, moves, |previous|, s)
  {
    rest := [];
    for i := 0 to |current|
      invariant UniquePaths(rest)
      invariant forall s :: s in rest <==> s in current[..i] && Untouched(current, previous, moves, |previous|, s)
    {
      assert current[..i + 1] == current[..i] + [current[i]];
      if Untouched(current, previous, moves, |previous|, current[i]) {
        forall k | 0 <= k < |rest| ensures rest[k].path != current[i].path { assert rest[k] in current[..i]; }
        rest := rest + [current[i]];
      }
    }
    assert current[..|current|] == current;
  }

  lemma {:induction false} AllDistinct(current: Tree, previous: Tree, moves: map<string, string>, merged: Tree, rest: Tree)
    requires UniquePaths(previous) && UniquePaths(current) && AreMoves(current, previous, moves) && UniquePaths(rest)
    requires MergedUpTo(current, previous, moves, |previous|, merged)
    requires forall s :: s in rest ==> Untouched(current, previous, moves, |previous|, s)
    ensures DistinctKeys(merged + rest, PathOf)
  {
    var all := merged + rest;
    forall i, j | 0 <= i < j < |all| ensures PathOf(all[i]) != PathOf(all[j]) {
      if j < |merged| {
        LatestDiffer(current, previous, moves, i, j);
      } else if i < |merged| {
        assert all[j] in rest;
        assert Latest(current, moves, previous[i]).path != all[j].path;
      }
    }
  }
}
