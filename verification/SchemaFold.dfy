/** Folding whole releases, newest first, with each schema followed through its moves. */
module SchemaFold {
  import opened SchemaHistory
  import opened SchemaMerging
  import opened SchemaPaths
  import opened SchemaReleases
  import opened SchemaTree
  import opened SchemaAgain

  type Moves = map<string, string>

  ghost predicate TreeFold(releases: seq<Tree>, merges: seq<Tree>, moves: seq<Moves>) {
    && |releases| == |merges| == |moves| > 0 && merges[0] == releases[0]
    && forall k :: 0 < k < |releases| ==> MergesTo(merges[k - 1], releases[k], moves[k], merges[k])
  }

  ghost predicate WellFormed(releases: seq<Tree>) {
    forall k :: 0 <= k < |releases| ==> UniquePaths(releases[k]) && DistinctTree(releases[k])
  }

  // ----- Where a schema of each release ends up -----

  /** The path in the merge of the schema that `s`, of release `k`, was merged into. */
  function Home(merges: seq<Tree>, moves: seq<Moves>, k: nat, s: Schema): string
    requires k < |merges| == |moves|
  {
    if k == 0 then s.path else Latest(merges[k - 1], moves[k], s).path
  }

  ghost predicate LivesAt(releases: seq<Tree>, merges: seq<Tree>, moves: seq<Moves>, k: nat, i: int, path: string)
    requires k < |releases| == |merges| == |moves|
  {
    0 <= i < |releases[k]| && Home(merges, moves, k, releases[k][i]) == path
  }

  /** The schema of release `k` that ends up at `path`, or -1. */
  ghost function MemberAt(releases: seq<Tree>, merges: seq<Tree>, moves: seq<Moves>, k: nat, path: string): (i: int)
    requires k < |releases| == |merges| == |moves|
    ensures -1 <= i < |releases[k]|
    ensures i >= 0 <==> exists j :: LivesAt(releases, merges, moves, k, j, path)
    ensures i >= 0 ==> LivesAt(releases, merges, moves, k, i, path)
  {
    if exists j :: LivesAt(releases, merges, moves, k, j, path) then
      var j :| LivesAt(releases, merges, moves, k, j, path); j
    else -1
  }

  lemma {:induction false} UniqueMerge(releases: seq<Tree>, merges: seq<Tree>, moves: seq<Moves>, k: nat)
    requires TreeFold(releases, merges, moves) && WellFormed(releases) && k < |releases|
    ensures UniquePaths(merges[k])
  {
    if k > 0 {
      assert MergesTo(merges[k - 1], releases[k], moves[k], merges[k]);
      SortedUnique(merges[k]);
    }
  }

  /** Two schemas of one release never end up at the same path. */
  lemma {:induction false} OneMember(releases: seq<Tree>, merges: seq<Tree>, moves: seq<Moves>, k: nat, i: int, j: int, path: string)
    requires TreeFold(releases, merges, moves) && WellFormed(releases) && k < |releases|
    requires LivesAt(releases, merges, moves, k, i, path) && LivesAt(releases, merges, moves, k, j, path)
    ensures i == j
  {
    if k > 0 && i != j {
      UniqueMerge(releases, merges, moves, k - 1);
      LatestDiffer(merges[k - 1], releases[k], moves[k], i, j);
    }
  }

  // ----- The fold at one path is a fold of key lists -----

  function KeysOf(s: Schema, response: bool): seq<Key> {
    if response then s.response else s.payload
  }

  /** What release `k` contributes at a path. */
  ghost function Given(releases: seq<Tree>, merges: seq<Tree>, moves: seq<Moves>, k: nat, path: string, response: bool): seq<Key>
    requires k < |releases| == |merges| == |moves|
  {
    var i := MemberAt(releases, merges, moves, k, path);
    if i >= 0 then KeysOf(releases[k][i], response) else []
  }

  /** What a merge has at a path. */
  function Held(t: Tree, path: string, response: bool): seq<Key> {
    if HasPath(t, path) then KeysOf(t[IndexOf(t, path)], response) else []
  }

  /** The name under which release `k` is merged at a path. */
  ghost function Label(releases: seq<Tree>, merges: seq<Tree>, moves: seq<Moves>, k: nat, path: string, response: bool): string
    requires k < |releases| == |merges| == |moves|
  {
    var i := MemberAt(releases, merges, moves, k, path);
    if i < 0 then "" else if response then releases[k][i].path + "#response" else releases[k][i].path
  }

  lemma {:induction false} MergeNothing(keys: seq<Key>, name: string)
    ensures Merge(keys, [], name) == Ok(keys)
  {
    AddedAll(keys);
    assert [] + keys == keys;
  }

  lemma {:induction false} HeldIs(t: Tree, s: Schema, response: bool)
    requires UniquePaths(t) && s in t
    ensures HasPath(t, s.path) && t[IndexOf(t, s.path)] == s && Held(t, s.path, response) == KeysOf(s, response)
  {
    var i :| 0 <= i < |t| && t[i] == s;
    IndexAt(t, i);
  }

  /** The older schema `j` is merged into what the merge had at its home, or brought in. */
  lemma {:induction false} MemberStep(current: Tree, previous: Tree, moves: Moves, out: Tree, j: nat, response: bool)
    requires UniquePaths(current) && UniquePaths(previous) && DistinctTree(previous) && MergesTo(current, previous, moves, out) && j < |previous|
    ensures var path := Latest(current, moves, previous[j]).path;
      var name := if response then previous[j].path + "#response" else previous[j].path;
      && HasPath(out, path) && out[IndexOf(out, path)] == MergedForm(current, moves, previous[j])
      && Merge(Held(current, path, response), KeysOf(previous[j], response), name) == Ok(Held(out, path, response))
  {
    var older, latest := previous[j], Latest(current, moves, previous[j]);
    var form := MergedForm(current, moves, older);
    assert IsMerged(current, previous, moves, |previous|, form);
    SortedUnique(out);
    HeldIs(out, form, response);
    if HasPath(current, latest.path) {
      LatestIsCurrent(current, moves, older, IndexOf(current, latest.path));
      HeldIs(current, latest, response);
    } else {
      BroughtIn(older);
      OnlyOlder(KeysOf(older, response), if response then older.path + "#response" else older.path);
    }
  }

  lemma {:induction false} BroughtIn(s: Schema)
    requires Distinct(s.payload) && Distinct(s.response)
    ensures MergeSchema(s, s) == Ok(s)
  {
    MergeSelf(s.payload, s.path);
    MergeSelf(s.response, s.path + "#response");
  }

  /** Where no older schema ends up, the merge has what it had. */
  lemma {:induction false} NoMemberStep(current: Tree, previous: Tree, moves: Moves, out: Tree, path: string)
    requires UniquePaths(current) && UniquePaths(previous) && MergesTo(current, previous, moves, out)
    requires forall j :: 0 <= j < |previous| ==> Latest(current, moves, previous[j]).path != path
    ensures HasPath(out, path) <==> HasPath(current, path)
    ensures HasPath(out, path) ==> out[IndexOf(out, path)] == current[IndexOf(current, path)]
  {
    SortedUnique(out);
    if HasPath(current, path) {
      var s := current[IndexOf(current, path)];
      assert Untouched(current, previous, moves, |previous|, s);
      HeldIs(out, s, false);
    }
    if HasPath(out, path) {
      var s := out[IndexOf(out, path)];
      assert s in out;
      assert !IsMerged(current, previous, moves, |previous|, s);
      assert s in current;
      HeldIs(current, s, false);
    }
  }

  /** One more release, at one path. */
  lemma {:induction false} FoldStep(releases: seq<Tree>, merges: seq<Tree>, moves: seq<Moves>, k: nat, path: string, response: bool)
    requires TreeFold(releases, merges, moves) && WellFormed(releases) && 0 < k < |releases|
    ensures Merge(Held(merges[k - 1], path, response), Given(releases, merges, moves, k, path, response),
                  Label(releases, merges, moves, k, path, response)) == Ok(Held(merges[k], path, response))
    ensures HasPath(merges[k], path) <==> HasPath(merges[k - 1], path) || MemberAt(releases, merges, moves, k, path) >= 0
  {
    UniqueMerge(releases, merges, moves, k - 1);
    var i := MemberAt(releases, merges, moves, k, path);
    if i >= 0 {
      MemberStep(merges[k - 1], releases[k], moves[k], merges[k], i, response);
    } else {
      forall j | 0 <= j < |releases[k]| ensures Latest(merges[k - 1], moves[k], releases[k][j]).path != path {
        assert !LivesAt(releases, merges, moves, k, j, path);
      }
      NoMemberStep(merges[k - 1], releases[k], moves[k], merges[k], path);
      MergeNothing(Held(merges[k - 1], path, response), "");
    }
  }

  lemma {:induction false} FoldStart(releases: seq<Tree>, merges: seq<Tree>, moves: seq<Moves>, path: string, response: bool)
    requires TreeFold(releases, merges, moves) && WellFormed(releases)
    ensures Held(merges[0], path, response) == Given(releases, merges, moves, 0, path, response)
    ensures HasPath(merges[0], path) <==> MemberAt(releases, merges, moves, 0, path) >= 0
  {
    if HasPath(merges[0], path) {
      assert LivesAt(releases, merges, moves, 0, IndexOf(merges[0], path), path);
    }
    var i := MemberAt(releases, merges, moves, 0, path);
    if i >= 0 { IndexAt(merges[0], i); }
  }

  // ----- No schema is lost or invented -----

  /** The merge has a path exactly when some release has a schema that ends up there. */
  lemma {:induction false} SchemasKept(releases: seq<Tree>, merges: seq<Tree>, moves: seq<Moves>, n: nat, path: string)
    requires TreeFold(releases, merges, moves) && WellFormed(releases) && n < |releases|
    ensures HasPath(merges[n], path) <==> exists k :: 0 <= k <= n && MemberAt(releases, merges, moves, k, path) >= 0
  {
    if n == 0 {
      FoldStart(releases, merges, moves, path, false);
    } else {
      SchemasKept(releases, merges, moves, n - 1, path);
      FoldStep(releases, merges, moves, n, path, false);
    }
  }

  /** A schema without its keys. */
  function Header(s: Schema): Schema {
    s.(payload := [], response := [])
  }

  /** Everything but the keys is what the newest release that has the schema says, its path included. */
  lemma {:induction false} NewestHeader(releases: seq<Tree>, merges: seq<Tree>, moves: seq<Moves>, n: nat, path: string, k: nat)
    requires TreeFold(releases, merges, moves) && WellFormed(releases) && k <= n < |releases|
    requires MemberAt(releases, merges, moves, k, path) >= 0
    requires forall j :: 0 <= j < k ==> MemberAt(releases, merges, moves, j, path) < 0
    ensures HasPath(merges[n], path)
    ensures Header(merges[n][IndexOf(merges[n], path)]) == Header(releases[k][MemberAt(releases, merges, moves, k, path)])
  {
    if k < n {
      NewestHeader(releases, merges, moves, n - 1, path, k);
      HeaderStays(releases, merges, moves, n, path);
    } else {
      NotYet(releases, merges, moves, k, path);
      HeaderArrives(releases, merges, moves, k, path);
    }
  }

  lemma {:induction false} NotYet(releases: seq<Tree>, merges: seq<Tree>, moves: seq<Moves>, k: nat, path: string)
    requires TreeFold(releases, merges, moves) && WellFormed(releases) && k < |releases|
    requires forall j :: 0 <= j < k ==> MemberAt(releases, merges, moves, j, path) < 0
    ensures k > 0 ==> !HasPath(merges[k - 1], path)
  {
    if k > 0 { SchemasKept(releases, merges, moves, k - 1, path); }
  }

  lemma {:induction false} HeaderArrives(releases: seq<Tree>, merges: seq<Tree>, moves: seq<Moves>, k: nat, path: string)
    requires TreeFold(releases, merges, moves) && WellFormed(releases) && k < |releases|
    requires MemberAt(releases, merges, moves, k, path) >= 0 && (k > 0 ==> !HasPath(merges[k - 1], path))
    ensures HasPath(merges[k], path)
    ensures Header(merges[k][IndexOf(merges[k], path)]) == Header(releases[k][MemberAt(releases, merges, moves, k, path)])
  {
    var i := MemberAt(releases, merges, moves, k, path);
    if k == 0 {
      IndexAt(releases[0], i);
    } else {
      UniqueMerge(releases, merges, moves, k - 1);
      MemberStep(merges[k - 1], releases[k], moves[k], merges[k], i, false);
    }
  }

  lemma {:induction false} HeaderStays(releases: seq<Tree>, merges: seq<Tree>, moves: seq<Moves>, n: nat, path: string)
    requires TreeFold(releases, merges, moves) && WellFormed(releases) && 0 < n < |releases| && HasPath(merges[n - 1], path)
    ensures HasPath(merges[n], path)
    ensures Header(merges[n][IndexOf(merges[n], path)]) == Header(merges[n - 1][IndexOf(merges[n - 1], path)])
  {
    UniqueMerge(releases, merges, moves, n - 1);
    var i := MemberAt(releases, merges, moves, n, path);
    if i >= 0 {
      MemberStep(merges[n - 1], releases[n], moves[n], merges[n], i, false);
      LatestIsCurrent(merges[n - 1], moves[n], releases[n][i], IndexOf(merges[n - 1], path));
    } else {
      forall j | 0 <= j < |releases[n]| ensures Latest(merges[n - 1], moves[n], releases[n][j]).path != path {
        assert !LivesAt(releases, merges, moves, n, j, path);
      }
      NoMemberStep(merges[n - 1], releases[n], moves[n], merges[n], path);
    }
  }

  // ----- Every key path has its newest entry -----

  ghost function Givens(releases: seq<Tree>, merges: seq<Tree>, moves: seq<Moves>, path: string, response: bool): (r: seq<seq<Key>>)
    requires |releases| == |merges| == |moves|
    ensures |r| == |releases| && forall k :: 0 <= k < |r| ==> r[k] == Given(releases, merges, moves, k, path, response)
  {
    seq(|releases|, k requires 0 <= k < |releases| => Given(releases, merges, moves, k, path, response))
  }

  function Helds(merges: seq<Tree>, path: string, response: bool): (r: seq<seq<Key>>)
    ensures |r| == |merges| && forall k :: 0 <= k < |r| ==> r[k] == Held(merges[k], path, response)
  {
    seq(|merges|, k requires 0 <= k < |merges| => Held(merges[k], path, response))
  }

  ghost function Labels(releases: seq<Tree>, merges: seq<Tree>, moves: seq<Moves>, path: string, response: bool): (r: seq<string>)
    requires |releases| == |merges| == |moves|
    ensures |r| == |releases| && forall k :: 0 <= k < |r| ==> r[k] == Label(releases, merges, moves, k, path, response)
  {
    seq(|releases|, k requires 0 <= k < |releases| => Label(releases, merges, moves, k, path, response))
  }

  lemma {:induction false} FoldsAt(releases: seq<Tree>, merges: seq<Tree>, moves: seq<Moves>, path: string, response: bool)
    requires TreeFold(releases, merges, moves) && WellFormed(releases)
    ensures FoldsTo(Givens(releases, merges, moves, path, response), Helds(merges, path, response), Labels(releases, merges, moves, path, response))
    ensures ListsDistinct(Givens(releases, merges, moves, path, response))
  {
    FoldStart(releases, merges, moves, path, response);
    forall k | 0 < k < |releases|
      ensures Merge(Held(merges[k - 1], path, response), Given(releases, merges, moves, k, path, response),
                    Label(releases, merges, moves, k, path, response)) == Ok(Held(merges[k], path, response))
    {
      FoldStep(releases, merges, moves, k, path, response);
    }
    forall k | 0 <= k < |releases| ensures Distinct(Given(releases, merges, moves, k, path, response)) {
    }
  }

  /**
   * At every path, and for payload and response keys alike, each key path has the entry of the newest release whose
   * schema there documents it, and there is no other key path, exactly when no two of those schemas have one item and
   * several in the same array.
   */
  lemma {:induction false} TreeFoldIsNewest(releases: seq<Tree>, merges: seq<Tree>, moves: seq<Moves>, n: nat, path: string, response: bool)
    requires TreeFold(releases, merges, moves) && WellFormed(releases) && 0 < n <= |releases|
    ensures var given := Givens(releases, merges, moves, path, response);
      NewestAt(given, Helds(merges, path, response), n) <==> PairsAligned(given, n)
  {
    FoldsAt(releases, merges, moves, path, response);
    FoldIsNewest(Givens(releases, merges, moves, path, response), Helds(merges, path, response),
                 Labels(releases, merges, moves, path, response), n);
  }

  // ----- As the generator runs it -----

  ghost predicate EndsWith(releases: seq<Tree>, merges: seq<Tree>, moves: seq<Moves>, out: Tree) {
    TreeFold(releases, merges, moves) && out == merges[|releases| - 1]
  }

  /** `out` is the last merge of a fold. */
  ghost predicate FoldsTree(releases: seq<Tree>, out: Tree) {
    exists merges, moves :: EndsWith(releases, merges, moves, out)
  }

  /** The releases before `n` fold, and release `n` cannot be merged into the result. */
  ghost predicate FailsAt(releases: seq<Tree>, n: nat, tree: Tree) {
    0 < n < |releases| && FoldsTree(releases[..n], tree) && Refused(tree, releases[n])
  }

  /** Merges the releases into the first one, and fails at one that cannot be merged. */
  method FoldHistory(releases: seq<Tree>) returns (out: Result<Tree>)
    requires |releases| > 0 && WellFormed(releases)
    ensures out.Ok? ==> FoldsTree(releases, out.value)
    ensures out.Err? ==> exists n, tree :: FailsAt(releases, n, tree)
  {
    var tree := releases[0];
    ghost var merges, moves := [tree], [map[]];
    for n := 1 to |releases|
      invariant |merges| == |moves| == n && EndsWith(releases[..n], merges, moves, tree)
    {
      assert WellFormed(releases[..n]);
      UniqueMerge(releases[..n], merges, moves, n - 1);
      var next, found := MergeHistory(tree, releases[n]);
      if next.Err? {
        ghost var j :| 0 <= j < |releases[n]| && MergeSchema(Latest(tree, found, releases[n][j]), releases[n][j]).Err?;
        assert RefusedAt(tree, releases[n], found, j);
        assert FailsAt(releases, n, tree);
        return Err(next.error);
      }
      Longer(releases, merges, moves, n, next.value, found);
      tree := next.value;
      merges, moves := merges + [tree], moves + [found];
    }
    assert releases[..|releases|] == releases;
    assert EndsWith(releases, merges, moves, tree);
    return Ok(tree);
  }

  /** An older schema cannot be merged into its newest form. */
  ghost predicate RefusedAt(current: Tree, previous: Tree, moves: Moves, j: int) {
    AreMoves(current, previous, moves) && 0 <= j < |previous| && MergeSchema(Latest(current, moves, previous[j]), previous[j]).Err?
  }

  ghost predicate Refused(current: Tree, previous: Tree) {
    exists moves, j :: RefusedAt(current, previous, moves, j)
  }

  lemma {:induction false} Longer(releases: seq<Tree>, merges: seq<Tree>, moves: seq<Moves>, n: nat, next: Tree, found: Moves)
    requires 0 < n < |releases| && |merges| == |moves| == n && TreeFold(releases[..n], merges, moves)
    requires MergesTo(merges[n - 1], releases[n], found, next)
    ensures TreeFold(releases[..n + 1], merges + [next], moves + [found])
  {
    var more, after, through := releases[..n + 1], merges + [next], moves + [found];
    forall k | 0 < k < |more| ensures MergesTo(after[k - 1], more[k], through[k], after[k]) {
      if k < n {
        assert MergesTo(merges[k - 1], releases[..n][k], moves[k], merges[k]);
      }
    }
  }
}
