/** What a merge does to each key path: the newer release's entry if it has one, the older one's otherwise. */
module SchemaPaths {
  import opened Basics
  import Names
  import opened SchemaHistory
  import opened SchemaMerging

  /** The single item of an array has no name of its own on the wire. */
  datatype Step = Item | Sub(name: string)

  /** What a release says about one key. */
  datatype Fact = Fact(name: string, kind: string, required: bool, detail: string)

  function FactOf(k: Key): Fact {
    Fact(k.name, k.kind, k.required, k.detail)
  }

  function Child(keys: seq<Key>, inArray: bool, step: Step): (i: int)
    ensures -1 <= i < |keys|
  {
    if inArray && |keys| == 1 then (if step.Item? then 0 else -1)
    else if step.Sub? then Lookup(keys, step.name)
    else -1
  }

  function Find(keys: seq<Key>, inArray: bool, path: seq<Step>): Option<Fact>
    requires path != []
    decreases |path|
  {
    var i := Child(keys, inArray, path[0]);
    if i < 0 then None
    else if |path| == 1 then Some(FactOf(keys[i]))
    else Find(keys[i].subkeys, keys[i].kind == ARRAY, path[1..])
  }

  function Overlay(a: Option<Fact>, b: Option<Fact>): Option<Fact> {
    if a.Some? then a else b
  }

  /** The older siblings, with a single array item renamed. */
  function Relabel(current: seq<Key>, previous: seq<Key>, inArray: bool): (r: seq<Key>)
    ensures |r| == |previous|
  {
    if inArray && |current| == 1 && |previous| == 1 then [previous[0].(name := current[0].name)] else previous
  }

  function MergeLevel(current: seq<Key>, previous: seq<Key>, inArray: bool, path: string): Result<seq<Key>> {
    Merge(current, Relabel(current, previous, inArray), path)
  }

  /** The current key that `previous[j]` is merged with, or -1. */
  function Partner(current: seq<Key>, previous: seq<Key>, inArray: bool, j: nat): (i: int)
    requires j < |previous|
    ensures -1 <= i < |current|
  {
    if inArray && |current| == 1 && |previous| == 1 then 0 else Lookup(current, previous[j].name)
  }

  /** No array has exactly one item in one release and several in the other. */
  predicate Aligned(current: seq<Key>, previous: seq<Key>, inArray: bool)
    decreases Size(previous)
  {
    && (inArray ==> !(|current| == 1 && |previous| > 1) && !(|current| > 1 && |previous| == 1))
    && forall j :: 0 <= j < |previous| && Partner(current, previous, inArray, j) >= 0 ==>
         (SizeAt(previous, j);
          var c := current[Partner(current, previous, inArray, j)]; Aligned(c.subkeys, previous[j].subkeys, c.kind == ARRAY))
  }

  // ----- What stands at each name of a merged level -----

  lemma {:induction false} PriorIsRelabel(key: Key, prev: Key)
    ensures Prior(key, prev) == Relabel(key.subkeys, prev.subkeys, key.kind == ARRAY)
  {
  }

  /** A merged key says what the chosen key says, and its subkeys are the merged subkeys. */
  lemma {:induction false} MergedKey(key: Key, prev: Key, path: string)
    requires MergeKey(key, prev, path).Ok?
    ensures var k := MergeKey(key, prev, path).value;
      && FactOf(k) == FactOf(key) && key.kind == prev.kind
      && MergeLevel(key.subkeys, prev.subkeys, key.kind == ARRAY, path + "." + key.name) == Ok(k.subkeys)
  {
    PriorIsRelabel(key, prev);
  }

  lemma {:induction false} AddedAt(current: seq<Key>, previous: seq<Key>, i: nat)
    requires i < |current| && !Named(previous, current[i].name)
    ensures current[i] in Added(current, previous)
  {
    if i < |current| - 1 { AddedAt(current[..|current| - 1], previous, i); }
  }

  /** A name of the older release keeps its place. */
  lemma {:induction false} MergedOlder(current: seq<Key>, previous: seq<Key>, path: string, j: nat)
    requires NamesDiffer(current) && NamesDiffer(previous) && Merge(current, previous, path).Ok? && j < |previous|
    ensures var m := Merge(current, previous, path).value;
      && j < |m| && Lookup(m, previous[j].name) == j
      && MergeKey(Chosen(current, previous, j), previous[j], path) == Ok(m[j])
      && Chosen(current, previous, j) == if Named(current, previous[j].name) then current[Lookup(current, previous[j].name)] else previous[j]
  {
    MergedDiffer(current, previous, path);
    MergedName(current, previous, path, j);
    LookupOnly(Merge(current, previous, path).value, j);
    NotBefore(previous, j);
  }

  /** A name only the current release has is kept as it is; any other name is absent. */
  lemma {:induction false} MergedNewer(current: seq<Key>, previous: seq<Key>, path: string, name: string)
    requires NamesDiffer(current) && NamesDiffer(previous) && Merge(current, previous, path).Ok? && !Named(previous, name)
    ensures var m := Merge(current, previous, path).value;
      && (Named(m, name) <==> Named(current, name))
      && (Named(m, name) ==> m[Lookup(m, name)] == current[Lookup(current, name)])
  {
    var m := Merge(current, previous, path).value;
    MergedDiffer(current, previous, path);
    if Named(current, name) {
      var k := current[Lookup(current, name)];
      AddedAt(current, previous, Lookup(current, name));
      assert k in m;
      var i :| 0 <= i < |m| && m[i] == k;
      LookupOnly(m, i);
    } else if Named(m, name) {
      var i := Lookup(m, name);
      if i < |previous| {
        MergedName(current, previous, path, i);
      } else {
        AddedNew(current, previous, i - |previous|);
      }
    }
  }

  /** The item of an array stays single when both releases have a single one, and several stay several. */
  lemma {:induction false} MergedArity(current: seq<Key>, previous: seq<Key>, inArray: bool, path: string)
    requires Distinct(current) && Distinct(previous) && MergeLevel(current, previous, inArray, path).Ok?
    ensures var m := MergeLevel(current, previous, inArray, path).value;
      && (inArray && |current| == 1 && |previous| == 1 ==> |m| == 1)
      && |m| >= |previous| && |m| >= |current| && (previous == [] ==> m == current) && (current == [] ==> m == previous)
  {
    var prior := Relabel(current, previous, inArray);
    var m := MergeLevel(current, previous, inArray, path).value;
    AllCovered(current, prior, path, |current|);
    if inArray && |current| == 1 && |previous| == 1 {
      LookupOnly(prior, 0);
      NothingAdded(current, prior);
    }
    if previous == [] { AddedAll(current); }
    if current == [] { OnlyOlder(previous, path); }
  }

  lemma {:induction false} AddedAll(current: seq<Key>)
    ensures Added(current, []) == current
  {
    if current != [] { AddedAll(current[..|current| - 1]); }
  }

  lemma {:induction false} OnlyOlder(previous: seq<Key>, path: string)
    requires Distinct(previous)
    ensures Merge([], previous, path) == Ok(previous)
  {
    forall i | 0 <= i < |previous| ensures MergeKey(Chosen([], previous, i), previous[i], path) == Ok(previous[i]) {
      SelfKey(previous[i], path);
    }
    MergeOldIs([], previous, |previous|, path, previous);
    assert previous + [] == previous;
  }

  lemma {:induction false} AllCovered(current: seq<Key>, previous: seq<Key>, path: string, n: nat)
    requires NamesDiffer(current) && NamesDiffer(previous) && Merge(current, previous, path).Ok? && n <= |current|
    ensures |Merge(current, previous, path).value| >= n
  {
    var m := Merge(current, previous, path).value;
    var names := set i | 0 <= i < n :: current[i].name;
    var merged := set i | 0 <= i < |m| :: m[i].name;
    forall i | 0 <= i < n ensures current[i].name in merged {
      var name := current[i].name;
      LookupOnly(current, i);
      if Named(previous, name) {
        MergedOlder(current, previous, path, Lookup(previous, name));
      } else {
        MergedNewer(current, previous, path, name);
      }
      assert m[Lookup(m, name)].name == name;
    }
    CountNames(current, n);
    CountAtMost(m, |m|);
    Names.SubsetSize(names, merged);
  }

  lemma {:induction false} CountNames(keys: seq<Key>, n: nat)
    requires NamesDiffer(keys) && n <= |keys|
    ensures |set i | 0 <= i < n :: keys[i].name| == n
  {
    if n > 0 {
      CountNames(keys, n - 1);
      var front := set i | 0 <= i < n - 1 :: keys[i].name;
      assert (set i | 0 <= i < n :: keys[i].name) == front + {keys[n - 1].name};
      assert keys[n - 1].name !in front;
    }
  }

  lemma {:induction false} CountAtMost(keys: seq<Key>, n: nat)
    requires n <= |keys|
    ensures |set i | 0 <= i < n :: keys[i].name| <= n
  {
    if n > 0 {
      CountAtMost(keys, n - 1);
      assert (set i | 0 <= i < n :: keys[i].name) == (set i | 0 <= i < n - 1 :: keys[i].name) + {keys[n - 1].name};
    }
  }

  // ----- Every path -----

  /** The step under which `previous[j]` and its partner are found. */
  function StepOf(current: seq<Key>, previous: seq<Key>, inArray: bool, j: nat): Step
    requires j < |previous|
  {
    if inArray && |current| == 1 && |previous| == 1 then Item else Sub(previous[j].name)
  }

  /** A key that both releases have is found under one step in both, and in the merge of the two. */
  lemma {:induction false} CommonChild(current: seq<Key>, previous: seq<Key>, inArray: bool, name: string, j: nat)
    requires Distinct(current) && Distinct(previous) && MergeLevel(current, previous, inArray, name).Ok?
    requires j < |previous| && Partner(current, previous, inArray, j) >= 0
    requires inArray ==> !(|current| == 1 && |previous| > 1) && !(|current| > 1 && |previous| == 1)
    ensures var c := current[Partner(current, previous, inArray, j)]; var m := MergeLevel(current, previous, inArray, name).value;
      var step := StepOf(current, previous, inArray, j);
      && Child(current, inArray, step) == Partner(current, previous, inArray, j) && Child(previous, inArray, step) == j
      && c.kind == previous[j].kind && Child(m, inArray, step) >= 0
      && FactOf(m[Child(m, inArray, step)]) == FactOf(c)
      && MergeLevel(c.subkeys, previous[j].subkeys, c.kind == ARRAY, name + "." + c.name) == Ok(m[Child(m, inArray, step)].subkeys)
  {
    MergedArity(current, previous, inArray, name);
    if inArray && |current| == 1 && |previous| == 1 {
      var prior := Relabel(current, previous, true);
      MergedOlder(current, prior, name, 0);
      LookupOnly(current, 0);
      MergedKey(current[0], prior[0], name);
    } else {
      LookupOnly(previous, j);
      MergedOlder(current, previous, name, j);
      MergedKey(current[Lookup(current, previous[j].name)], previous[j], name);
    }
  }

  /** On aligned releases the merge answers every path from the newer one if it can, else from the older one. */
  lemma {:induction false} Overlays(current: seq<Key>, previous: seq<Key>, inArray: bool, name: string, path: seq<Step>)
    requires path != [] && Distinct(current) && Distinct(previous) && Aligned(current, previous, inArray)
    requires MergeLevel(current, previous, inArray, name).Ok?
    ensures Find(MergeLevel(current, previous, inArray, name).value, inArray, path)
      == Overlay(Find(current, inArray, path), Find(previous, inArray, path))
    decreases |path|
  {
    MergedArity(current, previous, inArray, name);
    if current != [] && previous != [] {
      if inArray && |current| == 1 && |previous| == 1 {
        if path[0].Item? { BothOverlay(current, previous, inArray, name, 0, path); }
      } else if path[0].Sub? {
        if Named(previous, path[0].name) && Named(current, path[0].name) {
          BothOverlay(current, previous, inArray, name, Lookup(previous, path[0].name), path);
        } else {
          OneOverlays(current, previous, inArray, name, path);
        }
      }
    }
  }

  lemma {:induction false} BothOverlay(current: seq<Key>, previous: seq<Key>, inArray: bool, name: string, j: nat, path: seq<Step>)
    requires path != [] && Distinct(current) && Distinct(previous) && Aligned(current, previous, inArray)
    requires MergeLevel(current, previous, inArray, name).Ok?
    requires j < |previous| && Partner(current, previous, inArray, j) >= 0 && path[0] == StepOf(current, previous, inArray, j)
    ensures Find(MergeLevel(current, previous, inArray, name).value, inArray, path)
      == Overlay(Find(current, inArray, path), Find(previous, inArray, path))
    decreases |path|, 0
  {
    CommonChild(current, previous, inArray, name, j);
    if |path| > 1 {
      var c := current[Partner(current, previous, inArray, j)];
      ChildAligned(current, previous, inArray, j);
      Overlays(c.subkeys, previous[j].subkeys, c.kind == ARRAY, name + "." + c.name, path[1..]);
    }
  }

  /** A name that at most one release has. */
  lemma {:induction false} OneOverlays(current: seq<Key>, previous: seq<Key>, inArray: bool, name: string, path: seq<Step>)
    requires path != [] && path[0].Sub? && Distinct(current) && Distinct(previous) && Merge(current, previous, name).Ok?
    requires inArray ==> |current| > 1 && |previous| > 1 && |Merge(current, previous, name).value| > 1
    requires !Named(previous, path[0].name) || !Named(current, path[0].name)
    ensures Find(Merge(current, previous, name).value, inArray, path)
      == Overlay(Find(current, inArray, path), Find(previous, inArray, path))
  {
    if Named(previous, path[0].name) {
      var j := Lookup(previous, path[0].name);
      MergedOlder(current, previous, name, j);
      SelfKey(previous[j], name);
    } else {
      MergedNewer(current, previous, name, path[0].name);
    }
  }

  lemma {:induction false} ChildAligned(current: seq<Key>, previous: seq<Key>, inArray: bool, j: nat)
    requires Aligned(current, previous, inArray) && j < |previous| && Partner(current, previous, inArray, j) >= 0
    requires Distinct(current) && Distinct(previous)
    ensures var c := current[Partner(current, previous, inArray, j)];
      Aligned(c.subkeys, previous[j].subkeys, c.kind == ARRAY) && Distinct(c.subkeys) && Distinct(previous[j].subkeys)
  {
  }

  // ----- Exactly when the paths are kept -----

  /** Each path has the newer release's entry, or the older one's if the newer has none; no other path exists. */
  ghost predicate PathsKept(current: seq<Key>, previous: seq<Key>, merged: seq<Key>, inArray: bool) {
    forall path: seq<Step> :: path != [] ==> Find(merged, inArray, path) == Overlay(Find(current, inArray, path), Find(previous, inArray, path))
  }

  lemma {:induction false} FindNext(keys: seq<Key>, inArray: bool, step: Step, path: seq<Step>)
    requires path != [] && Child(keys, inArray, step) >= 0
    ensures var k := keys[Child(keys, inArray, step)]; Find(keys, inArray, [step] + path) == Find(k.subkeys, k.kind == ARRAY, path)
  {
    assert ([step] + path)[1..] == path;
  }

  /** The path asks for the single item of an array that has several. */
  predicate Blocked(keys: seq<Key>, inArray: bool, path: seq<Step>)
    decreases |path|
  {
    path != [] &&
    if path[0].Item? && inArray && |keys| > 1 then true
    else
      var i := Child(keys, inArray, path[0]);
      i >= 0 && |path| > 1 && Blocked(keys[i].subkeys, keys[i].kind == ARRAY, path[1..])
  }

  lemma {:induction false} BlockedFindsNone(keys: seq<Key>, inArray: bool, path: seq<Step>)
    requires Blocked(keys, inArray, path)
    ensures Find(keys, inArray, path) == None
    decreases |path|
  {
    if !(path[0].Item? && inArray && |keys| > 1) {
      var k := keys[Child(keys, inArray, path[0])];
      BlockedFindsNone(k.subkeys, k.kind == ARRAY, path[1..]);
    }
  }

  lemma {:induction false} BlockedNext(keys: seq<Key>, inArray: bool, step: Step, path: seq<Step>)
    requires Child(keys, inArray, step) >= 0
    requires var k := keys[Child(keys, inArray, step)]; Blocked(k.subkeys, k.kind == ARRAY, path)
    ensures Blocked(keys, inArray, [step] + path)
  {
    assert ([step] + path)[1..] == path;
  }

  /** A merge with an older release never unblocks a path. */
  lemma {:induction false} BlockedStays(current: seq<Key>, previous: seq<Key>, inArray: bool, name: string, path: seq<Step>)
    requires Distinct(current) && Distinct(previous) && MergeLevel(current, previous, inArray, name).Ok? && Blocked(current, inArray, path)
    ensures Blocked(MergeLevel(current, previous, inArray, name).value, inArray, path)
    decreases |path|, 1
  {
    MergedArity(current, previous, inArray, name);
    if !(path[0].Item? && inArray && |MergeLevel(current, previous, inArray, name).value| > 1) {
      if path[0].Item? {
        BlockedItem(current, previous, name, path);
      } else {
        BlockedName(current, previous, inArray, name, path);
      }
    }
  }

  lemma {:induction false} BlockedItem(current: seq<Key>, previous: seq<Key>, name: string, path: seq<Step>)
    requires Distinct(current) && Distinct(previous) && MergeLevel(current, previous, true, name).Ok? && Blocked(current, true, path)
    requires path[0].Item? && |MergeLevel(current, previous, true, name).value| == 1
    ensures Blocked(MergeLevel(current, previous, true, name).value, true, path)
    decreases |path|, 0
  {
    MergedArity(current, previous, true, name);
    if previous != [] {
      CommonChild(current, previous, true, name, 0);
      var c := current[0];
      BlockedStays(c.subkeys, previous[0].subkeys, c.kind == ARRAY, name + "." + c.name, path[1..]);
    }
  }

  lemma {:induction false} BlockedName(current: seq<Key>, previous: seq<Key>, inArray: bool, name: string, path: seq<Step>)
    requires Distinct(current) && Distinct(previous) && MergeLevel(current, previous, inArray, name).Ok? && Blocked(current, inArray, path)
    requires path[0].Sub?
    ensures Blocked(MergeLevel(current, previous, inArray, name).value, inArray, path)
    decreases |path|, 0
  {
    MergedArity(current, previous, inArray, name);
    var step := path[0].name;
    var c := current[Lookup(current, step)];
    if Named(previous, step) {
      var j := Lookup(previous, step);
      MergedOlder(current, previous, name, j);
      MergedKey(c, previous[j], name);
      BlockedStays(c.subkeys, previous[j].subkeys, c.kind == ARRAY, name + "." + c.name, path[1..]);
    } else {
      MergedNewer(current, previous, name, step);
    }
  }

  /** An array with one item in one release and several in the other loses the path of that item, and blocks it. */
  lemma {:induction false} MisalignedLoses(current: seq<Key>, previous: seq<Key>, inArray: bool, name: string) returns (path: seq<Step>)
    requires Distinct(current) && Distinct(previous) && !Aligned(current, previous, inArray)
    requires MergeLevel(current, previous, inArray, name).Ok?
    ensures Blocked(MergeLevel(current, previous, inArray, name).value, inArray, path)
    ensures Overlay(Find(current, inArray, path), Find(previous, inArray, path)).Some?
    decreases Size(previous)
  {
    MergedArity(current, previous, inArray, name);
    if inArray && ((|current| == 1 && |previous| > 1) || (|current| > 1 && |previous| == 1)) {
      path := [Item];
    } else {
      var j := MisalignedChild(current, previous, inArray);
      var c := current[Partner(current, previous, inArray, j)];
      SizeAt(previous, j);
      CommonChild(current, previous, inArray, name, j);
      var rest := MisalignedLoses(c.subkeys, previous[j].subkeys, c.kind == ARRAY, name + "." + c.name);
      var step := StepOf(current, previous, inArray, j);
      path := [step] + rest;
      FindNext(current, inArray, step, rest);
      FindNext(previous, inArray, step, rest);
      BlockedNext(MergeLevel(current, previous, inArray, name).value, inArray, step, rest);
    }
  }

  lemma {:induction false} MisalignedChild(current: seq<Key>, previous: seq<Key>, inArray: bool) returns (j: nat)
    requires !Aligned(current, previous, inArray) && Distinct(current) && Distinct(previous)
    requires inArray ==> !(|current| == 1 && |previous| > 1) && !(|current| > 1 && |previous| == 1)
    ensures j < |previous| && Partner(current, previous, inArray, j) >= 0
    ensures var c := current[Partner(current, previous, inArray, j)];
      !Aligned(c.subkeys, previous[j].subkeys, c.kind == ARRAY) && Distinct(c.subkeys) && Distinct(previous[j].subkeys)
  {
    j :| 0 <= j < |previous| && Partner(current, previous, inArray, j) >= 0
         && !Aligned(current[Partner(current, previous, inArray, j)].subkeys, previous[j].subkeys,
                     current[Partner(current, previous, inArray, j)].kind == ARRAY);
  }

  /**
   * Merging two releases with distinct sibling names keeps every path of both and adds none, exactly when no array has
   * one item in one release and several in the other.
   */
  lemma {:induction false} PathsKeptExactly(current: seq<Key>, previous: seq<Key>, name: string)
    requires Distinct(current) && Distinct(previous) && Merge(current, previous, name).Ok?
    ensures PathsKept(current, previous, Merge(current, previous, name).value, false) <==> Aligned(current, previous, false)
  {
    if Aligned(current, previous, false) {
      forall path: seq<Step> | path != []
        ensures Find(Merge(current, previous, name).value, false, path) == Overlay(Find(current, false, path), Find(previous, false, path))
      {
        Overlays(current, previous, false, name, path);
      }
    } else {
      var path := MisalignedLoses(current, previous, false, name);
      BlockedFindsNone(Merge(current, previous, name).value, false, path);
    }
  }

  // ----- Folding over releases, newest first -----

  lemma {:induction false} MergedDistinct(current: seq<Key>, previous: seq<Key>, path: string)
    requires Distinct(current) && Distinct(previous) && Merge(current, previous, path).Ok?
    ensures Distinct(Merge(current, previous, path).value)
    decreases Size(previous)
  {
    var m := Merge(current, previous, path).value;
    MergedDiffer(current, previous, path);
    forall i | 0 <= i < |m| ensures Distinct(m[i].subkeys) {
      if i < |previous| {
        MergedName(current, previous, path, i);
        SizeAt(previous, i);
        ChosenDistinct(current, previous, i);
        var key := Chosen(current, previous, i);
        PriorDistinct(key, previous[i]);
        MergedDistinct(key.subkeys, Prior(key, previous[i]), path + "." + key.name);
      } else {
        AddedNew(current, previous, i - |previous|);
        assert m[i] in current;
      }
    }
  }

  lemma {:induction false} PriorDistinct(key: Key, prev: Key)
    requires Distinct(prev.subkeys)
    ensures Distinct(Prior(key, prev))
  {
  }

  /** What the newest release that documents the path says about it. */
  function Newest(releases: seq<seq<Key>>, n: nat, path: seq<Step>): Option<Fact>
    requires n <= |releases| && path != []
  {
    if n == 0 then None
    else if Newest(releases, n - 1, path).Some? then Newest(releases, n - 1, path)
    else Find(releases[n - 1], false, path)
  }
}
