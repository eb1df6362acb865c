/** Folding the keys of one schema over releases, newest first. */
module SchemaReleases {
  import opened Basics
  import opened SchemaHistory
  import opened SchemaMerging
  import opened SchemaPaths

  // ----- Alignment with a merge -----

  /** The two numbers of array items are not one and several. */
  predicate SameArity(a: seq<Key>, b: seq<Key>, inArray: bool) {
    inArray ==> !(|a| == 1 && |b| > 1) && !(|a| > 1 && |b| == 1)
  }

  lemma {:induction false} MergeArity(current: seq<Key>, previous: seq<Key>, third: seq<Key>, inArray: bool, name: string)
    requires Distinct(current) && Distinct(previous) && MergeLevel(current, previous, inArray, name).Ok?
    requires SameArity(current, previous, inArray)
    ensures var m := MergeLevel(current, previous, inArray, name).value;
      SameArity(m, third, inArray) <==> SameArity(current, third, inArray) && SameArity(previous, third, inArray)
  {
    MergedArity(current, previous, inArray, name);
  }

  /** `k`, found in a merge, is the key of the one release that has it, or the merge of the keys of both. */
  predicate From(current: seq<Key>, previous: seq<Key>, c: int, p: int, k: Key, name: string)
    requires -1 <= c < |current| && -1 <= p < |previous|
  {
    if c >= 0 && p >= 0 then
      && k.kind == current[c].kind == previous[p].kind
      && MergeLevel(current[c].subkeys, previous[p].subkeys, k.kind == ARRAY, name + "." + current[c].name) == Ok(k.subkeys)
      && Distinct(current[c].subkeys) && Distinct(previous[p].subkeys) && Aligned(current[c].subkeys, previous[p].subkeys, k.kind == ARRAY)
    else if c >= 0 then k.kind == current[c].kind && k.subkeys == current[c].subkeys
    else p >= 0 && k.kind == previous[p].kind && k.subkeys == previous[p].subkeys
  }

  /** What a merge has at a key of a third release. */
  lemma {:induction false} MergeAt(current: seq<Key>, previous: seq<Key>, third: seq<Key>, inArray: bool, name: string, j: nat)
    requires Distinct(current) && Distinct(previous) && j < |third|
    requires MergeLevel(current, previous, inArray, name).Ok? && Aligned(current, previous, inArray)
    requires SameArity(current, third, inArray) && SameArity(previous, third, inArray)
    ensures var m := MergeLevel(current, previous, inArray, name).value;
      var c, p, k := Partner(current, third, inArray, j), Partner(previous, third, inArray, j), Partner(m, third, inArray, j);
      (k >= 0 <==> c >= 0 || p >= 0) && (k >= 0 ==> From(current, previous, c, p, m[k], name))
  {
    MergedArity(current, previous, inArray, name);
    if current != [] && previous != [] {
      if inArray && |current| == 1 {
        CommonChild(current, previous, true, name, 0);
        ChildAligned(current, previous, true, 0);
      } else {
        NameAt(current, previous, inArray, name, third[j].name);
      }
    }
  }

  lemma {:induction false} NameAt(current: seq<Key>, previous: seq<Key>, inArray: bool, name: string, step: string)
    requires Distinct(current) && Distinct(previous) && Aligned(current, previous, inArray)
    requires Merge(current, previous, name).Ok? && !(inArray && |current| == 1 && |previous| == 1)
    ensures var m := Merge(current, previous, name).value;
      var c, p, k := Lookup(current, step), Lookup(previous, step), Lookup(m, step);
      (k >= 0 <==> c >= 0 || p >= 0) && (k >= 0 ==> From(current, previous, c, p, m[k], name))
  {
    if Named(previous, step) {
      var i := Lookup(previous, step);
      MergedOlder(current, previous, name, i);
      if Named(current, step) {
        MergedKey(current[Lookup(current, step)], previous[i], name);
        ChildAligned(current, previous, inArray, i);
      } else {
        SelfKey(previous[i], name);
      }
    } else {
      MergedNewer(current, previous, name, step);
    }
  }

  /** A release is aligned with the merge of two aligned ones exactly when it is aligned with both. */
  lemma {:induction false} AlignedMerge(current: seq<Key>, previous: seq<Key>, third: seq<Key>, inArray: bool, name: string)
    requires Distinct(current) && Distinct(previous)
    requires MergeLevel(current, previous, inArray, name).Ok? && Aligned(current, previous, inArray)
    ensures Aligned(MergeLevel(current, previous, inArray, name).value, third, inArray)
      <==> Aligned(current, third, inArray) && Aligned(previous, third, inArray)
    decreases Size(third), 1
  {
    var m := MergeLevel(current, previous, inArray, name).value;
    MergeArity(current, previous, third, inArray, name);
    if SameArity(m, third, inArray) {
      forall j | 0 <= j < |third|
        ensures AlignedAt(m, third, inArray, j) <==> AlignedAt(current, third, inArray, j) && AlignedAt(previous, third, inArray, j)
      {
        AlignedMergeAt(current, previous, third, inArray, name, j);
      }
      AlignedIs(m, third, inArray);
      AlignedIs(current, third, inArray);
      AlignedIs(previous, third, inArray);
    }
  }

  predicate AlignedAt(keys: seq<Key>, third: seq<Key>, inArray: bool, j: nat)
    requires j < |third|
  {
    var i := Partner(keys, third, inArray, j);
    i >= 0 ==> Aligned(keys[i].subkeys, third[j].subkeys, keys[i].kind == ARRAY)
  }

  lemma {:induction false} AlignedIs(keys: seq<Key>, third: seq<Key>, inArray: bool)
    ensures Aligned(keys, third, inArray)
      <==> SameArity(keys, third, inArray) && forall j :: 0 <= j < |third| ==> AlignedAt(keys, third, inArray, j)
  {
    if SameArity(keys, third, inArray) && forall j :: 0 <= j < |third| ==> AlignedAt(keys, third, inArray, j) {
      forall j | 0 <= j < |third| && Partner(keys, third, inArray, j) >= 0
        ensures var c := keys[Partner(keys, third, inArray, j)]; Aligned(c.subkeys, third[j].subkeys, c.kind == ARRAY)
      {
        assert AlignedAt(keys, third, inArray, j);
      }
    }
  }

  lemma {:induction false} AlignedMergeAt(current: seq<Key>, previous: seq<Key>, third: seq<Key>, inArray: bool, name: string, j: nat)
    requires Distinct(current) && Distinct(previous) && j < |third|
    requires MergeLevel(current, previous, inArray, name).Ok? && Aligned(current, previous, inArray)
    requires SameArity(current, third, inArray) && SameArity(previous, third, inArray)
    ensures AlignedAt(MergeLevel(current, previous, inArray, name).value, third, inArray, j)
      <==> AlignedAt(current, third, inArray, j) && AlignedAt(previous, third, inArray, j)
    decreases Size(third), 0
  {
    var c, p := Partner(current, third, inArray, j), Partner(previous, third, inArray, j);
    MergeAt(current, previous, third, inArray, name, j);
    SizeAt(third, j);
    if c >= 0 && p >= 0 {
      var a, b := current[c], previous[p];
      AlignedMerge(a.subkeys, b.subkeys, third[j].subkeys, a.kind == ARRAY, name + "." + a.name);
    }
  }

  // ----- Folding -----

  /** Each list is merged, under its own name, into what came before it. */
  ghost predicate FoldsTo(lists: seq<seq<Key>>, merges: seq<seq<Key>>, names: seq<string>) {
    && |lists| == |merges| == |names| > 0 && merges[0] == lists[0]
    && forall k :: 0 < k < |lists| ==> Merge(merges[k - 1], lists[k], names[k]) == Ok(merges[k])
  }

  ghost predicate ListsDistinct(lists: seq<seq<Key>>) {
    forall i :: 0 <= i < |lists| ==> Distinct(lists[i])
  }

  /** Any two of the first `n` releases are aligned. */
  ghost predicate PairsAligned(lists: seq<seq<Key>>, n: nat)
    requires n <= |lists|
  {
    forall i, j :: 0 <= i < j < n ==> Aligned(lists[i], lists[j], false)
  }

  lemma {:induction false} FoldDistinct(lists: seq<seq<Key>>, merges: seq<seq<Key>>, names: seq<string>, n: nat)
    requires FoldsTo(lists, merges, names) && ListsDistinct(lists) && n < |lists|
    ensures Distinct(merges[n])
  {
    if n > 0 {
      FoldDistinct(lists, merges, names, n - 1);
      MergedDistinct(merges[n - 1], lists[n], names[n]);
    }
  }

  /** A list is aligned with the merge of pairwise aligned releases exactly when it is aligned with each of them. */
  lemma {:induction false} FoldAligned(lists: seq<seq<Key>>, merges: seq<seq<Key>>, names: seq<string>, n: nat, third: seq<Key>)
    requires FoldsTo(lists, merges, names) && ListsDistinct(lists) && n < |lists| && PairsAligned(lists, n + 1)
    ensures Aligned(merges[n], third, false) <==> forall i :: 0 <= i <= n ==> Aligned(lists[i], third, false)
  {
    if n > 0 {
      FoldAligned(lists, merges, names, n - 1, third);
      FoldAligned(lists, merges, names, n - 1, lists[n]);
      FoldDistinct(lists, merges, names, n - 1);
      AlignedMerge(merges[n - 1], lists[n], third, false, names[n]);
    }
  }

  /** Each path has the entry of the newest release that has it, and there is no other path. */
  ghost predicate NewestAt(lists: seq<seq<Key>>, merges: seq<seq<Key>>, n: nat)
    requires n <= |lists| == |merges| && n > 0
  {
    forall path: seq<Step> :: path != [] ==> Find(merges[n - 1], false, path) == Newest(lists, n, path)
  }

  lemma {:induction false} NewestStep(lists: seq<seq<Key>>, merges: seq<seq<Key>>, names: seq<string>, n: nat)
    requires FoldsTo(lists, merges, names) && ListsDistinct(lists) && 0 < n < |lists| && NewestAt(lists, merges, n)
    ensures NewestAt(lists, merges, n + 1) <==> Aligned(merges[n - 1], lists[n], false)
  {
    FoldDistinct(lists, merges, names, n - 1);
    PathsKeptExactly(merges[n - 1], lists[n], names[n]);
    forall path: seq<Step> | path != []
      ensures Newest(lists, n + 1, path) == Overlay(Find(merges[n - 1], false, path), Find(lists[n], false, path))
    {
      assert Find(merges[n - 1], false, path) == Newest(lists, n, path);
    }
    if NewestAt(lists, merges, n + 1) {
      forall path: seq<Step> | path != []
        ensures Find(merges[n], false, path) == Overlay(Find(merges[n - 1], false, path), Find(lists[n], false, path))
      {
        assert Find(merges[n], false, path) == Newest(lists, n + 1, path);
      }
      assert PathsKept(merges[n - 1], lists[n], merges[n], false);
    }
  }

  lemma {:induction false} AlignedNewest(lists: seq<seq<Key>>, merges: seq<seq<Key>>, names: seq<string>, n: nat)
    requires FoldsTo(lists, merges, names) && ListsDistinct(lists) && 0 < n <= |lists| && PairsAligned(lists, n)
    ensures NewestAt(lists, merges, n)
  {
    if n == 1 {
      assert forall path: seq<Step> :: path != [] ==> Newest(lists, 0, path) == None;
    } else {
      AlignedNewest(lists, merges, names, n - 1);
      FoldAligned(lists, merges, names, n - 2, lists[n - 1]);
      NewestStep(lists, merges, names, n - 1);
    }
  }

  /** The first merge that is not aligned blocks a path that some release has. */
  lemma {:induction false} LostHere(lists: seq<seq<Key>>, merges: seq<seq<Key>>, names: seq<string>, k: nat) returns (path: seq<Step>)
    requires FoldsTo(lists, merges, names) && ListsDistinct(lists) && 0 < k < |lists|
    requires NewestAt(lists, merges, k) && !Aligned(merges[k - 1], lists[k], false)
    ensures path != [] && Newest(lists, k + 1, path).Some? && Blocked(merges[k], false, path)
  {
    FoldDistinct(lists, merges, names, k - 1);
    path := MisalignedLoses(merges[k - 1], lists[k], false, names[k]);
    assert Find(merges[k - 1], false, path) == Newest(lists, k, path);
  }

  lemma {:induction false} StaysLost(lists: seq<seq<Key>>, merges: seq<seq<Key>>, names: seq<string>, k: nat, path: seq<Step>)
    requires FoldsTo(lists, merges, names) && ListsDistinct(lists) && 0 < k < |lists| && path != []
    requires Newest(lists, k, path).Some? && Blocked(merges[k - 1], false, path)
    ensures Newest(lists, k + 1, path).Some? && Blocked(merges[k], false, path)
  {
    FoldDistinct(lists, merges, names, k - 1);
    BlockedStays(merges[k - 1], lists[k], false, names[k], path);
  }

  /** Two releases that are not aligned cost a path for good. */
  lemma {:induction false} LostForGood(lists: seq<seq<Key>>, merges: seq<seq<Key>>, names: seq<string>, n: nat) returns (path: seq<Step>)
    requires FoldsTo(lists, merges, names) && ListsDistinct(lists) && 0 < n <= |lists| && !PairsAligned(lists, n)
    ensures path != [] && Newest(lists, n, path).Some? && Blocked(merges[n - 1], false, path)
  {
    if PairsAligned(lists, n - 1) {
      AlignedNewest(lists, merges, names, n - 1);
      FoldAligned(lists, merges, names, n - 2, lists[n - 1]);
      path := LostHere(lists, merges, names, n - 1);
    } else {
      path := LostForGood(lists, merges, names, n - 1);
      StaysLost(lists, merges, names, n - 1, path);
    }
  }

  /**
   * The fold gives each path the entry of the newest release that has it, and no other path, exactly when no two
   * releases have one item and several in the same array.
   */
  lemma {:induction false} FoldIsNewest(lists: seq<seq<Key>>, merges: seq<seq<Key>>, names: seq<string>, n: nat)
    requires FoldsTo(lists, merges, names) && ListsDistinct(lists) && 0 < n <= |lists|
    ensures NewestAt(lists, merges, n) <==> PairsAligned(lists, n)
  {
    if PairsAligned(lists, n) {
      AlignedNewest(lists, merges, names, n);
    } else {
      var path := LostForGood(lists, merges, names, n);
      BlockedFindsNone(merges[n - 1], false, path);
    }
  }
}
