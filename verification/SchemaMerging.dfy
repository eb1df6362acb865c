/** Merging a release again, or with itself, changes nothing. */
module SchemaMerging {
  import opened SchemaHistory

  lemma {:induction false} MergeOldAt(current: seq<Key>, previous: seq<Key>, n: nat, path: string, i: nat)
    requires i < n <= |previous| && MergeOld(current, previous, n, path).Ok?
    ensures MergeKey(Chosen(current, previous, i), previous[i], path) == Ok(MergeOld(current, previous, n, path).value[i])
  {
    if i < n - 1 { MergeOldAt(current, previous, n - 1, path, i); }
  }

  lemma {:induction false} MergeOldIs(current: seq<Key>, previous: seq<Key>, n: nat, path: string, merged: seq<Key>)
    requires n <= |previous| && n == |merged|
    requires forall i :: 0 <= i < n ==> MergeKey(Chosen(current, previous, i), previous[i], path) == Ok(merged[i])
    ensures MergeOld(current, previous, n, path) == Ok(merged)
  {
    if n > 0 {
      MergeOldIs(current, previous, n - 1, path, merged[..n - 1]);
      assert merged == merged[..n - 1] + [merged[n - 1]];
    } else {
      assert merged == [];
    }
  }

  /** With distinct names, the key of a name is the only one. */
  lemma {:induction false} LookupOnly(keys: seq<Key>, i: nat)
    requires i < |keys| && NamesDiffer(keys)
    ensures Lookup(keys, keys[i].name) == i
  {
    assert forall j :: 0 <= j < |keys| && j != i ==> keys[j].name != keys[i].name;
  }

  lemma {:induction false} NotBefore(keys: seq<Key>, i: nat)
    requires i < |keys| && NamesDiffer(keys)
    ensures !Named(keys[..i], keys[i].name)
  {
    assert forall j :: 0 <= j < i ==> keys[..i][j].name != keys[i].name;
  }

  lemma {:induction false} NothingAdded(current: seq<Key>, previous: seq<Key>)
    requires forall i :: 0 <= i < |current| ==> Named(previous, current[i].name)
    ensures Added(current, previous) == []
  {
    if current != [] { NothingAdded(current[..|current| - 1], previous); }
  }

  lemma {:induction false} ChosenSelf(keys: seq<Key>, i: nat)
    requires i < |keys| && NamesDiffer(keys)
    ensures Chosen(keys, keys, i) == keys[i]
  {
    LookupOnly(keys, i);
  }

  /** Merging a release with itself gives that release. */
  lemma {:induction false} MergeSelf(keys: seq<Key>, path: string)
    requires Distinct(keys)
    ensures Merge(keys, keys, path) == Ok(keys)
    decreases Size(keys), 0
  {
    forall i | 0 <= i < |keys| ensures MergeKey(Chosen(keys, keys, i), keys[i], path) == Ok(keys[i]) {
      ChosenSelf(keys, i);
      SizeAt(keys, i);
      SelfKey(keys[i], path);
    }
    MergeOldIs(keys, keys, |keys|, path, keys);
    forall i | 0 <= i < |keys| ensures Named(keys, keys[i].name) { LookupOnly(keys, i); }
    NothingAdded(keys, keys);
    assert keys + [] == keys;
  }

  lemma {:induction false} SelfKey(k: Key, path: string)
    requires Distinct(k.subkeys)
    ensures MergeKey(k, k, path) == Ok(k)
    decreases Size(k.subkeys), 1
  {
    assert Prior(k, k) == k.subkeys;
    MergeSelf(k.subkeys, path + "." + k.name);
  }

  // ----- Merging the same older release twice -----

  lemma {:induction false} AddedConcat(a: seq<Key>, b: seq<Key>, previous: seq<Key>)
    ensures Added(a + b, previous) == Added(a, previous) + Added(b, previous)
  {
    if b == [] {
      assert a + b == a;
    } else {
      assert (a + b)[..|a + b| - 1] == a + b[..|b| - 1];
      AddedConcat(a, b[..|b| - 1], previous);
    }
  }

  lemma {:induction false} AddedTwice(current: seq<Key>, previous: seq<Key>)
    ensures Added(Added(current, previous), previous) == Added(current, previous)
    ensures forall k :: k in Added(current, previous) ==> k in current && !Named(previous, k.name)
  {
    if current != [] {
      var front, last := current[..|current| - 1], current[|current| - 1];
      AddedTwice(front, previous);
      AddedConcat(Added(front, previous), if Named(previous, last.name) then [] else [last], previous);
      assert [last][..0] == [];
    }
  }

  lemma {:induction false} ConcatDiffer(a: seq<Key>, b: seq<Key>)
    requires NamesDiffer(a) && NamesDiffer(b)
    requires forall i, j :: 0 <= i < |a| && 0 <= j < |b| ==> a[i].name != b[j].name
    ensures NamesDiffer(a + b)
  {
  }

  lemma {:induction false} AddedDiffer(current: seq<Key>, previous: seq<Key>)
    requires NamesDiffer(current)
    ensures NamesDiffer(Added(current, previous))
  {
    if current != [] {
      var front, last := current[..|current| - 1], current[|current| - 1];
      AddedDiffer(front, previous);
      AddedTwice(front, previous);
      var added := Added(front, previous);
      forall i | 0 <= i < |added| ensures added[i].name != last.name {
        assert added[i] in front;
      }
      ConcatDiffer(added, if Named(previous, last.name) then [] else [last]);
    }
  }

  /** A merged key keeps the older key's name, and its kind. */
  lemma {:induction false} MergedName(current: seq<Key>, previous: seq<Key>, path: string, i: nat)
    requires i < |previous| && Merge(current, previous, path).Ok?
    ensures var m := Merge(current, previous, path).value;
      |m| >= |previous| && m[i].name == previous[i].name && MergeKey(Chosen(current, previous, i), previous[i], path) == Ok(m[i])
  {
    MergeOldAt(current, previous, |previous|, path, i);
  }

  lemma {:induction false} MergedDiffer(current: seq<Key>, previous: seq<Key>, path: string)
    requires NamesDiffer(current) && NamesDiffer(previous) && Merge(current, previous, path).Ok?
    ensures NamesDiffer(Merge(current, previous, path).value)
  {
    var older, added := MergeOld(current, previous, |previous|, path).value, Added(current, previous);
    forall i | 0 <= i < |previous| ensures older[i].name == previous[i].name {
      MergeOldAt(current, previous, |previous|, path, i);
    }
    AddedDiffer(current, previous);
    forall i, j | 0 <= i < |older| && 0 <= j < |added| ensures older[i].name != added[j].name {
      LookupOnly(previous, i);
      AddedNew(current, previous, j);
    }
    ConcatDiffer(older, added);
  }

  lemma {:induction false} AddedNew(current: seq<Key>, previous: seq<Key>, j: nat)
    requires j < |Added(current, previous)|
    ensures Added(current, previous)[j] in current && !Named(previous, Added(current, previous)[j].name)
  {
    AddedTwice(current, previous);
    assert Added(current, previous)[j] in Added(current, previous);
  }

  /** Merging the same older release again leaves the merged keys exactly as they are. */
  lemma {:induction false} MergeAgain(current: seq<Key>, previous: seq<Key>, path: string)
    requires Distinct(current) && Distinct(previous) && Merge(current, previous, path).Ok?
    ensures Merge(Merge(current, previous, path).value, previous, path) == Merge(current, previous, path)
    decreases Size(previous), 0
  {
    var m := Merge(current, previous, path).value;
    var older := m[..|previous|];
    MergedDiffer(current, previous, path);
    forall i | 0 <= i < |previous| ensures MergeKey(Chosen(m, previous, i), previous[i], path) == Ok(older[i]) {
      MergedName(current, previous, path, i);
      ChosenMerged(m, previous, i);
      SizeAt(previous, i);
      ChosenDistinct(current, previous, i);
      KeyAgain(Chosen(current, previous, i), previous[i], path);
    }
    MergeOldIs(m, previous, |previous|, path, older);
    AddedAgain(current, previous, m);
  }

  lemma {:induction false} ChosenDistinct(current: seq<Key>, previous: seq<Key>, i: nat)
    requires Distinct(current) && Distinct(previous) && i < |previous|
    ensures Distinct(Chosen(current, previous, i).subkeys) && Distinct(previous[i].subkeys)
  {
  }

  lemma {:induction false} ChosenMerged(m: seq<Key>, previous: seq<Key>, i: nat)
    requires i < |previous| <= |m| && m[i].name == previous[i].name && NamesDiffer(m) && NamesDiffer(previous)
    ensures Chosen(m, previous, i) == m[i]
  {
    LookupOnly(m, i);
    NotBefore(previous, i);
  }

  lemma {:induction false} AddedAgain(current: seq<Key>, previous: seq<Key>, m: seq<Key>)
    requires |m| >= |previous| && m[|previous|..] == Added(current, previous)
    requires forall i :: 0 <= i < |previous| ==> m[i].name == previous[i].name
    ensures m[..|previous|] + Added(m, previous) == m
  {
    var older := m[..|previous|];
    assert m == older + Added(current, previous);
    AddedConcat(older, Added(current, previous), previous);
    forall i | 0 <= i < |older| ensures Named(previous, older[i].name) { assert previous[i].name == older[i].name; }
    NothingAdded(older, previous);
    AddedTwice(current, previous);
    assert Added(m, previous) == Added(current, previous);
  }

  lemma {:induction false} KeyAgain(key: Key, prev: Key, path: string)
    requires Distinct(key.subkeys) && Distinct(prev.subkeys) && MergeKey(key, prev, path).Ok?
    ensures MergeKey(MergeKey(key, prev, path).value, prev, path) == MergeKey(key, prev, path)
    decreases Size(prev.subkeys), 1
  {
    var checked := CheckKey(key, prev, path).value;
    var merged := MergeKey(key, prev, path).value;
    PriorAgain(checked, prev, path + "." + checked.name);
    MergeAgain(checked.subkeys, Prior(checked, prev), path + "." + checked.name);
    assert merged.(subkeys := merged.subkeys) == merged;
  }

  /** A single item keeps its label once merged. */
  lemma {:induction false} PriorAgain(key: Key, prev: Key, path: string)
    requires Distinct(key.subkeys) && Distinct(prev.subkeys) && Merge(key.subkeys, Prior(key, prev), path).Ok?
    ensures Distinct(Prior(key, prev))
    ensures Prior(key.(subkeys := Merge(key.subkeys, Prior(key, prev), path).value), prev) == Prior(key, prev)
  {
    var prior := Prior(key, prev);
    var subkeys := Merge(key.subkeys, prior, path).value;
    if |prev.subkeys| == 1 {
      MergedName(key.subkeys, prior, path, 0);
      if key.kind == ARRAY && |key.subkeys| == 1 {
        LookupOnly(prior, 0);
        assert Named(prior, key.subkeys[0].name);
        NothingAdded(key.subkeys, prior);
      }
    }
  }
}
