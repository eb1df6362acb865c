/** Merging a release's schema keys with those of an older release. */
module SchemaHistory {

  /** `detail` stands for everything a merge copies without reading. */
  datatype Key = Key(name: string, kind: string, required: bool, legacyRequired: bool, detail: string, subkeys: seq<Key>)

  datatype Error = TypeChanged | PresenceChanged | ContainerPresence

  datatype Result<T> = Ok(value: T) | Err(error: Error)

  const ARRAY := "<array>"

  const SCALARS := {"<string>", "<integer>", "<real>", "<boolean>", "<date>", "<data>", "<any>"}

  /** Required keys that may become optional, by schema path and name. */
  const ALTERNATIVES := {
    "declarative/declarations/configurations/legacy.yaml.ProfileURL",
    "declarative/declarations/configurations/legacy.interactive.yaml.ProfileURL"
  }

  function Size(keys: seq<Key>): nat {
    if keys == [] then 0 else 1 + Size(keys[0].subkeys) + Size(keys[1..])
  }

  lemma {:induction false} SizeAt(keys: seq<Key>, i: nat)
    requires i < |keys|
    ensures Size(keys[i].subkeys) < Size(keys)
  {
    if i > 0 { SizeAt(keys[1..], i - 1); }
  }

  // ----- One level -----

  /** The last key of that name. */
  function Lookup(keys: seq<Key>, name: string): (i: int)
    ensures -1 <= i < |keys|
    ensures i >= 0 ==> keys[i].name == name && forall j :: i < j < |keys| ==> keys[j].name != name
    ensures i < 0 ==> forall j :: 0 <= j < |keys| ==> keys[j].name != name
  {
    if keys == [] then -1
    else if keys[|keys| - 1].name == name then |keys| - 1
    else Lookup(keys[..|keys| - 1], name)
  }

  predicate Named(keys: seq<Key>, name: string) {
    Lookup(keys, name) >= 0
  }

  predicate NamesDiffer(keys: seq<Key>) {
    forall i, j :: 0 <= i < j < |keys| ==> keys[i].name != keys[j].name
  }

  /** No two siblings share a name, at any level. */
  predicate Distinct(keys: seq<Key>) {
    NamesDiffer(keys) && forall i :: 0 <= i < |keys| ==> Distinct(keys[i].subkeys)
  }

  /** The key that stands for `previous[i]` before its subkeys are merged. */
  function Chosen(current: seq<Key>, previous: seq<Key>, i: nat): Key
    requires i < |previous|
  {
    var prev := previous[i];
    if Named(current, prev.name) && !Named(previous[..i], prev.name) then current[Lookup(current, prev.name)] else prev
  }

  /** The single item of an array is named after the current item. */
  function Prior(key: Key, prev: Key): (prior: seq<Key>)
    ensures |prior| == |prev.subkeys|
    ensures Size(prior) == Size(prev.subkeys)
  {
    if key.kind == ARRAY && |key.subkeys| == 1 && |prev.subkeys| == 1 then
      SizeOne(prev.subkeys[0], key.subkeys[0].name);
      [prev.subkeys[0].(name := key.subkeys[0].name)]
    else prev.subkeys
  }

  lemma {:induction false} SizeOne(k: Key, name: string)
    ensures Size([k.(name := name)]) == Size([k])
  {
    assert [k][1..] == [k.(name := name)][1..];
  }

  function CheckKey(key: Key, prev: Key, path: string): Result<Key> {
    if key.kind != prev.kind then Err(TypeChanged)
    else if prev.required && !key.required then
      if path + "." + key.name !in ALTERNATIVES then Err(PresenceChanged)
      else if key.kind !in SCALARS then Err(ContainerPresence)
      else Ok(key.(legacyRequired := true))
    else Ok(key)
  }

  function MergeKey(key: Key, prev: Key, path: string): Result<Key>
    decreases Size(prev.subkeys), 2, 0
  {
    var checked := CheckKey(key, prev, path);
    if checked.Err? then Err(checked.error)
    else
      var subkeys := Merge(checked.value.subkeys, Prior(checked.value, prev), path + "." + checked.value.name);
      if subkeys.Err? then Err(subkeys.error) else Ok(checked.value.(subkeys := subkeys.value))
  }

  /** The first `n` keys of the older release, merged in order. */
  function MergeOld(current: seq<Key>, previous: seq<Key>, n: nat, path: string): (r: Result<seq<Key>>)
    requires n <= |previous|
    ensures r.Ok? ==> |r.value| == n
    decreases Size(previous), 0, n
  {
    if n == 0 then Ok([])
    else
      var rest := MergeOld(current, previous, n - 1, path);
      if rest.Err? then rest
      else
        SizeAt(previous, n - 1);
        var merged := MergeKey(Chosen(current, previous, n - 1), previous[n - 1], path);
        if merged.Err? then Err(merged.error) else Ok(rest.value + [merged.value])
  }

  /** The keys only the current release has. */
  function Added(current: seq<Key>, previous: seq<Key>): seq<Key> {
    if current == [] then []
    else
      var last := current[|current| - 1];
      Added(current[..|current| - 1], previous) + if Named(previous, last.name) then [] else [last]
  }

  function Merge(current: seq<Key>, previous: seq<Key>, path: string): Result<seq<Key>>
    decreases Size(previous), 1, 1
  {
    var prev := MergeOld(current, previous, |previous|, path);
    if prev.Err? then prev else Ok(prev.value + Added(current, previous))
  }

  // ----- As the code runs it -----

  /** The table holds the current keys that no earlier key of the older release has used. */
  ghost predicate Unused(keys: map<string, Key>, current: seq<Key>, previous: seq<Key>, i: nat)
    requires i <= |previous|
  {
    forall name ::
      && (name in keys <==> Named(current, name) && !Named(previous[..i], name))
      && (name in keys ==> keys[name] == current[Lookup(current, name)])
  }

  /** Merges level by level; the lookup table loses each key once it has been used. */
  method MergeKeys(current: seq<Key>, previous: seq<Key>, path: string) returns (out: Result<seq<Key>>)
    ensures out == Merge(current, previous, path)
    decreases Size(previous), 1
  {
    var keys := Table(current, previous);
    var merged := [];
    for i := 0 to |previous|
      invariant MergeOld(current, previous, i, path) == Ok(merged) && Unused(keys, current, previous, i)
    {
      var prev := previous[i];
      var key := if prev.name in keys then keys[prev.name] else prev;
      SizeAt(previous, i);
      MergeNext(current, previous, i, path, merged);
      UseOne(keys, current, previous, i);
      var one := MergeOne(key, prev, path);
      if one.Err? { return Err(one.error); }
      merged := merged + [one.value];
      keys := keys - {prev.name};
    }
    var added := Append(current, previous, keys);
    return Ok(merged + added);
  }

  method MergeOne(key: Key, prev: Key, path: string) returns (out: Result<Key>)
    ensures out == MergeKey(key, prev, path)
    decreases Size(prev.subkeys), 2
  {
    var checked := CheckKey(key, prev, path);
    if checked.Err? { return Err(checked.error); }
    var merged := checked.value;
    var subkeys := MergeKeys(merged.subkeys, Prior(merged, prev), path + "." + merged.name);
    if subkeys.Err? { return Err(subkeys.error); }
    return Ok(merged.(subkeys := subkeys.value));
  }

  lemma {:induction false} UseOne(keys: map<string, Key>, current: seq<Key>, previous: seq<Key>, i: nat)
    requires i < |previous| && Unused(keys, current, previous, i)
    ensures Unused(keys - {previous[i].name}, current, previous, i + 1)
    ensures (if previous[i].name in keys then keys[previous[i].name] else previous[i]) == Chosen(current, previous, i)
  {
    assert previous[..i + 1][..i] == previous[..i];
  }

  /** What is left in the table, in the current order. */
  method Append(current: seq<Key>, previous: seq<Key>, keys: map<string, Key>) returns (added: seq<Key>)
    requires Unused(keys, current, previous, |previous|)
    ensures added == Added(current, previous)
  {
    assert previous[..|previous|] == previous;
    added := [];
    for j := 0 to |current|
      invariant added == Added(current[..j], previous)
    {
      assert current[..j + 1][..j] == current[..j];
      TableHas(current, j);
      if current[j].name in keys { added := added + [current[j]]; }
    }
    assert current[..|current|] == current;
  }

  method Table(current: seq<Key>, ghost previous: seq<Key>) returns (keys: map<string, Key>)
    ensures Unused(keys, current, previous, 0)
  {
    keys := map[];
    for i := 0 to |current|
      invariant forall name :: name in keys <==> Named(current[..i], name)
      invariant forall name :: name in keys ==> Named(current[..i], name) && keys[name] == current[Lookup(current[..i], name)]
    {
      keys := keys[current[i].name := current[i]];
      assert current[..i + 1][..i] == current[..i];
    }
    assert current[..|current|] == current;
  }

  lemma {:induction false} TableHas(current: seq<Key>, j: nat)
    requires j < |current|
    ensures Named(current, current[j].name)
  {
  }

  /** Once a key fails, the whole merge fails the same way. */
  lemma {:induction false} Failing(current: seq<Key>, previous: seq<Key>, n: nat, path: string)
    requires n <= |previous|
    ensures MergeOld(current, previous, n, path).Err? ==> Merge(current, previous, path) == MergeOld(current, previous, n, path)
  {
    var m := n;
    while m < |previous|
      invariant n <= m <= |previous|
      invariant MergeOld(current, previous, n, path).Err? ==> MergeOld(current, previous, m, path) == MergeOld(current, previous, n, path)
    {
      m := m + 1;
    }
  }

  /** What one more key does to the merge so far, or to the whole of it. */
  lemma {:induction false} MergeNext(current: seq<Key>, previous: seq<Key>, i: nat, path: string, merged: seq<Key>)
    requires i < |previous| && MergeOld(current, previous, i, path) == Ok(merged)
    ensures var one := MergeKey(Chosen(current, previous, i), previous[i], path);
      if one.Err? then Merge(current, previous, path) == Err(one.error)
      else MergeOld(current, previous, i + 1, path) == Ok(merged + [one.value])
  {
    Failing(current, previous, i + 1, path);
  }
}
