/** Support metadata by key use: inherited blocks, and the type model whose structs several uses may share. */
module SupportTables {
  import opened Basics

  type Path = seq<string>

  // ----- Inheriting support -----

  /** Version 0 means no boundary. `settings` holds the fields that are copied when given. */
  datatype Level = Level(notAvailable: bool, introduced: int, deprecated: int, removed: int, settings: map<string, string>)

  datatype Introduction = NotAvailable | AllVersions | Since(version: int)

  datatype Block = Block(introduced: Option<Introduction>, deprecated: Option<int>, removed: Option<int>, settings: map<string, string>)

  type Support = map<string, Level>

  const NOTHING := Level(false, 0, 0, 0, map[])

  /** What a block says explicitly replaces what was inherited; removal in version 0 means withdrawn. */
  function Overlay(level: Level, b: Block): Level {
    var introduced :=
      if b.introduced.None? then level
      else match b.introduced.value
        case NotAvailable => level.(notAvailable := true, introduced := 0)
        case AllVersions => level.(notAvailable := false, introduced := 0)
        case Since(version) => level.(notAvailable := false, introduced := version);
    var deprecated := if b.deprecated.None? then introduced else introduced.(deprecated := b.deprecated.value);
    var removed :=
      if b.removed.None? then deprecated
      else if b.removed.value == 0 then deprecated.(removed := 0, notAvailable := true)
      else deprecated.(removed := b.removed.value);
    removed.(settings := removed.settings + b.settings)
  }

  type Blocks = map<string, Block>

  function Inherit(parent: Support, blocks: Blocks): Support {
    map os | os in parent.Keys + blocks.Keys ::
      if os !in blocks then parent[os] else Overlay(Inherited(parent, os), blocks[os])
  }

  function Inherited(parent: Support, os: string): Level {
    if os in parent then parent[os] else NOTHING
  }

  method ConvertOS(parent: Support, blocks: Blocks) returns (out: Support)
    ensures out == Inherit(parent, blocks)
  {
    out := parent;
    var rest := blocks.Keys;
    while rest != {}
      invariant rest <= blocks.Keys && out.Keys == parent.Keys + (blocks.Keys - rest)
      invariant forall os :: os in parent && (os !in blocks || os in rest) ==> out[os] == parent[os]
      invariant forall os :: os in blocks && os !in rest ==> out[os] == Overlay(Inherited(parent, os), blocks[os])
      decreases rest
    {
      var os :| os in rest;
      var level := Overlay(if os in out then out[os] else NOTHING, blocks[os]);
      out := out[os := level];
      rest := rest - {os};
    }
    InheritIs(parent, blocks, out);
  }

  lemma {:induction false} InheritIs(parent: Support, blocks: Blocks, out: Support)
    requires out.Keys == parent.Keys + blocks.Keys
    requires forall os :: os in parent && os !in blocks ==> out[os] == parent[os]
    requires forall os :: os in blocks ==> out[os] == Overlay(Inherited(parent, os), blocks[os])
    ensures out == Inherit(parent, blocks)
  {
  }

  // ----- Source keys -----

  datatype Kind = Scalar(base: string) | Dictionary | Array

  datatype Key = Key(name: string, kind: Kind, required: bool, subkeyType: string, blocks: Blocks, subkeys: seq<Key>)

  function Size(keys: seq<Key>): nat {
    if keys == [] then 0 else Size(keys[..|keys| - 1]) + 1 + Size(keys[|keys| - 1].subkeys)
  }

  lemma {:induction false} SizeAt(keys: seq<Key>, i: nat)
    requires i < |keys|
    ensures Size(keys[i].subkeys) < Size(keys)
  {
    if i < |keys| - 1 { SizeAt(keys[..|keys| - 1], i); }
  }

  predicate Distinct(keys: seq<Key>) {
    && (forall i, j :: 0 <= i < j < |keys| ==> keys[i].name != keys[j].name)
    && (forall i :: 0 <= i < |keys| ==> Distinct(keys[i].subkeys))
  }

  function Lookup(keys: seq<Key>, name: string): (i: int)
    ensures -1 <= i < |keys|
    ensures i >= 0 ==> keys[i].name == name
    ensures i < 0 ==> forall j :: 0 <= j < |keys| ==> keys[j].name != name
  {
    if keys == [] then -1
    else if keys[|keys| - 1].name == name then |keys| - 1
    else Lookup(keys[..|keys| - 1], name)
  }

  /** The blocks from the payload down to the key, each over what the keys above it give. */
  function Fold(keys: seq<Key>, parent: Support, path: Path): Option<Support>
    requires path != []
    decreases |path|
  {
    var i := Lookup(keys, path[0]);
    if i < 0 then None
    else
      var support := Inherit(parent, keys[i].blocks);
      if |path| == 1 then Some(support) else Fold(keys[i].subkeys, support, path[1..])
  }

  type Table = map<Path, Support>

  /** The table has gained, under the prefix, exactly the support of every key use of these keys. */
  ghost predicate Gained(table: Table, before: Table, keys: seq<Key>, prefix: Path, parent: Support) {
    forall p :: GainedAt(table, before, UseOf(keys, parent, prefix, p), p)
  }

  predicate GainedAt(table: Table, before: Table, use: Option<Support>, p: Path) {
    && (p in table <==> p in before || use.Some?)
    && (p in before ==> p in table && table[p] == before[p])
    && (use.Some? ==> p in table && table[p] == use.value)
  }

  function UseOf(keys: seq<Key>, parent: Support, prefix: Path, p: Path): Option<Support> {
    if prefix < p then Fold(keys, parent, p[|prefix|..]) else None
  }

  /** The walk over the source keys, one map for all levels. */
  method Walk(keys: seq<Key>, prefix: Path, parent: Support, before: Table) returns (table: Table)
    requires Distinct(keys) && forall p :: p in before ==> !(prefix < p)
    ensures Gained(table, before, keys, prefix, parent)
    decreases Size(keys)
  {
    table := before;
    for i := 0 to |keys|
      invariant Gained(table, before, keys[..i], prefix, parent)
    {
      var k := keys[i];
      var path := prefix + [k.name];
      var support := ConvertOS(parent, k.blocks);
      ghost var had := table;
      NotYet(keys, i, prefix, parent, table, before);
      table := table[path := support];
      SizeAt(keys, i);
      table := Walk(k.subkeys, path, support, table);
      GainOne(keys, i, prefix, parent, before, had, table);
    }
    assert keys[..|keys|] == keys;
  }

  /** No use of a later sibling is in the table yet. */
  lemma {:induction false} NotYet(keys: seq<Key>, i: nat, prefix: Path, parent: Support, table: Table, before: Table)
    requires Distinct(keys) && i < |keys| && Gained(table, before, keys[..i], prefix, parent)
    requires forall p :: p in before ==> !(prefix < p)
    ensures forall p :: p in table ==> !(prefix + [keys[i].name] <= p)
  {
    forall p | p in table && prefix < p ensures p[|prefix|] != keys[i].name {
      assert GainedAt(table, before, UseOf(keys[..i], parent, prefix, p), p);
      assert Lookup(keys[..i], p[|prefix|..][0]) >= 0;
    }
  }

  lemma {:induction false} GainOne(keys: seq<Key>, i: nat, prefix: Path, parent: Support, before: Table, had: Table, table: Table)
    requires Distinct(keys) && i < |keys| && Gained(had, before, keys[..i], prefix, parent)
    requires forall p :: p in had ==> !(prefix + [keys[i].name] <= p)
    requires var path, support := prefix + [keys[i].name], Inherit(parent, keys[i].blocks);
      Gained(table, had[path := support], keys[i].subkeys, path, support)
    ensures Gained(table, before, keys[..i + 1], prefix, parent)
  {
    var path, support := prefix + [keys[i].name], Inherit(parent, keys[i].blocks);
    var upTo := keys[..i + 1];
    forall p ensures GainedAt(table, before, UseOf(upTo, parent, prefix, p), p) {
      UseSplits(keys, i, prefix, parent, p);
      var earlier, below := UseOf(keys[..i], parent, prefix, p), UseOf(keys[i].subkeys, support, path, p);
      assert GainedAt(had, before, earlier, p) && GainedAt(table, had[path := support], below, p);
      GainAt(table, had, before, path, support, earlier, below, p);
    }
  }

  lemma {:induction false} GainAt(table: Table, had: Table, before: Table, path: Path, support: Support,
               earlier: Option<Support>, below: Option<Support>, p: Path)
    requires GainedAt(had, before, earlier, p) && GainedAt(table, had[path := support], below, p)
    requires p in had ==> !(path <= p)
    requires below.Some? ==> path < p
    ensures GainedAt(table, before, if p == path then Some(support) else if path < p then below else earlier, p)
  {
  }

  lemma {:induction false} UseSplits(keys: seq<Key>, i: nat, prefix: Path, parent: Support, p: Path)
    requires i < |keys|
    ensures var path, support := prefix + [keys[i].name], Inherit(parent, keys[i].blocks);
      UseOf(keys[..i + 1], parent, prefix, p) ==
      if p == path then Some(support)
      else if path < p then UseOf(keys[i].subkeys, support, path, p)
      else UseOf(keys[..i], parent, prefix, p)
  {
    assert keys[..i + 1][..i] == keys[..i];
    if prefix < p {
      var rest := p[|prefix|..];
      if rest[0] == keys[i].name {
        assert prefix + [keys[i].name] <= p;
        assert p[|prefix| + 1..] == rest[1..];
      }
    }
  }
}
