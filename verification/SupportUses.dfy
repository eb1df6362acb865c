/** Every support path that validation composes has an entry, and the entry is the fold of that use's own blocks. */
module SupportUses {
  import opened Basics
  import opened SupportTables
  import opened SupportTypes
  import opened SupportSignatures

  // ----- A type model that fits its keys -----

  /** The fields are those of the keys, level by level. */
  predicate Fits(fields: seq<Field>, keys: seq<Key>)
    decreases fields
  {
    |fields| == |keys| && forall i :: 0 <= i < |fields| ==> FitsField(fields[i], keys[i])
  }

  predicate FitsField(f: Field, k: Key)
    decreases f
  {
    && f.key == k.name && f.subnames == NamesOf(k.subkeys) && f.variantNames == NamesOf(Variants(k.subkeys))
    && (f.struct.Some? ==> Fits(f.struct.value.fields, k.subkeys))
    && (f.elem.Some? ==> |k.subkeys| == 1 && FitsField(f.elem.value, k.subkeys[0]))
    && (f.variants != [] ==> FitsVariants(f, Variants(k.subkeys)))
  }

  predicate FitsVariants(f: Field, variants: seq<Key>)
    decreases f, 0
  {
    |f.variants| == |variants| && forall i :: 0 <= i < |variants| ==> Fits(f.variants[i].fields, variants[i].subkeys)
  }

  // ----- Fitting depends only on the shape -----

  /** Same shape: as many keys, with the same names and kinds, and the same shapes below. */
  lemma {:induction false} SameShape(a: seq<Key>, b: seq<Key>)
    requires ShapeOf(a) == ShapeOf(b)
    ensures |a| == |b|
    ensures forall i :: 0 <= i < |a| ==> a[i].name == b[i].name && a[i].kind == b[i].kind && ShapeOf(a[i].subkeys) == ShapeOf(b[i].subkeys)
  {
    ShapeSize(a);
    ShapeSize(b);
    forall i | 0 <= i < |a|
      ensures a[i].name == b[i].name && a[i].kind == b[i].kind && ShapeOf(a[i].subkeys) == ShapeOf(b[i].subkeys)
    {
      ShapeAt(a, i);
      ShapeAt(b, i);
    }
  }

  lemma {:induction false} SameNames(a: seq<Key>, b: seq<Key>)
    requires |a| == |b| && forall i :: 0 <= i < |a| ==> a[i].name == b[i].name
    ensures NamesOf(a) == NamesOf(b)
  {
    if a != [] { SameNames(a[..|a| - 1], b[..|b| - 1]); }
  }

  lemma {:induction false} SameVariants(a: seq<Key>, b: seq<Key>)
    requires |a| == |b|
    requires forall i :: 0 <= i < |a| ==> a[i].name == b[i].name && a[i].kind == b[i].kind && ShapeOf(a[i].subkeys) == ShapeOf(b[i].subkeys)
    ensures |Variants(a)| == |Variants(b)|
    ensures forall i :: 0 <= i < |Variants(a)| ==>
      Variants(a)[i].name == Variants(b)[i].name && ShapeOf(Variants(a)[i].subkeys) == ShapeOf(Variants(b)[i].subkeys)
  {
    if a != [] {
      SameVariants(a[..|a| - 1], b[..|b| - 1]);
      ShapeSize(a[|a| - 1].subkeys);
      ShapeSize(b[|b| - 1].subkeys);
    }
  }

  /** A struct that fits some keys fits all keys of that shape. */
  lemma {:induction false} FitsSameShape(fields: seq<Field>, a: seq<Key>, b: seq<Key>)
    requires Fits(fields, a) && ShapeOf(a) == ShapeOf(b)
    ensures Fits(fields, b)
    decreases fields
  {
    SameShape(a, b);
    forall i | 0 <= i < |fields| ensures FitsField(fields[i], b[i]) { FieldSameShape(fields[i], a[i], b[i]); }
  }

  lemma {:induction false} FieldSameShape(f: Field, a: Key, b: Key)
    requires FitsField(f, a) && a.name == b.name && ShapeOf(a.subkeys) == ShapeOf(b.subkeys)
    ensures FitsField(f, b)
    decreases f
  {
    SameShape(a.subkeys, b.subkeys);
    SameNames(a.subkeys, b.subkeys);
    SameVariants(a.subkeys, b.subkeys);
    SameNames(Variants(a.subkeys), Variants(b.subkeys));
    if f.struct.Some? { FitsSameShape(f.struct.value.fields, a.subkeys, b.subkeys); }
    if f.elem.Some? { FieldSameShape(f.elem.value, a.subkeys[0], b.subkeys[0]); }
    if f.variants != [] {
      forall i | 0 <= i < |f.variants| ensures Fits(f.variants[i].fields, Variants(b.subkeys)[i].subkeys) {
        FitsSameShape(f.variants[i].fields, Variants(a.subkeys)[i].subkeys, Variants(b.subkeys)[i].subkeys);
      }
    }
  }

  // ----- What the builder makes fits -----

  /** A kept struct fits every dictionary of its signature. */
  ghost predicate CacheFits(cache: Cache) {
    forall name, keys :: name in cache && PlainKeys(keys) && Signature(keys) == cache[name].signature ==> Fits(cache[name].fields, keys)
  }

  lemma {:induction false} FillFits(keys: seq<Key>, cache: Cache)
    requires CacheFits(cache) && PlainKeys(keys)
    ensures Fits(Fill(keys, cache).0, keys) && CacheFits(Fill(keys, cache).1)
    decreases Size(keys), 0
  {
    if keys != [] {
      SizeAt(keys, |keys| - 1);
      FillFits(keys[..|keys| - 1], cache);
      ResolveFits(keys[|keys| - 1], Fill(keys[..|keys| - 1], cache).1);
    }
  }

  lemma {:induction false} ResolveFits(k: Key, cache: Cache)
    requires CacheFits(cache) && PlainKey(k)
    ensures FitsField(Resolve(k, cache).0, k) && CacheFits(Resolve(k, cache).1)
    decreases Size(k.subkeys), 3
  {
    if k.kind == Dictionary && k.subkeys != [] {
      if Wild(k.subkeys) { ElementFits(k, !Wild(k.subkeys[0].subkeys), cache); } else { NestedFits(k, cache); }
    } else if k.kind == Array && |k.subkeys| == 1 {
      ElementFits(k, true, cache);
    } else if k.kind == Array && k.subkeys != [] {
      VariantsFit(k.subkeys, cache);
    }
  }

  lemma {:induction false} ElementFits(k: Key, asStruct: bool, cache: Cache)
    requires CacheFits(cache) && PlainKey(k) && k.subkeys != []
    ensures FitsField(Element(k, asStruct, cache).0, k.subkeys[0]) && CacheFits(Element(k, asStruct, cache).1)
    decreases Size(k.subkeys), 2
  {
    SizeAt(k.subkeys, 0);
    var item := ItemOf(k);
    ItemPlain(k);
    if IsVariant(item) && asStruct {
      NestedFits(item, cache);
    } else {
      ResolveFits(item, cache);
      FieldSameShape(Resolve(item, cache).0, item, k.subkeys[0]);
    }
  }

  lemma {:induction false} ItemPlain(k: Key)
    requires PlainKey(k) && k.subkeys != []
    ensures PlainKey(ItemOf(k))
  {
    assert PlainKey(k.subkeys[0]);
  }

  lemma {:induction false} VariantsFit(keys: seq<Key>, cache: Cache)
    requires CacheFits(cache) && PlainKeys(keys)
    ensures CacheFits(FillVariants(keys, cache).1)
    ensures |FillVariants(keys, cache).0| == |Variants(keys)|
    ensures forall i :: 0 <= i < |Variants(keys)| ==> Fits(FillVariants(keys, cache).0[i].fields, Variants(keys)[i].subkeys)
    decreases Size(keys), 1
  {
    if keys != [] {
      SizeAt(keys, |keys| - 1);
      VariantsFit(keys[..|keys| - 1], cache);
      if IsVariant(keys[|keys| - 1]) { FillFits(keys[|keys| - 1].subkeys, FillVariants(keys[..|keys| - 1], cache).1); }
    }
  }

  lemma {:induction false} NestedFits(k: Key, cache: Cache)
    requires CacheFits(cache) && PlainKey(k)
    ensures Fits(Nested(k, cache).0.fields, k.subkeys) && CacheFits(Nested(k, cache).1)
    decreases Size(k.subkeys), 1
  {
    if !(k.subkeyType != "" && k.subkeyType in cache && cache[k.subkeyType].signature == Signature(k.subkeys)) {
      FillFits(k.subkeys, cache);
      var (fields, c) := Fill(k.subkeys, cache);
      forall keys | PlainKeys(keys) && Signature(keys) == Signature(k.subkeys) ensures Fits(fields, keys) {
        SignatureTells(k.subkeys, keys);
        FitsSameShape(fields, k.subkeys, keys);
      }
    }
  }

  // ----- The uses the table is written for -----

  predicate Used(fields: seq<Field>, use: Path)
    decreases fields
  {
    exists i :: 0 <= i < |fields| && UsedBy(fields[i], use)
  }

  predicate UsedBy(f: Field, use: Path)
    decreases f
  {
    && use != [] && use[0] == f.key
    && (|use| == 1
        || (f.struct.Some? && Used(f.struct.value.fields, use[1..]))
        || (|use| > 1 && f.elem.Some? && use[1] == f.elem.value.key && UsedItem(f.elem.value, use[2..]))
        || (|use| > 1 && exists i ::
              0 <= i < |f.variants| && i < |f.variantNames| && use[1] == f.variantNames[i] && Used(f.variants[i].fields, use[2..])))
  }

  /** Below the item of an array or map: its struct, its named values, or the items of nested arrays. */
  predicate UsedItem(el: Field, use: Path)
    decreases el
  {
    || (el.struct.Some? && Used(el.struct.value.fields, use))
    || (el.kind == ScalarField("string") && |use| == 1 && use[0] in el.subnames)
    || UsedDeeper(el, use)
  }

  predicate UsedDeeper(el: Field, use: Path)
    decreases el, 0
  {
    && el.kind == ArrayField && el.elem.Some? && use != [] && use[0] == el.elem.value.key
    && ((el.elem.value.struct.Some? && Used(el.elem.value.struct.value.fields, use[1..])) || UsedDeeper(el.elem.value, use[1..]))
  }

  // ----- The support paths that validation composes -----

  predicate Checked(fields: seq<Field>, use: Path)
    decreases fields
  {
    exists i :: 0 <= i < |fields| && CheckedBy(fields[i], use)
  }

  predicate CheckedBy(f: Field, use: Path)
    decreases f
  {
    && use != [] && use[0] == f.key
    && (|use| == 1 ||
        match f.kind
        case StructField => f.struct.Some? && Checked(f.struct.value.fields, use[1..])
        case ArrayField =>
          || (f.elem.Some? && use[1] == f.elem.value.key && CheckedItem(f.elem.value, use[2..]))
          || (exists i ::
                0 <= i < |f.variants| && i < |f.variantNames| && use[1] == f.variantNames[i] && Checked(f.variants[i].fields, use[2..]))
        case MapField =>
          && f.elem.Some? && use[1] == f.elem.value.key && f.elem.value.kind == StructField && f.elem.value.struct.Some?
          && Checked(f.elem.value.struct.value.fields, use[2..])
        case ScalarField(base) => false)
  }

  predicate CheckedItem(el: Field, use: Path)
    decreases el
  {
    match el.kind
    case StructField => el.struct.Some? && Checked(el.struct.value.fields, use)
    case ScalarField(base) => base == "string" && |use| == 1 && use[0] in el.subnames
    case ArrayField => CheckedDeeper(el, use)
    case MapField => false
  }

  predicate CheckedDeeper(el: Field, use: Path)
    decreases el, 0
  {
    && el.kind == ArrayField && el.elem.Some? && use != [] && use[0] == el.elem.value.key
    && (match el.elem.value.kind
        case StructField => el.elem.value.struct.Some? && Checked(el.elem.value.struct.value.fields, use[1..])
        case ArrayField => CheckedDeeper(el.elem.value, use[1..])
        case _ => false)
  }

  /** Validation asks only for uses the table was written for. */
  lemma {:induction false} CheckedIsUsed(fields: seq<Field>, use: Path)
    requires Checked(fields, use)
    ensures Used(fields, use)
    decreases fields
  {
    var i :| 0 <= i < |fields| && CheckedBy(fields[i], use);
    FieldIsUsed(fields[i], use);
  }

  lemma {:induction false} FieldIsUsed(f: Field, use: Path)
    requires CheckedBy(f, use)
    ensures UsedBy(f, use)
    decreases f
  {
    if |use| > 1 {
      match f.kind
      case StructField => CheckedIsUsed(f.struct.value.fields, use[1..]);
      case ArrayField =>
        if f.elem.Some? && use[1] == f.elem.value.key && CheckedItem(f.elem.value, use[2..]) {
          ItemIsUsed(f.elem.value, use[2..]);
        } else {
          var i :| 0 <= i < |f.variants| && i < |f.variantNames| && use[1] == f.variantNames[i] && Checked(f.variants[i].fields, use[2..]);
          CheckedIsUsed(f.variants[i].fields, use[2..]);
        }
      case MapField => CheckedIsUsed(f.elem.value.struct.value.fields, use[2..]);
    }
  }

  lemma {:induction false} ItemIsUsed(el: Field, use: Path)
    requires CheckedItem(el, use)
    ensures UsedItem(el, use)
    decreases el
  {
    match el.kind
    case StructField => CheckedIsUsed(el.struct.value.fields, use);
    case ScalarField(base) =>
    case ArrayField => DeeperIsUsed(el, use);
  }

  lemma {:induction false} DeeperIsUsed(el: Field, use: Path)
    requires CheckedDeeper(el, use)
    ensures UsedDeeper(el, use)
    decreases el, 0
  {
    match el.elem.value.kind
    case StructField => CheckedIsUsed(el.elem.value.struct.value.fields, use[1..]);
    case ArrayField => DeeperIsUsed(el.elem.value, use[1..]);
  }

  // ----- Each use is a use of the source keys -----

  lemma {:induction false} LookupAt(keys: seq<Key>, i: nat)
    requires Distinct(keys) && i < |keys|
    ensures Lookup(keys, keys[i].name) == i
  {
    assert forall j :: 0 <= j < |keys| && j != i ==> keys[j].name != keys[i].name;
  }

  lemma {:induction false} NamesAt(keys: seq<Key>, i: nat)
    requires i < |keys|
    ensures |NamesOf(keys)| == |keys| && NamesOf(keys)[i] == keys[i].name
  {
    NamesSize(keys[..|keys| - 1]);
    if i < |keys| - 1 { NamesAt(keys[..|keys| - 1], i); }
  }

  lemma {:induction false} NamesSize(keys: seq<Key>)
    ensures |NamesOf(keys)| == |keys|
  {
    if keys != [] { NamesSize(keys[..|keys| - 1]); }
  }

  lemma {:induction false} VariantIsKey(keys: seq<Key>, i: nat) returns (j: nat)
    requires i < |Variants(keys)|
    ensures j < |keys| && keys[j] == Variants(keys)[i]
  {
    var front := keys[..|keys| - 1];
    if i < |Variants(front)| { j := VariantIsKey(front, i); } else { j := |keys| - 1; }
  }

  /** A use of fields that fit the keys is a path of the keys, whichever use the struct was first built for. */
  lemma {:induction false} UsedInKeys(fields: seq<Field>, keys: seq<Key>, parent: Support, use: Path)
    requires Fits(fields, keys) && Distinct(keys) && Used(fields, use)
    ensures use != [] && Fold(keys, parent, use).Some?
    decreases fields
  {
    var i :| 0 <= i < |fields| && UsedBy(fields[i], use);
    assert FitsField(fields[i], keys[i]);
    LookupAt(keys, i);
    if |use| > 1 { FieldInKeys(fields[i], keys[i], Inherit(parent, keys[i].blocks), use); }
  }

  lemma {:induction false} FieldInKeys(f: Field, k: Key, support: Support, use: Path)
    requires FitsField(f, k) && Distinct(k.subkeys) && UsedBy(f, use) && |use| > 1
    ensures Fold(k.subkeys, support, use[1..]).Some?
    decreases f
  {
    if f.struct.Some? && Used(f.struct.value.fields, use[1..]) {
      UsedInKeys(f.struct.value.fields, k.subkeys, support, use[1..]);
    } else if f.elem.Some? && use[1] == f.elem.value.key && UsedItem(f.elem.value, use[2..]) {
      LookupAt(k.subkeys, 0);
      ItemInKeys(f.elem.value, k.subkeys[0], Inherit(support, k.subkeys[0].blocks), use[2..]);
      assert use[1..][1..] == use[2..];
    } else {
      var i :| 0 <= i < |f.variants| && i < |f.variantNames| && use[1] == f.variantNames[i] && Used(f.variants[i].fields, use[2..]);
      var variants := Variants(k.subkeys);
      NamesAt(variants, i);
      var j := VariantIsKey(k.subkeys, i);
      LookupAt(k.subkeys, j);
      UsedInKeys(f.variants[i].fields, variants[i].subkeys, Inherit(support, k.subkeys[j].blocks), use[2..]);
      assert use[1..][1..] == use[2..];
    }
  }

  lemma {:induction false} ItemInKeys(el: Field, item: Key, support: Support, use: Path)
    requires FitsField(el, item) && Distinct(item.subkeys) && UsedItem(el, use)
    ensures use != [] && Fold(item.subkeys, support, use).Some?
    decreases el
  {
    if el.struct.Some? && Used(el.struct.value.fields, use) {
      UsedInKeys(el.struct.value.fields, item.subkeys, support, use);
    } else if el.kind == ScalarField("string") && |use| == 1 && use[0] in el.subnames {
      NamesSize(item.subkeys);
      var i :| 0 <= i < |el.subnames| && el.subnames[i] == use[0];
      NamesAt(item.subkeys, i);
      LookupAt(item.subkeys, i);
    } else {
      DeeperInKeys(el, item, support, use);
    }
  }

  lemma {:induction false} DeeperInKeys(el: Field, item: Key, support: Support, use: Path)
    requires FitsField(el, item) && Distinct(item.subkeys) && UsedDeeper(el, use)
    ensures Fold(item.subkeys, support, use).Some?
    decreases el, 0
  {
    LookupAt(item.subkeys, 0);
    var inner, below := el.elem.value, Inherit(support, item.subkeys[0].blocks);
    if inner.struct.Some? && Used(inner.struct.value.fields, use[1..]) {
      UsedInKeys(inner.struct.value.fields, item.subkeys[0].subkeys, below, use[1..]);
    } else {
      DeeperInKeys(inner, item.subkeys[0], below, use[1..]);
    }
  }

  // ----- Main results -----

  /** Writing the table never misses a source key. */
  lemma {:induction false} EveryUseHasSource(keys: seq<Key>, base: Support, cache: Cache, use: Path)
    requires Distinct(keys) && PlainKeys(keys) && CacheFits(cache) && Used(Fill(keys, cache).0, use)
    ensures use != [] && Fold(keys, base, use).Some?
  {
    FillFits(keys, cache);
    UsedInKeys(Fill(keys, cache).0, keys, base, use);
  }

  /** The entries that are written: one for each use of the fields, taken from the table of the source keys. */
  function Effective(fields: seq<Field>, source: Table): Table {
    map use | use in source && Used(fields, use) :: source[use]
  }

  /**
   * The support path that validation composes along any use, through shared structs too, has a written entry, and the
   * entry is the fold of the blocks from the payload down to that use's own key.
   */
  lemma {:induction false} CheckFindsOwnSupport(keys: seq<Key>, base: Support, cache: Cache, source: Table, use: Path)
    requires Distinct(keys) && PlainKeys(keys) && CacheFits(cache) && Checked(Fill(keys, cache).0, use)
    requires Gained(source, map[], keys, [], base)
    ensures var written := Effective(Fill(keys, cache).0, source);
      use != [] && use in written && Fold(keys, base, use) == Some(written[use])
  {
    CheckedIsUsed(Fill(keys, cache).0, use);
    EveryUseHasSource(keys, base, cache, use);
    assert use[0..] == use;
    assert GainedAt(source, map[], UseOf(keys, base, [], use), use);
  }

  // ----- Names that imitate others -----

  function Shared(name: string, subkeys: seq<Key>): Key {
    Key(name, Dictionary, false, "T", map[], subkeys)
  }

  lemma {:induction false} FillLength(keys: seq<Key>, cache: Cache)
    ensures |Fill(keys, cache).0| == |keys|
    decreases |keys|
  {
    if keys != [] { FillLength(keys[..|keys| - 1], cache); }
  }

  /** A dictionary is given the struct of another one whose signature it imitates, and the struct does not fit it. */
  lemma {:induction false} ReuseMisfits(x: string, y: string, cache: Cache)
    requires "T" in cache && cache["T"] == Nested(Shared("p", [TextKey(x), TextKey(y)]), map[]).0
    ensures var one := [TextKey(x + AS_TEXT + y)]; !Fits(Nested(Shared("q", one), cache).0.fields, one)
  {
    SignatureCollides(x, y);
    FillLength([TextKey(x), TextKey(y)], map[]);
  }
}
