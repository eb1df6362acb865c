/** The generated type model: structs shared by shape, and the support paths that validation composes along a use. */
module SupportTypes {
  import opened Basics
  import opened SupportTables

  /** `subnames` and `variantNames` are read from the source key. */
  datatype Field = Field(
    key: string, kind: FieldKind, struct: Option<TypeDef>, elem: Option<Field>, variants: seq<TypeDef>,
    subnames: seq<string>, variantNames: seq<string>)

  datatype FieldKind = ScalarField(base: string) | StructField | MapField | ArrayField

  /** `signature` decides whether a struct may be reused. */
  datatype TypeDef = TypeDef(fields: seq<Field>, signature: string)

  function TypeName(kind: Kind): string {
    match kind
    case Scalar(base) => base
    case Dictionary => "dictionary"
    case Array => "array"
  }

  /** The text of the keys, from their opening brace on, and then `rest`. */
  function Written(keys: seq<Key>, rest: string): string {
    if keys == [] then "}" + rest
    else
      var k := keys[0];
      var nested := "{" + Written(k.subkeys, "," + Written(keys[1..], rest));
      k.name + ":" + ("<" + (TypeName(k.kind) + ">" + (if k.required then "!" + nested else nested)))
  }

  function Signature(keys: seq<Key>): string {
    "{" + Written(keys, "")
  }

  /** The structure that a signature stands for: names, types, presence and nesting. */
  datatype Shape = Shape(items: seq<Item>)

  datatype Item = Item(name: string, kind: Kind, required: bool, nested: Shape)

  function ShapeOf(keys: seq<Key>): Shape
    decreases Size(keys)
  {
    if keys == [] then Shape([])
    else
      SizeAt(keys, |keys| - 1);
      var last := keys[|keys| - 1];
      Shape(ShapeOf(keys[..|keys| - 1]).items + [Item(last.name, last.kind, last.required, ShapeOf(last.subkeys))])
  }

  function NamesOf(keys: seq<Key>): seq<string> {
    if keys == [] then [] else NamesOf(keys[..|keys| - 1]) + [keys[|keys| - 1].name]
  }

  predicate IsVariant(k: Key) {
    k.kind == Dictionary && k.subkeys != []
  }

  function Variants(keys: seq<Key>): seq<Key> {
    if keys == [] then []
    else Variants(keys[..|keys| - 1]) + if IsVariant(keys[|keys| - 1]) then [keys[|keys| - 1]] else []
  }

  predicate Wild(keys: seq<Key>) {
    |keys| == 1 && "ANY" <= keys[0].name
  }

  // ----- The builder -----

  type Cache = map<string, TypeDef>

  /** A single item takes its parent's shared type when it names none. */
  function ItemOf(k: Key): Key
    requires k.subkeys != []
  {
    var item := k.subkeys[0];
    if item.subkeyType == "" then item.(subkeyType := k.subkeyType) else item
  }

  function Plain(k: Key, kind: FieldKind): Field {
    Field(k.name, kind, None, None, [], NamesOf(k.subkeys), NamesOf(Variants(k.subkeys)))
  }

  function Fill(keys: seq<Key>, cache: Cache): (seq<Field>, Cache)
    decreases Size(keys), 0
  {
    if keys == [] then ([], cache)
    else
      SizeAt(keys, |keys| - 1);
      var (front, c) := Fill(keys[..|keys| - 1], cache);
      var (last, d) := Resolve(keys[|keys| - 1], c);
      (front + [last], d)
  }

  function Resolve(k: Key, cache: Cache): (Field, Cache)
    decreases Size(k.subkeys), 3
  {
    match k.kind
    case Scalar(base) => (Plain(k, ScalarField(base)), cache)
    case Dictionary =>
      if k.subkeys == [] then (Plain(k, MapField), cache)
      else if Wild(k.subkeys) then
        var (elem, c) := Element(k, !Wild(k.subkeys[0].subkeys), cache);
        (Plain(k, MapField).(elem := Some(elem)), c)
      else
        var (td, c) := Nested(k, cache);
        (Plain(k, StructField).(struct := Some(td)), c)
    case Array =>
      if k.subkeys == [] then (Plain(k, ArrayField), cache)
      else if |k.subkeys| == 1 then
        var (elem, c) := Element(k, true, cache);
        (Plain(k, ArrayField).(elem := Some(elem)), c)
      else
        var (tds, c) := FillVariants(k.subkeys, cache);
        (Plain(k, ArrayField).(variants := tds), c)
  }

  /** The element of an array or of a wildcard dictionary. */
  function Element(k: Key, asStruct: bool, cache: Cache): (Field, Cache)
    requires k.subkeys != []
    decreases Size(k.subkeys), 2
  {
    SizeAt(k.subkeys, 0);
    var item := ItemOf(k);
    if IsVariant(item) && asStruct then
      var (td, c) := Nested(item, cache);
      (Plain(item, StructField).(struct := Some(td)), c)
    else Resolve(item, cache)
  }

  function FillVariants(keys: seq<Key>, cache: Cache): (seq<TypeDef>, Cache)
    decreases Size(keys), 1
  {
    if keys == [] then ([], cache)
    else
      SizeAt(keys, |keys| - 1);
      var (front, c) := FillVariants(keys[..|keys| - 1], cache);
      var last := keys[|keys| - 1];
      if IsVariant(last) then
        var (fields, d) := Fill(last.subkeys, c);
        (front + [TypeDef(fields, Signature(last.subkeys))], d)
      else (front, c)
  }

  /** Reuses the struct kept for the shared type if its signature is the same. */
  function Nested(k: Key, cache: Cache): (TypeDef, Cache)
    decreases Size(k.subkeys), 1
  {
    if k.subkeyType != "" && k.subkeyType in cache && cache[k.subkeyType].signature == Signature(k.subkeys) then (cache[k.subkeyType], cache)
    else
      var (fields, c) := Fill(k.subkeys, cache);
      var td := TypeDef(fields, Signature(k.subkeys));
      (td, if k.subkeyType != "" && k.subkeyType !in c then c[k.subkeyType := td] else c)
  }
}
