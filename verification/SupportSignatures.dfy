/** When the signature of keys tells their shape. */
module SupportSignatures {
  import opened Basics
  import opened SupportTables
  import opened SupportTypes

  // ----- Shapes, key by key -----

  lemma {:induction false} ShapeSize(keys: seq<Key>)
    ensures |ShapeOf(keys).items| == |keys|
  {
    if keys != [] { ShapeSize(keys[..|keys| - 1]); }
  }

  lemma {:induction false} ShapeAt(keys: seq<Key>, i: nat)
    requires i < |keys|
    ensures |ShapeOf(keys).items| == |keys|
    ensures ShapeOf(keys).items[i] == Item(keys[i].name, keys[i].kind, keys[i].required, ShapeOf(keys[i].subkeys))
  {
    ShapeSize(keys[..|keys| - 1]);
    if i < |keys| - 1 { ShapeAt(keys[..|keys| - 1], i); }
  }

  lemma {:induction false} ShapeFirst(keys: seq<Key>)
    requires keys != []
    ensures var k := keys[0];
      ShapeOf(keys).items == [Item(k.name, k.kind, k.required, ShapeOf(k.subkeys))] + ShapeOf(keys[1..]).items
  {
    ShapeSize(keys);
    ShapeSize(keys[1..]);
    ShapeAt(keys, 0);
    forall i | 1 <= i < |keys| ensures ShapeOf(keys).items[i] == ShapeOf(keys[1..]).items[i - 1] {
      ShapeAt(keys, i);
      ShapeAt(keys[1..], i - 1);
    }
  }

  // ----- Reading a signature -----

  /** Names and types without the characters that end them. */
  predicate PlainKeys(keys: seq<Key>) {
    forall i :: 0 <= i < |keys| ==> PlainKey(keys[i])
  }

  predicate PlainKey(k: Key) {
    && ':' !in k.name && (k.name != "" ==> k.name[0] != '}') && PlainKeys(k.subkeys)
    && (k.kind.Scalar? ==> '>' !in k.kind.base && k.kind.base != "dictionary" && k.kind.base != "array")
  }

  lemma {:induction false} ReadUpTo(x: string, y: string, c: char, r: string, s: string)
    requires c !in x && c !in y && x + [c] + r == y + [c] + s
    ensures x == y && r == s
  {
    var t := x + [c] + r;
    assert t == y + [c] + s;
    assert t[0] == if x == [] then c else x[0];
    assert t[0] == if y == [] then c else y[0];
    if x == [] || y == [] {
      assert t[1..] == r && t[1..] == s;
    } else {
      assert t[0] == x[0] && t[0] == y[0];
      assert t[1..] == x[1..] + [c] + r && t[1..] == y[1..] + [c] + s;
      ReadUpTo(x[1..], y[1..], c, r, s);
      assert x == [x[0]] + x[1..] && y == [y[0]] + y[1..];
    }
  }

  lemma {:induction false} KindRead(a: Key, b: Key)
    requires PlainKey(a) && PlainKey(b) && TypeName(a.kind) == TypeName(b.kind)
    ensures a.kind == b.kind
  {
  }

  lemma {:induction false} NoEndOfType(k: Key)
    requires PlainKey(k)
    ensures '>' !in TypeName(k.kind)
  {
  }

  lemma {:induction false} TailSame(c: char, r: string, s: string)
    requires [c] + r == [c] + s
    ensures r == s
  {
    assert ([c] + r)[1..] == r && ([c] + s)[1..] == s;
  }

  /** What follows the type of a key. */
  function Marked(required: bool, nested: string): string {
    if required then "!" + nested else nested
  }

  lemma {:induction false} MarkRead(p: bool, q: bool, r: string, s: string)
    requires Marked(p, "{" + r) == Marked(q, "{" + s)
    ensures p == q && r == s
  {
    assert ("!" + ("{" + r))[0] == '!' && ("{" + r)[0] == '{' && ("!" + ("{" + s))[0] == '!' && ("{" + s)[0] == '{';
    if p { TailSame('!', "{" + r, "{" + s); }
    TailSame('{', r, s);
  }

  /** The text after the first key of a signature. */
  function Below(keys: seq<Key>, rest: string): string
    requires keys != []
  {
    Written(keys[0].subkeys, "," + Written(keys[1..], rest))
  }

  lemma {:induction false} WrittenIs(keys: seq<Key>, rest: string)
    requires keys != []
    ensures var k := keys[0];
      Written(keys, rest) == k.name + [':'] + (['<'] + (TypeName(k.kind) + ['>'] + Marked(k.required, "{" + Below(keys, rest))))
  {
  }

  /** The first keys of two equal texts agree, and so do the texts below them. */
  lemma {:induction false} FirstRead(a: seq<Key>, b: seq<Key>, u: string, v: string)
    requires a != [] && b != [] && PlainKey(a[0]) && PlainKey(b[0]) && Written(a, u) == Written(b, v)
    ensures a[0].name == b[0].name && a[0].kind == b[0].kind && a[0].required == b[0].required && Below(a, u) == Below(b, v)
  {
    WrittenIs(a, u);
    WrittenIs(b, v);
    var x, y := a[0], b[0];
    var s, t := Marked(x.required, "{" + Below(a, u)), Marked(y.required, "{" + Below(b, v));
    ReadUpTo(x.name, y.name, ':', ['<'] + (TypeName(x.kind) + ['>'] + s), ['<'] + (TypeName(y.kind) + ['>'] + t));
    TailSame('<', TypeName(x.kind) + ['>'] + s, TypeName(y.kind) + ['>'] + t);
    NoEndOfType(x);
    NoEndOfType(y);
    ReadUpTo(TypeName(x.kind), TypeName(y.kind), '>', s, t);
    KindRead(x, y);
    MarkRead(x.required, y.required, Below(a, u), Below(b, v));
  }

  /** A text either ends at once or starts with a key. */
  lemma {:induction false} EndRead(a: seq<Key>, b: seq<Key>, u: string, v: string)
    requires PlainKeys(a) && PlainKeys(b) && Written(a, u) == Written(b, v)
    ensures a == [] <==> b == []
  {
    if a != [] { WrittenIs(a, u); Opens(a, u); }
    if b != [] { WrittenIs(b, v); Opens(b, v); }
  }

  lemma {:induction false} Opens(keys: seq<Key>, rest: string)
    requires keys != [] && PlainKey(keys[0])
    ensures Written(keys, rest) != [] && Written(keys, rest)[0] != '}'
  {
    WrittenIs(keys, rest);
  }

  lemma {:induction false} Read(a: seq<Key>, b: seq<Key>, u: string, v: string)
    requires PlainKeys(a) && PlainKeys(b) && Written(a, u) == Written(b, v)
    ensures ShapeOf(a) == ShapeOf(b) && u == v
    decreases a
  {
    EndRead(a, b, u, v);
    if a == [] {
      TailSame('}', u, v);
    } else {
      FirstRead(a, b, u, v);
      assert PlainKey(a[0]) && PlainKey(b[0]);
      Read(a[0].subkeys, b[0].subkeys, "," + Written(a[1..], u), "," + Written(b[1..], v));
      TailSame(',', Written(a[1..], u), Written(b[1..], v));
      Read(a[1..], b[1..], u, v);
      ShapeFirst(a);
      ShapeFirst(b);
    }
  }

  /** Equal signatures mean equal shapes, for names and types without separators. */
  lemma {:induction false} SignatureTells(a: seq<Key>, b: seq<Key>)
    requires PlainKeys(a) && PlainKeys(b) && Signature(a) == Signature(b)
    ensures ShapeOf(a) == ShapeOf(b)
  {
    TailSame('{', Written(a, ""), Written(b, ""));
    Read(a, b, "", "");
  }

  function TextKey(name: string): Key {
    Key(name, Scalar("string"), false, "", map[], [])
  }

  /** What follows the name of a text key. */
  const AS_TEXT := ":<string>{},"

  lemma {:induction false} TextGlue(name: string, w: string)
    ensures name + [':'] + (['<'] + ("string" + ['>'] + ("{" + ("}" + ("," + w))))) == name + AS_TEXT + w
  {
    assert ['<'] + ("string" + ['>'] + ("{" + ("}" + ("," + w)))) == "<string>{}," + w;
    assert [':'] + ("<string>{}," + w) == AS_TEXT + w;
  }

  lemma {:induction false} BelowText(name: string, more: seq<Key>, rest: string)
    ensures Below([TextKey(name)] + more, rest) == "}" + ("," + Written(more, rest))
  {
    var keys := [TextKey(name)] + more;
    assert keys[1..] == more && keys[0].subkeys == [];
  }

  lemma {:induction false} WrittenText(name: string, more: seq<Key>, rest: string)
    ensures Written([TextKey(name)] + more, rest) == name + AS_TEXT + Written(more, rest)
  {
    WrittenIs([TextKey(name)] + more, rest);
    BelowText(name, more, rest);
    TextGlue(name, Written(more, rest));
  }

  lemma {:induction false} Regroup(x: string, m: string, y: string, t: string)
    ensures x + m + y + m + t == x + m + (y + m + t)
  {
  }

  /** A name with separators in it can imitate two keys. */
  lemma {:induction false} SignatureCollides(x: string, y: string)
    ensures Signature([TextKey(x + AS_TEXT + y)]) == Signature([TextKey(x), TextKey(y)])
    ensures ShapeOf([TextKey(x + AS_TEXT + y)]) != ShapeOf([TextKey(x), TextKey(y)])
  {
    var one, first, second := TextKey(x + AS_TEXT + y), TextKey(x), TextKey(y);
    ShapeSize([one]);
    ShapeSize([first, second]);
    assert [one] == [one] + [] && [first, second] == [first] + [second] && [second] == [second] + [];
    WrittenText(x + AS_TEXT + y, [], "");
    WrittenText(x, [second], "");
    WrittenText(y, [], "");
    Regroup(x, AS_TEXT, y, Written([], ""));
  }
}
