/** Name order and the sort by name that the source takes from Go's `sort` package. */
module Names {

  /** Byte-wise lexicographic order, as Go compares strings. */
  predicate Before(a: string, b: string) {
    if a == [] then b != []
    else if b == [] then false
    else a[0] < b[0] || (a[0] == b[0] && Before(a[1..], b[1..]))
  }

  lemma {:induction false} BeforeTotal(a: string, b: string)
    ensures Before(a, b) || a == b || Before(b, a)
    ensures !(Before(a, b) && Before(b, a))
    ensures Before(a, b) ==> a != b
  {
    if a != [] && b != [] && a[0] == b[0] {
      BeforeTotal(a[1..], b[1..]);
      assert a == [a[0]] + a[1..] && b == [b[0]] + b[1..];
    }
  }

  lemma {:induction false} BeforeTransitive(a: string, b: string, c: string)
    requires Before(a, b) && Before(b, c)
    ensures Before(a, c)
  {
    if a != [] && a[0] == b[0] == c[0] {
      BeforeTransitive(a[1..], b[1..], c[1..]);
    }
  }

  ghost predicate Increasing<T>(s: seq<T>, key: T -> string) {
    forall i, j :: 0 <= i < j < |s| ==> Before(key(s[i]), key(s[j]))
  }

  ghost predicate DistinctKeys<T>(s: seq<T>, key: T -> string) {
    forall i, j :: 0 <= i < j < |s| ==> key(s[i]) != key(s[j])
  }

  /** Sorting a sequence with pairwise different keys puts the same elements in strictly increasing order. */
  method Sort<T>(s: seq<T>, key: T -> string) returns (r: seq<T>)
    requires DistinctKeys(s, key)
    ensures |r| == |s|
    ensures forall x :: x in r <==> x in s
    ensures Increasing(r, key)
  {
    r := [];
    for n := 0 to |s|
      invariant |r| == n
      invariant forall x :: x in r <==> x in s[..n]
      invariant Increasing(r, key)
    {
      var k := Place(r, s[n], key);
      var t := r[..k] + [s[n]] + r[k..];
      assert s[..n + 1] == s[..n] + [s[n]];
      InsertedMembers(r, k, s[n]);
      r := t;
    }
    assert s[..|s|] == s;
  }

  function Itself(name: string): string { name }

  /** The members of a set of names, in order. */
  method SortedNames(names: set<string>) returns (keys: seq<string>)
    ensures forall x :: x in keys <==> x in names
    ensures Increasing(keys, Itself)
  {
    keys := [];
    var rest := names;
    while rest != {}
      invariant rest <= names
      invariant forall x :: x in keys <==> x in names && x !in rest
      invariant DistinctKeys(keys, Itself)
      decreases rest
    {
      var x :| x in rest;
      keys := keys + [x];
      rest := rest - {x};
    }
    keys := Sort(keys, Itself);
  }

  lemma {:induction false} InsertedMembers<T>(r: seq<T>, k: nat, e: T)
    requires k <= |r|
    ensures forall x :: x in r[..k] + [e] + r[k..] <==> x in r || x == e
  {
    assert r == r[..k] + r[k..];
  }

  /** Where a new key belongs in an increasing sequence. */
  method Place<T>(r: seq<T>, e: T, key: T -> string) returns (k: nat)
    requires Increasing(r, key)
    requires forall x :: x in r ==> key(x) != key(e)
    ensures k <= |r|
    ensures Increasing(r[..k] + [e] + r[k..], key)
  {
    k := 0;
    while k < |r| && Before(key(r[k]), key(e))
      invariant k <= |r|
      invariant forall i :: 0 <= i < k ==> Before(key(r[i]), key(e))
    {
      k := k + 1;
    }
    forall i | k <= i < |r| ensures Before(key(e), key(r[i])) {
      BeforeTotal(key(r[k]), key(e));
      if k < i { BeforeTransitive(key(e), key(r[k]), key(r[i])); }
    }
  }

  /** Strictly increasing sequences are determined by their elements. */
  lemma {:induction false} IncreasingUnique<T>(a: seq<T>, b: seq<T>, key: T -> string)
    requires Increasing(a, key) && Increasing(b, key)
    requires forall x :: x in a <==> x in b
    ensures a == b
  {
    if a == [] {
      assert forall i :: 0 <= i < |b| ==> b[i] in a;
    } else {
      assert a[0] in b;
      assert b[0] in a;
      SmallestFirst(a, b, key);
      TailMembers(a, key);
      TailMembers(b, key);
      IncreasingUnique(a[1..], b[1..], key);
      assert a == [a[0]] + a[1..] && b == [b[0]] + b[1..];
    }
  }

  lemma {:induction false} SmallestFirst<T>(a: seq<T>, b: seq<T>, key: T -> string)
    requires Increasing(a, key) && Increasing(b, key)
    requires a != [] && b != [] && a[0] in b && b[0] in a
    ensures a[0] == b[0]
  {
    var i :| 0 <= i < |b| && b[i] == a[0];
    var j :| 0 <= j < |a| && a[j] == b[0];
    if i > 0 && j > 0 { BeforeTotal(key(a[0]), key(b[0])); }
  }

  lemma {:induction false} TailMembers<T>(a: seq<T>, key: T -> string)
    requires Increasing(a, key) && a != []
    ensures forall x :: x in a[1..] <==> x in a && x != a[0]
  {
    forall x | x in a[1..] ensures x in a && x != a[0] {
      var i :| 0 <= i < |a[1..]| && a[1..][i] == x;
      BeforeTotal(key(a[0]), key(a[i + 1]));
    }
  }

  lemma {:induction false} SubsetSize<T>(a: set<T>, b: set<T>)
    requires a <= b
    ensures |a| <= |b|
  {
    assert b == a + (b - a);
  }
}
