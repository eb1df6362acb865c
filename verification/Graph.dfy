/** Reachability over the unit graph of the layout checker. */
module Graph {

  /** A unit maps to the units it imports; a unit that is only imported has no entry. */
  type Graph = map<string, seq<string>>

  function Succ(g: Graph, v: string): seq<string> {
    if v in g then g[v] else []
  }

  ghost predicate Edge(g: Graph, u: string, w: string) {
    w in Succ(g, u)
  }

  ghost function Nodes(g: Graph): set<string> {
    g.Keys + set u, w | u in g && w in g[u] :: w
  }

  ghost predicate Path(g: Graph, p: seq<string>) {
    |p| > 0 && forall i :: 0 <= i < |p| - 1 ==> Edge(g, p[i], p[i + 1])
  }

  ghost predicate Joins(g: Graph, p: seq<string>, u: string, v: string) {
    Path(g, p) && p[0] == u && p[|p| - 1] == v
  }

  ghost predicate Reach(g: Graph, u: string, v: string) {
    exists p :: Joins(g, p, u, v)
  }

  ghost predicate Mutual(g: Graph, u: string, v: string) {
    Reach(g, u, v) && Reach(g, v, u)
  }

  ghost predicate ClosedUnder(g: Graph, s: set<string>) {
    forall u, w :: u in s && Edge(g, u, w) ==> w in s
  }

  lemma {:induction false} ReachSelf(g: Graph, u: string)
    ensures Reach(g, u, u)
  {
    assert Joins(g, [u], u, u);
  }

  lemma {:induction false} ReachEdge(g: Graph, u: string, w: string)
    requires Edge(g, u, w)
    ensures Reach(g, u, w)
  {
    assert Joins(g, [u, w], u, w);
  }

  lemma {:induction false} ReachThrough(g: Graph, u: string, v: string, w: string)
    requires Reach(g, u, v) && Reach(g, v, w)
    ensures Reach(g, u, w)
  {
    var p :| Joins(g, p, u, v);
    var q :| Joins(g, q, v, w);
    var r := p + q[1..];
    forall i | 0 <= i < |r| - 1 ensures Edge(g, r[i], r[i + 1]) {
      if i >= |p| - 1 { assert r[i] == q[i - |p| + 1] && r[i + 1] == q[i - |p| + 2]; }
    }
    assert Joins(g, r, u, w);
  }

  /** Reachability cannot leave a closed set. */
  lemma {:induction false} ReachStaysIn(g: Graph, s: set<string>, u: string, v: string)
    requires ClosedUnder(g, s) && u in s && Reach(g, u, v)
    ensures v in s
  {
    var p :| Joins(g, p, u, v);
    var i := 0;
    while i < |p| - 1
      invariant i < |p|
      invariant p[i] in s
    {
      assert Edge(g, p[i], p[i + 1]);
      i := i + 1;
    }
  }

  lemma {:induction false} MutualSwap(g: Graph, u: string, v: string, w: string)
    requires Mutual(g, u, v)
    ensures Mutual(g, v, u)
    ensures Mutual(g, u, w) <==> Mutual(g, v, w)
  {
    if Mutual(g, u, w) {
      ReachThrough(g, v, u, w);
      ReachThrough(g, w, u, v);
    }
    if Mutual(g, v, w) {
      ReachThrough(g, u, v, w);
      ReachThrough(g, w, v, u);
    }
  }
}
