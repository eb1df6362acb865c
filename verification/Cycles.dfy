/** `Cycles` of the layout checker: Tarjan's search for import loops between units. */
module Cycles {
  import opened Graph
  import opened Names

  function First(group: seq<string>): string {
    if group == [] then "" else group[0]
  }

  /** A group lists exactly one strongly connected component of two or more units, in name order. */
  ghost predicate Group(g: Graph, c: seq<string>) {
    && |c| >= 2
    && Increasing(c, Itself)
    && forall y :: y in c <==> Mutual(g, c[0], y)
  }

  /** What the caller is promised: every loop once, and nothing else, in a fixed order. */
  ghost predicate Report(g: Graph, out: seq<seq<string>>) {
    && (forall c :: c in out ==> Group(g, c))
    && (forall u, v :: u != v && Mutual(g, u, v) ==> exists c :: c in out && u in c)
    && Increasing(out, First)
  }

  // ----- The search state, as a value -----

  datatype Env = Env(
    index: map<string, int>,
    low: map<string, int>,
    on: map<string, bool>,
    stack: seq<string>,
    out: seq<seq<string>>,
    next: int)

  ghost function Popped(e: Env): set<string> {
    set x | x in e.index && x !in e.stack
  }

  /** Numbers are handed out in order, and the stack is ordered by them. */
  ghost predicate Numbered(e: Env) {
    && e.low.Keys == e.index.Keys
    && (forall x :: x in e.index ==> e.index[x] < e.next)
    && (forall i :: 0 <= i < |e.stack| ==> e.stack[i] in e.index)
    && (forall i, j :: 0 <= i < j < |e.stack| ==> e.index[e.stack[i]] < e.index[e.stack[j]])
    && (forall x :: (x in e.on && e.on[x]) <==> x in e.stack)
  }

  /** Units being visited are on the stack; a finished unit has only numbered successors. */
  ghost predicate Coloured(g: Graph, e: Env, gray: set<string>) {
    && (forall x :: x in gray ==> x in e.stack)
    && (forall x, w :: x in e.index && x !in gray && Edge(g, x, w) ==> w in e.index)
  }

  /** `y` leads back to a unit still being visited that was numbered no later. */
  ghost predicate LeadsBack(g: Graph, e: Env, gray: set<string>, i: nat)
    requires i < |e.stack|
  {
    exists j :: 0 <= j <= i && e.stack[j] in gray && Reach(g, e.stack[i], e.stack[j])
  }

  ghost predicate Linked(g: Graph, e: Env, gray: set<string>) {
    && (forall i, j :: 0 <= i <= j < |e.stack| ==> Reach(g, e.stack[i], e.stack[j]))
    && (forall i :: 0 <= i < |e.stack| ==> LeadsBack(g, e, gray, i))
  }

  ghost predicate Covered(out: seq<seq<string>>, x: string) {
    exists i :: 0 <= i < |out| && x in out[i]
  }

  /** `x` lies on no loop through another unit. */
  ghost predicate Alone(g: Graph, x: string) {
    forall y :: Mutual(g, x, y) ==> y == x
  }

  /** The groups found so far are exactly the loops among the popped units. */
  ghost predicate Grouped(g: Graph, e: Env) {
    && (forall i :: 0 <= i < |e.out| ==> Group(g, e.out[i]))
    && (forall x :: Covered(e.out, x) ==> x in Popped(e))
    && (forall x :: x in Popped(e) ==> Covered(e.out, x) || Alone(g, x))
    && Disjoint(e.out)
  }

  ghost predicate Disjoint(out: seq<seq<string>>) {
    forall i, j, x :: 0 <= i < j < |out| && x in out[i] ==> x !in out[j]
  }

  ghost predicate Inv(g: Graph, e: Env, gray: set<string>) {
    && e.index.Keys <= Nodes(g)
    && Numbered(e)
    && Coloured(g, e, gray)
    && Linked(g, e, gray)
    && ClosedUnder(g, Popped(e))
    && Grouped(g, e)
  }

  ghost predicate Extends(a: Env, b: Env) {
    && (forall x :: x in a.index ==> x in b.index && b.index[x] == a.index[x])
    && (forall x :: x in a.low ==> x in b.low && b.low[x] == a.low[x])
    && (forall x :: x in b.index && x !in a.index ==> a.next <= b.index[x])
    && a.stack <= b.stack
    && a.next <= b.next
  }

  /** No edge from the stack above `k` back below `k` ends under number `bound`. */
  ghost predicate Bounded(g: Graph, e: Env, lo: nat, k: nat, bound: int)
    requires k <= lo && k <= |e.stack| && forall i :: 0 <= i < |e.stack| ==> e.stack[i] in e.index
  {
    forall i, j :: lo <= i < |e.stack| && 0 <= j < k && Edge(g, e.stack[i], e.stack[j]) ==>
      bound <= e.index[e.stack[j]]
  }

  ghost predicate Witness(g: Graph, e: Env, v: string, bound: int)
    requires forall i :: 0 <= i < |e.stack| ==> e.stack[i] in e.index
  {
    exists i :: 0 <= i < |e.stack| && e.index[e.stack[i]] == bound && Reach(g, v, e.stack[i])
  }

  /** What a finished visit of `v` establishes. */
  ghost predicate Visited(g: Graph, a: Env, b: Env, v: string, gray: set<string>) {
    && Inv(g, b, gray)
    && Extends(a, b)
    && v in b.index
    && b.low[v] <= b.index[v]
    && (v in b.stack ==> Witness(g, b, v, b.low[v]))
    && (v !in b.stack ==> b.low[v] == b.index[v])
    && Bounded(g, b, |a.stack|, |a.stack|, b.low[v])
  }

  /** `v` sits just above the stack it was called with, and its first `n` successors are numbered. */
  ghost predicate Opened(g: Graph, a: Env, b: Env, v: string, gray: set<string>, n: nat) {
    && n <= |Succ(g, v)|
    && Extends(a, b)
    && v !in a.index && v !in a.low && v !in gray
    && (forall x :: x in gray ==> x in a.stack)
    && |a.stack| < |b.stack| && b.stack[|a.stack|] == v
    && v in b.index && b.index[v] == a.next
    && (forall m :: 0 <= m < n ==> Succ(g, v)[m] in b.index)
  }

  /** `low[v]` is a number that `v` reaches on the stack, and no seen edge goes below it. */
  ghost predicate LowAt(g: Graph, b: Env, v: string, k: nat, n: nat)
    requires Numbered(b) && v in b.index && k < |b.stack| && n <= |Succ(g, v)|
  {
    && b.low[v] <= b.index[v]
    && Witness(g, b, v, b.low[v])
    && Bounded(g, b, k + 1, k, b.low[v])
    && (forall m, j :: 0 <= m < n && 0 <= j < k && Succ(g, v)[m] == b.stack[j] ==>
         b.low[v] <= b.index[b.stack[j]])
  }

  /** The state while `v` is being visited and its first `n` successors are done. */
  ghost predicate Visiting(g: Graph, a: Env, b: Env, v: string, gray: set<string>, n: nat) {
    && Opened(g, a, b, v, gray, n)
    && Inv(g, b, gray + {v})
    && LowAt(g, b, v, |a.stack|, n)
  }

  ghost predicate MayVisit(g: Graph, a: Env, v: string, gray: set<string>) {
    && Inv(g, a, gray)
    && v in Nodes(g) && v !in a.index
    && (forall x :: x in gray ==> Reach(g, x, v))
  }

  function Pushed(a: Env, v: string): Env {
    Env(a.index[v := a.next], a.low[v := a.next], a.on[v := true], a.stack + [v], a.out, a.next + 1)
  }

  lemma {:induction false} PushStarts(g: Graph, a: Env, v: string, gray: set<string>)
    requires MayVisit(g, a, v, gray)
    ensures Visiting(g, a, Pushed(a, v), v, gray, 0)
  {
    var b := Pushed(a, v);
    assert b.stack[|a.stack|] == v;
    assert Popped(b) == Popped(a);
    PushLinked(g, a, v, gray);
    PushNumbered(a, v);
    ReachSelf(g, v);
    assert Witness(g, b, v, b.low[v]) by { assert b.index[b.stack[|a.stack|]] == a.next; }
    assert Grouped(g, b);
  }

  lemma {:induction false} PushNumbered(a: Env, v: string)
    requires Numbered(a) && v !in a.index
    ensures Numbered(Pushed(a, v))
  {
    var b := Pushed(a, v);
    assert forall x :: x in b.stack <==> x in a.stack || x == v;
    assert forall i :: 0 <= i < |a.stack| ==> b.stack[i] == a.stack[i];
  }

  lemma {:induction false} PushLinked(g: Graph, a: Env, v: string, gray: set<string>)
    requires Linked(g, a, gray)
    requires forall x :: x in gray ==> Reach(g, x, v)
    ensures Linked(g, Pushed(a, v), gray + {v})
  {
    var b := Pushed(a, v);
    var k := |a.stack|;
    assert forall i :: 0 <= i < k ==> b.stack[i] == a.stack[i];
    assert b.stack[k] == v;
    ReachSelf(g, v);
    forall i | 0 <= i < k ensures Reach(g, b.stack[i], v) && LeadsBack(g, b, gray + {v}, i) {
      assert LeadsBack(g, a, gray, i);
      var j :| 0 <= j <= i && a.stack[j] in gray && Reach(g, a.stack[i], a.stack[j]);
      ReachThrough(g, a.stack[i], a.stack[j], v);
      assert b.stack[j] in gray + {v} && Reach(g, b.stack[i], b.stack[j]);
    }
    assert LeadsBack(g, b, gray + {v}, k);
  }

  // ----- One successor of the visited unit -----

  function Lowered(e: Env, v: string, bound: int): Env
    requires v in e.low
  {
    e.(low := e.low[v := if bound < e.low[v] then bound else e.low[v]])
  }

  lemma {:induction false} LoweredKeeps(g: Graph, e: Env, v: string, bound: int, gray: set<string>)
    requires Inv(g, e, gray) && v in e.low
    ensures Inv(g, Lowered(e, v, bound), gray)
  {
    var d := Lowered(e, v, bound);
    assert d.low.Keys == e.low.Keys;
    assert Popped(d) == Popped(e);
    forall i | 0 <= i < |d.stack| ensures LeadsBack(g, d, gray, i) {
      assert LeadsBack(g, e, gray, i);
    }
  }

  lemma {:induction false} ChildMayVisit(g: Graph, a: Env, b: Env, v: string, gray: set<string>, n: nat)
    requires Visiting(g, a, b, v, gray, n) && n < |Succ(g, v)| && Succ(g, v)[n] !in b.index
    ensures MayVisit(g, b, Succ(g, v)[n], gray + {v})
  {
    var w := Succ(g, v)[n];
    assert Edge(g, v, w);
    assert w in Nodes(g);
    ReachEdge(g, v, w);
    forall x | x in gray + {v} ensures Reach(g, x, w) {
      if x != v {
        var i :| 0 <= i < |a.stack| && a.stack[i] == x;
        assert b.stack[i] == x;
        assert Reach(g, b.stack[i], b.stack[|a.stack|]);
        ReachThrough(g, x, v, w);
      }
    }
  }

  lemma {:induction false} ChildDone(g: Graph, a: Env, b: Env, c: Env, v: string, gray: set<string>, n: nat)
    requires Visiting(g, a, b, v, gray, n) && n < |Succ(g, v)|
    requires Succ(g, v)[n] !in b.index
    requires Visited(g, b, c, Succ(g, v)[n], gray + {v})
    ensures v in c.low
    ensures Visiting(g, a, Lowered(c, v, c.low[Succ(g, v)[n]]), v, gray, n + 1)
  {
    var w := Succ(g, v)[n];
    LoweredKeeps(g, c, v, c.low[w], gray + {v});
    ChildWitness(g, b, c, v, w);
    ChildBounds(g, b, c, v, |a.stack|, n);
    StillOpened(g, a, b, c, v, gray, n, c.low[w]);
  }

  lemma {:induction false} StillOpened(g: Graph, a: Env, b: Env, c: Env, v: string, gray: set<string>, n: nat, bound: int)
    requires Opened(g, a, b, v, gray, n) && n < |Succ(g, v)| && v in b.low
    requires Extends(b, c) && Succ(g, v)[n] in c.index
    ensures Opened(g, a, Lowered(c, v, bound), v, gray, n + 1)
  {
  }

  lemma {:induction false} ChildWitness(g: Graph, b: Env, c: Env, v: string, w: string)
    requires Numbered(b) && Numbered(c) && Extends(b, c)
    requires Edge(g, v, w) && w !in b.index && v in b.index && w in c.index
    requires b.low[v] <= b.index[v] && Witness(g, b, v, b.low[v])
    requires w in c.stack ==> Witness(g, c, w, c.low[w])
    requires w !in c.stack ==> c.low[w] == c.index[w]
    ensures Witness(g, Lowered(c, v, c.low[w]), v, Lowered(c, v, c.low[w]).low[v])
  {
    var d := Lowered(c, v, c.low[w]);
    if c.low[w] < c.low[v] {
      var i :| 0 <= i < |c.stack| && c.index[c.stack[i]] == c.low[w] && Reach(g, w, c.stack[i]);
      ReachEdge(g, v, w);
      ReachThrough(g, v, w, c.stack[i]);
      assert d.index[d.stack[i]] == d.low[v] && Reach(g, v, d.stack[i]);
    } else {
      var i :| 0 <= i < |b.stack| && b.index[b.stack[i]] == b.low[v] && Reach(g, v, b.stack[i]);
      assert d.stack[i] == b.stack[i];
    }
  }

  lemma {:induction false} ChildBounds(g: Graph, b: Env, c: Env, v: string, k: nat, n: nat)
    requires Numbered(b) && Numbered(c) && Extends(b, c) && v in b.index
    requires n < |Succ(g, v)| && Succ(g, v)[n] !in b.index && Succ(g, v)[n] in c.index
    requires k < |b.stack| && LowAt(g, b, v, k, n)
    requires Bounded(g, c, |b.stack|, |b.stack|, c.low[Succ(g, v)[n]])
    ensures var d := Lowered(c, v, c.low[Succ(g, v)[n]]);
      && Bounded(g, d, k + 1, k, d.low[v])
      && forall m, j :: 0 <= m < n + 1 && 0 <= j < k && Succ(g, v)[m] == d.stack[j] ==>
           d.low[v] <= d.index[d.stack[j]]
  {
    var w := Succ(g, v)[n];
    var d := Lowered(c, v, c.low[w]);
    forall i, j | k + 1 <= i < |d.stack| && 0 <= j < k && Edge(g, d.stack[i], d.stack[j])
      ensures d.low[v] <= d.index[d.stack[j]]
    {
      if i < |b.stack| {
        assert Edge(g, b.stack[i], b.stack[j]);
      } else {
        assert Edge(g, c.stack[i], c.stack[j]);
      }
    }
    forall m, j | 0 <= m < n + 1 && 0 <= j < k && Succ(g, v)[m] == d.stack[j]
      ensures d.low[v] <= d.index[d.stack[j]]
    {
      assert d.stack[j] == b.stack[j];
    }
  }

  /** A successor already on the stack lowers `v` to its number. */
  lemma {:induction false} BackEdge(g: Graph, a: Env, b: Env, v: string, gray: set<string>, n: nat)
    requires Visiting(g, a, b, v, gray, n) && n < |Succ(g, v)|
    requires Succ(g, v)[n] in b.stack
    ensures Visiting(g, a, Lowered(b, v, b.index[Succ(g, v)[n]]), v, gray, n + 1)
  {
    LoweredKeeps(g, b, v, b.index[Succ(g, v)[n]], gray + {v});
    BackEdgeLow(g, b, v, |a.stack|, n);
  }

  lemma {:induction false} BackEdgeLow(g: Graph, b: Env, v: string, k: nat, n: nat)
    requires Numbered(b) && v in b.index && k < |b.stack| && n < |Succ(g, v)|
    requires Succ(g, v)[n] in b.stack && LowAt(g, b, v, k, n)
    requires Numbered(Lowered(b, v, b.index[Succ(g, v)[n]]))
    ensures LowAt(g, Lowered(b, v, b.index[Succ(g, v)[n]]), v, k, n + 1)
  {
    var w := Succ(g, v)[n];
    var d := Lowered(b, v, b.index[w]);
    assert Witness(g, d, v, d.low[v]) by {
      if b.index[w] < b.low[v] {
        var i :| 0 <= i < |b.stack| && b.stack[i] == w;
        ReachEdge(g, v, w);
        assert d.index[d.stack[i]] == d.low[v] && Reach(g, v, d.stack[i]);
      } else {
        var i :| 0 <= i < |b.stack| && b.index[b.stack[i]] == b.low[v] && Reach(g, v, b.stack[i]);
        assert d.index[d.stack[i]] == d.low[v];
      }
    }
    forall i, j | k + 1 <= i < |d.stack| && 0 <= j < k && Edge(g, d.stack[i], d.stack[j])
      ensures d.low[v] <= d.index[d.stack[j]]
    {
      assert Edge(g, b.stack[i], b.stack[j]);
    }
  }

  /** A successor in an earlier component changes nothing. */
  lemma {:induction false} PoppedEdge(g: Graph, a: Env, b: Env, v: string, gray: set<string>, n: nat)
    requires Visiting(g, a, b, v, gray, n) && n < |Succ(g, v)|
    requires Succ(g, v)[n] in b.index && Succ(g, v)[n] !in b.stack
    ensures Visiting(g, a, b, v, gray, n + 1)
  {
  }

  // ----- Leaving the visited unit -----

  lemma {:induction false} StackDistinct(e: Env, i: nat, j: nat)
    requires Numbered(e) && i < |e.stack| && j < |e.stack| && e.stack[i] == e.stack[j]
    ensures i == j
  {
  }

  /** Once all successors of `v` are done, `v` counts as finished and its own edges obey the bound. */
  lemma {:induction false} AllSuccessorsDone(g: Graph, a: Env, b: Env, v: string, gray: set<string>)
    requires Opened(g, a, b, v, gray, |Succ(g, v)|)
    requires Numbered(b) && Coloured(g, b, gray + {v}) && LowAt(g, b, v, |a.stack|, |Succ(g, v)|)
    ensures Coloured(g, b, gray)
    ensures Bounded(g, b, |a.stack|, |a.stack|, b.low[v])
  {
    forall x, w | x in b.index && x !in gray && Edge(g, x, w) ensures w in b.index {
      if x == v {
        var m :| 0 <= m < |Succ(g, v)| && Succ(g, v)[m] == w;
      }
    }
    var k := |a.stack|;
    forall i, j | k <= i < |b.stack| && 0 <= j < k && Edge(g, b.stack[i], b.stack[j])
      ensures b.low[v] <= b.index[b.stack[j]]
    {
      if i == k {
        var m :| 0 <= m < |Succ(g, v)| && Succ(g, v)[m] == b.stack[j];
      }
    }
  }

  /** `v` reached an older unit, so it stays on the stack and hands its bound to the caller. */
  lemma {:induction false} Retreat(g: Graph, a: Env, b: Env, v: string, gray: set<string>)
    requires Visiting(g, a, b, v, gray, |Succ(g, v)|) && b.low[v] != b.index[v]
    ensures Visited(g, a, b, v, gray)
  {
    forall i | 0 <= i < |b.stack| ensures LeadsBack(g, b, gray, i) {
      RetreatLeadsBack(g, b, v, |a.stack|, gray, i);
    }
    AllSuccessorsDone(g, a, b, v, gray);
  }

  lemma {:induction false} RetreatLeadsBack(g: Graph, b: Env, v: string, k: nat, gray: set<string>, i: nat)
    requires Numbered(b) && Linked(g, b, gray + {v})
    requires k < |b.stack| && b.stack[k] == v && i < |b.stack|
    requires b.low[v] < b.index[v] && Witness(g, b, v, b.low[v])
    ensures LeadsBack(g, b, gray, i)
  {
    assert LeadsBack(g, b, gray + {v}, i);
    var j :| 0 <= j <= i && b.stack[j] in gray + {v} && Reach(g, b.stack[i], b.stack[j]);
    if b.stack[j] == v {
      StackDistinct(b, j, k);
      var q := OlderGray(g, b, v, k, gray);
      ReachThrough(g, b.stack[i], v, b.stack[q]);
    }
  }

  lemma {:induction false} OlderGray(g: Graph, b: Env, v: string, k: nat, gray: set<string>) returns (q: nat)
    requires Numbered(b) && Linked(g, b, gray + {v})
    requires k < |b.stack| && b.stack[k] == v
    requires b.low[v] < b.index[v] && Witness(g, b, v, b.low[v])
    ensures q < k && b.stack[q] in gray && Reach(g, v, b.stack[q])
  {
    var p :| 0 <= p < |b.stack| && b.index[b.stack[p]] == b.low[v] && Reach(g, v, b.stack[p]);
    assert p < k;
    q := BackTo(g, b, gray + {v}, p);
    ReachThrough(g, v, b.stack[p], b.stack[q]);
    OtherPlace(b, q, k);
  }

  lemma {:induction false} BackTo(g: Graph, b: Env, gray: set<string>, p: nat) returns (q: nat)
    requires Linked(g, b, gray) && p < |b.stack|
    ensures q <= p && b.stack[q] in gray && Reach(g, b.stack[p], b.stack[q])
  {
    assert LeadsBack(g, b, gray, p);
    q :| 0 <= q <= p && b.stack[q] in gray && Reach(g, b.stack[p], b.stack[q]);
  }

  lemma {:induction false} OtherPlace(b: Env, q: nat, k: nat)
    requires Numbered(b) && q < k < |b.stack|
    ensures b.stack[q] != b.stack[k]
  {
  }

  /** `v` at height `k` reached nothing older: no edge leaves the stack from `v` up for a lower part. */
  ghost predicate Rooted(g: Graph, b: Env, v: string, k: nat, gray: set<string>) {
    && Numbered(b)
    && k < |b.stack| && b.stack[k] == v
    && (forall x :: x in gray ==> x in b.stack[..k])
    && Coloured(g, b, gray)
    && Linked(g, b, gray + {v})
    && ClosedUnder(g, Popped(b))
    && Bounded(g, b, k, k, b.index[v])
  }

  /** Everything on the stack from `v` up, together with what was popped before. */
  ghost function Finished(b: Env, k: nat): set<string>
    requires k <= |b.stack|
  {
    Popped(b) + set x | x in b.stack[k..]
  }

  lemma {:induction false} FinishedClosed(g: Graph, b: Env, v: string, k: nat, gray: set<string>)
    requires Rooted(g, b, v, k, gray)
    ensures ClosedUnder(g, Finished(b, k))
  {
    forall u, w | u in Finished(b, k) && Edge(g, u, w) ensures w in Finished(b, k) {
      if u !in Popped(b) {
        var i :| 0 <= i < |b.stack[k..]| && b.stack[k..][i] == u;
        assert b.stack[k + i] == u;
        TopEdge(g, b, v, k, gray, k + i, w);
      }
    }
  }

  lemma {:induction false} TopEdge(g: Graph, b: Env, v: string, k: nat, gray: set<string>, i: nat, w: string)
    requires Numbered(b) && k <= i < |b.stack| && b.stack[k] == v
    requires forall x :: x in gray ==> x in b.stack[..k]
    requires Coloured(g, b, gray) && Bounded(g, b, k, k, b.index[v])
    requires Edge(g, b.stack[i], w)
    ensures w in Finished(b, k)
  {
    if w in b.stack {
      var j :| 0 <= j < |b.stack| && b.stack[j] == w;
      if j >= k { assert b.stack[k..][j - k] == w; }
    }
  }

  /** At a root, the stack from `v` up is exactly the component of `v`. */
  lemma {:induction false} RootComponent(g: Graph, b: Env, v: string, k: nat, gray: set<string>, y: string)
    requires Rooted(g, b, v, k, gray)
    ensures y in b.stack[k..] <==> Mutual(g, v, y)
  {
    FinishedClosed(g, b, v, k, gray);
    assert b.stack[k..][0] == v;
    if y in b.stack[k..] {
      var i :| 0 <= i < |b.stack[k..]| && b.stack[k..][i] == y;
      assert Reach(g, b.stack[k], b.stack[k + i]);
      assert LeadsBack(g, b, gray + {v}, k + i);
      RootReachesBack(g, b, v, k, gray, k + i);
    }
    if Mutual(g, v, y) {
      ReachStaysIn(g, Finished(b, k), v, y);
      if y in Popped(b) { ReachStaysIn(g, Popped(b), y, v); }
    }
  }

  lemma {:induction false} RootReachesBack(g: Graph, b: Env, v: string, k: nat, gray: set<string>, i: nat)
    requires k <= i < |b.stack| && b.stack[k] == v
    requires Numbered(b) && LeadsBack(g, b, gray + {v}, i) && ClosedUnder(g, Finished(b, k))
    requires forall x :: x in gray ==> x in b.stack[..k]
    ensures Reach(g, b.stack[i], v)
  {
    var j :| 0 <= j <= i && b.stack[j] in gray + {v} && Reach(g, b.stack[i], b.stack[j]);
    if b.stack[j] != v {
      assert b.stack[k..][i - k] == b.stack[i];
      ReachStaysIn(g, Finished(b, k), b.stack[i], b.stack[j]);
      GrayBelow(b, k, j, gray);
    }
  }

  lemma {:induction false} GrayBelow(b: Env, k: nat, j: nat, gray: set<string>)
    requires Numbered(b) && k <= |b.stack| && j < |b.stack| && b.stack[j] in gray
    requires forall x :: x in gray ==> x in b.stack[..k]
    ensures b.stack[j] !in Finished(b, k)
  {
    var p :| 0 <= p < k && b.stack[p] == b.stack[j];
  }

  /** The state after the stack is cut back to height `k` and the units cut off are reported. */
  ghost predicate CutBack(b: Env, d: Env, k: nat, comp: seq<string>) {
    && k < |b.stack|
    && d.index == b.index && d.low == b.low && d.next == b.next
    && d.stack == b.stack[..k]
    && (forall x :: (x in d.on && d.on[x]) <==> x in d.stack)
    && |comp| == |b.stack| - k
    && (forall x :: x in comp <==> x in b.stack[k..])
    && Increasing(comp, Itself)
    && d.out == if |comp| > 1 then b.out + [comp] else b.out
  }

  lemma {:induction false} CutKeeps(g: Graph, b: Env, d: Env, v: string, k: nat, gray: set<string>, comp: seq<string>)
    requires Rooted(g, b, v, k, gray) && b.index.Keys <= Nodes(g) && Grouped(g, b)
    requires CutBack(b, d, k, comp)
    ensures Inv(g, d, gray)
    ensures v !in d.stack
  {
    CutPopped(b, d, k, comp);
    FinishedClosed(g, b, v, k, gray);
    CutLinked(g, b, d, v, k, gray);
    forall y ensures y in comp <==> Mutual(g, v, y) {
      RootComponent(g, b, v, k, gray, y);
    }
    assert b.stack[k..][0] == v;
    CutGrouped(g, b, d, v, k, comp);
    CutNumbered(b, d, v, k, gray);
  }

  lemma {:induction false} CutPopped(b: Env, d: Env, k: nat, comp: seq<string>)
    requires Numbered(b) && CutBack(b, d, k, comp)
    ensures Popped(d) == Finished(b, k)
    ensures forall x :: x in Popped(d) <==> x in Popped(b) || x in comp
  {
    assert b.stack == b.stack[..k] + b.stack[k..];
    forall x | x in b.stack[k..] ensures x in b.index && x !in d.stack {
      var j :| 0 <= j < |b.stack[k..]| && b.stack[k..][j] == x;
      assert b.stack[k + j] == x;
      forall i | 0 <= i < k ensures d.stack[i] != x {
        assert b.index[b.stack[i]] < b.index[b.stack[k + j]];
      }
    }
  }

  lemma {:induction false} CutNumbered(b: Env, d: Env, v: string, k: nat, gray: set<string>)
    requires Numbered(b) && k < |b.stack| && b.stack[k] == v
    requires d.index == b.index && d.low == b.low && d.next == b.next && d.stack == b.stack[..k]
    requires forall x :: (x in d.on && d.on[x]) <==> x in d.stack
    ensures Numbered(d)
    ensures v !in d.stack
  {
  }

  lemma {:induction false} CutLinked(g: Graph, b: Env, d: Env, v: string, k: nat, gray: set<string>)
    requires Numbered(b) && Linked(g, b, gray + {v})
    requires k < |b.stack| && b.stack[k] == v && d.stack == b.stack[..k]
    ensures Linked(g, d, gray)
  {
    forall i | 0 <= i < k ensures LeadsBack(g, d, gray, i) {
      assert LeadsBack(g, b, gray + {v}, i);
      var j :| 0 <= j <= i && b.stack[j] in gray + {v} && Reach(g, b.stack[i], b.stack[j]);
      assert b.index[b.stack[j]] < b.index[b.stack[k]];
      assert d.stack[j] in gray && Reach(g, d.stack[i], d.stack[j]);
    }
  }

  lemma {:induction false} CutGrouped(g: Graph, b: Env, d: Env, v: string, k: nat, comp: seq<string>)
    requires Grouped(g, b) && Increasing(comp, Itself) && v in comp
    requires forall y :: y in comp <==> Mutual(g, v, y)
    requires forall x :: x in comp ==> x !in Popped(b)
    requires forall x :: x in Popped(d) <==> x in Popped(b) || x in comp
    requires d.out == if |comp| > 1 then b.out + [comp] else b.out
    ensures Grouped(g, d)
  {
    forall x | x in comp && |comp| > 1 ensures Covered(d.out, x) {
      assert x in d.out[|b.out|];
    }
    forall x | Covered(b.out, x) ensures Covered(d.out, x) {
      var i :| 0 <= i < |b.out| && x in b.out[i];
      assert x in d.out[i];
    }
    if |comp| > 1 {
      MutualWithFirst(g, v, comp);
      forall x | Covered(d.out, x) ensures x in Popped(d) {
        var i :| 0 <= i < |d.out| && x in d.out[i];
        if i < |b.out| { assert x in b.out[i]; }
      }
      forall i, j, x | 0 <= i < j < |d.out| && x in d.out[i] ensures x !in d.out[j] {
        assert x in b.out[i] && Covered(b.out, x);
      }
    } else {
      assert comp == [v];
      assert Alone(g, v);
    }
  }

  lemma {:induction false} MutualWithFirst(g: Graph, v: string, comp: seq<string>)
    requires |comp| > 1 && Increasing(comp, Itself)
    requires forall y :: y in comp <==> Mutual(g, v, y)
    ensures Group(g, comp)
  {
    assert comp[0] in comp;
    forall y ensures y in comp <==> Mutual(g, comp[0], y) {
      MutualSwap(g, v, comp[0], y);
    }
  }

  /** `v` is the oldest unit of its component: the component leaves the stack as one group. */
  lemma {:induction false} RootLeaves(g: Graph, a: Env, b: Env, d: Env, v: string, gray: set<string>, comp: seq<string>)
    requires Visiting(g, a, b, v, gray, |Succ(g, v)|) && b.low[v] == b.index[v]
    requires CutBack(b, d, |a.stack|, comp)
    ensures Visited(g, a, d, v, gray)
  {
    AllSuccessorsDone(g, a, b, v, gray);
    assert Rooted(g, b, v, |a.stack|, gray);
    CutKeeps(g, b, d, v, |a.stack|, gray, comp);
    assert Extends(a, d);
  }

  // ----- The search itself -----

  class Search {
    const g: Graph
    var index: map<string, int>
    var low: map<string, int>
    var on: map<string, bool>
    var stack: seq<string>
    var out: seq<seq<string>>
    var next: int

    constructor (g: Graph)
      ensures this.g == g && Snapshot() == Env(map[], map[], map[], [], [], 0)
    {
      this.g := g;
      index, low, on, stack, out, next := map[], map[], map[], [], [], 0;
    }

    ghost function Snapshot(): Env
      reads this
    {
      Env(index, low, on, stack, out, next)
    }

    /** Visits `v` and everything not yet numbered that it reaches. */
    method Strong(v: string, ghost gray: set<string>)
      requires MayVisit(g, Snapshot(), v, gray)
      modifies this
      ensures Visited(g, old(Snapshot()), Snapshot(), v, gray)
      decreases Nodes(g) - index.Keys, 0
    {
      ghost var a := Snapshot();
      PushStarts(g, a, v, gray);
      index, low := index[v := next], low[v := next];
      next := next + 1;
      stack := stack + [v];
      on := on[v := true];
      assert Snapshot() == Pushed(a, v);
      var n := 0;
      while n < |Succ(g, v)|
        invariant Visiting(g, a, Snapshot(), v, gray, n)
        decreases |Succ(g, v)| - n
      {
        Follow(v, n, gray, a);
        n := n + 1;
      }
      Leave(v, gray, a);
    }

    /** Ends the visit of `v`: either `v` waits for an older unit, or its component is complete. */
    method Leave(v: string, ghost gray: set<string>, ghost a: Env)
      requires Visiting(g, a, Snapshot(), v, gray, |Succ(g, v)|)
      modifies this
      ensures Visited(g, a, Snapshot(), v, gray)
    {
      ghost var b := Snapshot();
      if low[v] != index[v] {
        Retreat(g, a, b, v, gray);
        return;
      }
      var comp := PopTo(v, |a.stack|);
      if |comp| > 1 {
        comp := Sort(comp, Itself);
        out := out + [comp];
      }
      RootLeaves(g, a, b, Snapshot(), v, gray, comp);
    }

    /** Handles the `n`-th successor of `v`: visit it, lower `v` to it, or skip a finished component. */
    method Follow(v: string, n: nat, ghost gray: set<string>, ghost a: Env)
      requires Visiting(g, a, Snapshot(), v, gray, n) && n < |Succ(g, v)|
      modifies this
      ensures Visiting(g, a, Snapshot(), v, gray, n + 1)
      decreases Nodes(g) - index.Keys, 2
    {
      var w := Succ(g, v)[n];
      ghost var b := Snapshot();
      if w !in index {
        Descend(v, n, gray, a);
      } else if w in on && on[w] {
        BackEdge(g, a, b, v, gray, n);
        low := low[v := Min(low[v], index[w])];
        assert Snapshot() == Lowered(b, v, b.index[w]);
      } else {
        PoppedEdge(g, a, b, v, gray, n);
      }
    }

    method Descend(v: string, n: nat, ghost gray: set<string>, ghost a: Env)
      requires Visiting(g, a, Snapshot(), v, gray, n) && n < |Succ(g, v)| && Succ(g, v)[n] !in index
      modifies this
      ensures Visiting(g, a, Snapshot(), v, gray, n + 1)
      decreases Nodes(g) - index.Keys, 1
    {
      var w := Succ(g, v)[n];
      ghost var b := Snapshot();
      ChildMayVisit(g, a, b, v, gray, n);
      Strong(w, gray + {v});
      ghost var c := Snapshot();
      ChildDone(g, a, b, c, v, gray, n);
      Lower(v, w);
    }

    method Lower(v: string, w: string)
      requires v in low && w in low
      modifies this`low
      ensures Snapshot() == Lowered(old(Snapshot()), v, old(low)[w])
    {
      low := low[v := Min(low[v], low[w])];
    }

    /** Pops down to and including `v`, which sits at height `k`. */
    method PopTo(v: string, ghost k: nat) returns (comp: seq<string>)
      requires Numbered(Snapshot()) && k < |stack| && stack[k] == v
      modifies this`stack, this`on
      ensures stack == old(stack)[..k]
      ensures forall x :: (x in on && on[x]) <==> x in stack
      ensures |comp| == |old(stack)| - k
      ensures forall x :: x in comp <==> x in old(stack)[k..]
      ensures DistinctKeys(comp, Itself)
    {
      ghost var b := Snapshot();
      comp := [];
      while true
        invariant k < |stack| && stack == b.stack[..|stack|]
        invariant Numbered(b) && b.stack[k] == v
        invariant forall x :: (x in on && on[x]) <==> x in stack
        invariant |comp| == |b.stack| - |stack|
        invariant forall x :: x in comp <==> x in b.stack[|stack|..]
        invariant DistinctKeys(comp, Itself)
        decreases |stack|
      {
        var w := stack[|stack| - 1];
        PopOne(b, |stack| - 1);
        stack := stack[..|stack| - 1];
        on := on[w := false];
        comp := comp + [w];
        if w == v {
          StackDistinct(b, |stack|, k);
          break;
        }
      }
    }

    /** Starts a visit at every unit not reached before. */
    method VisitAll(keys: seq<string>)
      requires Inv(g, Snapshot(), {}) && forall x :: x in keys ==> x in g
      modifies this
      ensures Inv(g, Snapshot(), {})
      ensures forall x :: x in keys ==> x in index
    {
      for n := 0 to |keys|
        invariant Inv(g, Snapshot(), {})
        invariant forall i :: 0 <= i < n ==> keys[i] in index
      {
        if keys[n] !in index {
          assert MayVisit(g, Snapshot(), keys[n], {});
          Strong(keys[n], {});
        }
      }
    }
  }

  function Min(a: int, b: int): int {
    if a < b then a else b
  }

  lemma {:induction false} PopOne(b: Env, m: nat)
    requires Numbered(b) && m < |b.stack|
    ensures b.stack[m..] == [b.stack[m]] + b.stack[m + 1..]
    ensures b.stack[m] !in b.stack[..m] && b.stack[m] !in b.stack[m + 1..]
    ensures b.stack[..m + 1] == b.stack[..m] + [b.stack[m]]
  {
  }

  /** The groups of units whose imports form a loop. */
  method Cycles(g: Graph) returns (out: seq<seq<string>>)
    ensures Report(g, out)
  {
    var search := new Search(g);
    EmptyInv(g);
    var keys := SortedNames(g.Keys);
    search.VisitAll(keys);
    SearchDone(g, search.Snapshot());
    out := Sort(search.out, First);
    assert forall c :: c in out ==> c in search.out;
  }

  lemma {:induction false} EmptyInv(g: Graph)
    ensures Inv(g, Env(map[], map[], map[], [], [], 0), {})
  {
  }

  lemma {:induction false} SearchDone(g: Graph, e: Env)
    requires Inv(g, e, {})
    requires forall x :: x in g ==> x in e.index
    ensures DistinctKeys(e.out, First)
    ensures forall c :: c in e.out ==> Group(g, c)
    ensures forall u, v :: u != v && Mutual(g, u, v) ==> exists c :: c in e.out && u in c
  {
    assert |e.stack| > 0 ==> LeadsBack(g, e, {}, 0);
    forall i, j | 0 <= i < j < |e.out| ensures First(e.out[i]) != First(e.out[j]) {
      assert e.out[i][0] in e.out[i] && e.out[j][0] in e.out[j];
    }
    forall u, v | u != v && Mutual(g, u, v) ensures exists c :: c in e.out && u in c {
      var p :| Joins(g, p, u, v);
      assert Edge(g, p[0], p[1]);
      assert u in Popped(e) && !Alone(g, u);
      assert Covered(e.out, u);
      var i :| 0 <= i < |e.out| && u in e.out[i];
      assert e.out[i] in e.out;
    }
  }

  // ----- The report is determined by the graph -----

  /** Any two reports for one graph are equal, so diagnostics do not depend on the search order. */
  lemma {:induction false} ReportUnique(g: Graph, a: seq<seq<string>>, b: seq<seq<string>>)
    requires Report(g, a) && Report(g, b)
    ensures a == b
  {
    forall c | c in a ensures c in b { GroupShared(g, a, b, c); }
    forall c | c in b ensures c in a { GroupShared(g, b, a, c); }
    IncreasingUnique(a, b, First);
  }

  lemma {:induction false} GroupShared(g: Graph, a: seq<seq<string>>, b: seq<seq<string>>, c: seq<string>)
    requires Report(g, a) && Report(g, b) && c in a
    ensures c in b
  {
    assert c[0] in c && c[1] in c;
    assert Before(Itself(c[0]), Itself(c[1]));
    BeforeTotal(c[0], c[1]);
    var d :| d in b && c[0] in d;
    forall y ensures y in c <==> y in d {
      MutualSwap(g, d[0], c[0], y);
    }
    IncreasingUnique(c, d, Itself);
  }
}
