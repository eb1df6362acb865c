/** Two submissions for one device never overlap, whatever the clocks of the replicas say. */
module AssignmentOverlap {
  import opened Basics
  import opened Assignment
  import opened AssignmentRuns
  import opened AssignmentAccounts
  import opened AssignmentBacking
  import AssignmentSafety

  /** Nothing more will be sent for the workflow. */
  ghost predicate Done(w: Workflow) {
    w.state == Complete || (w.state == Fenced && w.startedAt.None?)
  }

  ghost predicate Share(a: Workflow, b: Workflow) {
    && a.binding.account == b.binding.account
    && exists i, j :: 0 <= i < |a.targets| && 0 <= j < |b.targets| && a.targets[i].serial == b.targets[j].serial
  }

  ghost predicate PostsShare(p: Post, q: Post) {
    p.account == q.account && exists x :: x in p.serials && x in q.serials
  }

  /** A fenced workflow runs under a binding that was given up. */
  ghost predicate FencedOut(s: Sys) {
    forall id :: id in s.db.workflows && s.db.workflows[id].state == Fenced ==> GivenUp(s, s.db.workflows[id].binding)
  }

  /** Of two workflows for one device, the older was done before the younger was accepted. */
  ghost predicate BornInTurn(s: Sys) {
    && (forall i :: 0 <= i < |s.born| ==> s.born[i] in s.db.workflows)
    && (forall id :: id in s.db.workflows ==> id in s.born)
    && (forall i, j :: 0 <= i < j < |s.born| && Share(s.db.workflows[s.born[i]], s.db.workflows[s.born[j]]) ==>
         Done(s.db.workflows[s.born[i]]))
  }

  ghost predicate PostsInTurn(s: Sys) {
    forall i, j :: 0 <= i < j < |s.posts| && PostsShare(s.posts[i], s.posts[j]) ==>
      s.posts[i].id in s.posts[j].states && s.posts[j].states[s.posts[i].id] == Complete
  }

  ghost predicate Ordered(s: Sys) {
    FencedOut(s) && BornInTurn(s) && PostsInTurn(s)
  }

  // ----- What steps leave alone -----

  /** Done workflows stay exactly as they are, and no workflow changes what it asks for. */
  ghost predicate Settles(s: Sys, t: Sys) {
    forall id :: id in s.db.workflows ==>
      && id in t.db.workflows && SameIntent(s.db.workflows[id], t.db.workflows[id])
      && (Done(s.db.workflows[id]) ==> Done(t.db.workflows[id]))
  }

  ghost predicate SameRoster(s: Sys, t: Sys) {
    && t.db.workflows.Keys == s.db.workflows.Keys
    && t.born == s.born && t.posts == s.posts
  }

  lemma {:induction false} ClaimRoster(s: Sys, id: string, owner: string, now: int)
    ensures SameRoster(s, AfterClaimStep(s, id, owner, now))
  {
  }

  lemma {:induction false} CommitRoster(s: Sys, owner: string, now: int)
    requires owner in s.workers && s.workers[owner].w.id in s.db.workflows
    ensures SameRoster(s, AfterCommitStep(s, owner, now, true))
  {
  }

  lemma {:induction false} ClaimSettles(s: Sys, id: string, owner: string, now: int)
    ensures Settles(s, AfterClaimStep(s, id, owner, now))
  {
  }

  lemma {:induction false} CommitSettles(s: Sys, owner: string, now: int)
    requires FencedOut(s) && owner in s.workers && WorkerBacked(s, s.workers[owner])
    requires var id := s.workers[owner].w.id; WorkflowBacked(s, id, s.db.workflows[id])
    requires MayCommit(s.db, s.workers[owner].w, owner, now)
    ensures Settles(s, AfterCommitStep(s, owner, now, true))
  {
    NotFenced(s, owner, now);
  }

  /** A workflow that a commit is accepted for is not fenced. */
  lemma {:induction false} NotFenced(s: Sys, owner: string, now: int)
    requires FencedOut(s) && owner in s.workers && WorkerBacked(s, s.workers[owner])
    requires MayCommit(s.db, s.workers[owner].w, owner, now)
    ensures s.db.workflows[s.workers[owner].w.id].state != Fenced
  {
    var w := s.db.workflows[s.workers[owner].w.id];
    if w.state == Fenced { GivenUpRefused(s, w.binding); }
  }

  lemma {:induction false} TurnKept(s: Sys, t: Sys)
    requires BornInTurn(s) && Settles(s, t) && t.born == s.born && t.db.workflows.Keys == s.db.workflows.Keys
    ensures BornInTurn(t)
  {
    forall i, j | 0 <= i < j < |t.born| && Share(t.db.workflows[t.born[i]], t.db.workflows[t.born[j]])
      ensures Done(t.db.workflows[t.born[i]])
    {
      ShareKept(s.db.workflows[t.born[i]], t.db.workflows[t.born[i]], s.db.workflows[t.born[j]], t.db.workflows[t.born[j]]);
    }
  }

  lemma {:induction false} ShareKept(a: Workflow, a': Workflow, b: Workflow, b': Workflow)
    requires SameIntent(a, a') && SameIntent(b, b') && Share(a', b')
    ensures Share(a, b)
  {
    var i, j :| 0 <= i < |a'.targets| && 0 <= j < |b'.targets| && a'.targets[i].serial == b'.targets[j].serial;
    assert a.targets[i].serial == b.targets[j].serial;
  }

  // ----- Each kind of step -----

  /** A transaction on an existing workflow keeps the order if it settles and fences only what is given up. */
  lemma {:induction false} OrderedKept(s: Sys, t: Sys)
    requires Ordered(s) && Settles(s, t) && FencedOut(t) && SameRoster(s, t)
    ensures Ordered(t)
  {
    TurnKept(s, t);
  }

  lemma {:induction false} ClaimOrdered(s: Sys, id: string, owner: string, now: int)
    requires Ordered(s) && Known(s)
    ensures Ordered(AfterClaimStep(s, id, owner, now))
  {
    ClaimSettles(s, id, owner, now);
    ClaimFences(s, id, owner, now);
    ClaimRoster(s, id, owner, now);
    OrderedKept(s, AfterClaimStep(s, id, owner, now));
  }

  lemma {:induction false} ClaimFences(s: Sys, id: string, owner: string, now: int)
    requires FencedOut(s) && Known(s)
    ensures FencedOut(AfterClaimStep(s, id, owner, now))
  {
    var t := AfterClaimStep(s, id, owner, now);
    ClaimSame(s, id, owner, now);
    forall x | x in t.db.workflows && t.db.workflows[x].state == Fenced ensures GivenUp(t, t.db.workflows[x].binding) {
      FencedByClaim(s, id, owner, now, x);
    }
  }

  /** What a claim fences is given up; anything else was fenced before. */
  lemma {:induction false} FencedByClaim(s: Sys, id: string, owner: string, now: int, x: string)
    requires FencedOut(s) && Known(s)
    requires var t := AfterClaimStep(s, id, owner, now); x in t.db.workflows && t.db.workflows[x].state == Fenced
    ensures GivenUp(s, AfterClaimStep(s, id, owner, now).db.workflows[x].binding)
  {
    if x == id && Claimable(s.db, id, now) { ReplacedIsGivenUp(s, s.db.workflows[id].binding); }
  }

  lemma {:induction false} CommitOrdered(s: Sys, owner: string, now: int)
    requires Ordered(s) && AssignmentBacking.Inv(s)
    requires owner in s.workers && MayCommit(s.db, s.workers[owner].w, owner, now)
    ensures Ordered(AfterCommitStep(s, owner, now, true))
  {
    var id := s.workers[owner].w.id;
    assert WorkerBacked(s, s.workers[owner]) && WorkflowBacked(s, id, s.db.workflows[id]);
    CommitSettles(s, owner, now);
    CommitFencedOut(s, owner, now);
    CommitRoster(s, owner, now);
    OrderedKept(s, AfterCommitStep(s, owner, now, true));
  }

  lemma {:induction false} CommitFencedOut(s: Sys, owner: string, now: int)
    requires FencedOut(s) && owner in s.workers && WorkerBacked(s, s.workers[owner])
    requires MayCommit(s.db, s.workers[owner].w, owner, now)
    ensures FencedOut(AfterCommitStep(s, owner, now, true))
  {
    var t := AfterCommitStep(s, owner, now, true);
    CommitSame(s, owner, now, true);
    forall x | x in t.db.workflows && t.db.workflows[x].state == Fenced ensures GivenUp(t, t.db.workflows[x].binding) {
      assert x in s.db.workflows && t.db.workflows[x] == s.db.workflows[x];
    }
  }

  lemma {:induction false} ChangeOrdered(s: Sys, c: Change)
    requires Ordered(s) && MayChange(s, c)
    ensures Ordered(AfterChange(s, c))
  {
    var t := AfterChange(s, c);
    forall x | x in t.db.workflows && t.db.workflows[x].state == Fenced ensures GivenUp(t, t.db.workflows[x].binding) {
      ChangeGivenUp(s, c, s.db.workflows[x].binding);
    }
    TurnKept(s, t);
  }

  lemma {:induction false} RequestOrdered(s: Sys, account: string, id: string, serials: seq<string>, op: Operation, now: int)
    requires Ordered(s) && Known(s)
    ensures Ordered(AfterRequestStep(s, account, id, serials, op, now))
  {
    var t := AfterRequestStep(s, account, id, serials, op, now);
    RequestSame(s, account, id, serials, op, now);
    assert FencedOut(t);
    if id in t.db.workflows && id !in s.db.workflows {
      forall i, j | 0 <= i < j < |t.born| && Share(t.db.workflows[t.born[i]], t.db.workflows[t.born[j]])
        ensures Done(t.db.workflows[t.born[i]])
      {
        if j == |s.born| { RequestFree(s, account, id, serials, op, now, s.born[i]); }
      }
    }
  }

  /** A request is accepted only if every workflow that shares a device with it is done. */
  lemma {:induction false} RequestFree(s: Sys, account: string, id: string, serials: seq<string>, op: Operation, now: int, other: string)
    requires Known(s) && id !in s.db.workflows && RequestReply(s.db, account, id, serials, op, now).Ok?
    requires other in s.db.workflows
    requires Share(s.db.workflows[other], RequestReply(s.db, account, id, serials, op, now).value)
    ensures Done(s.db.workflows[other])
  {
    var w := RequestReply(s.db, account, id, serials, op, now).value;
    var o := s.db.workflows[other];
    var i, j :| 0 <= i < |o.targets| && 0 <= j < |w.targets| && o.targets[i].serial == w.targets[j].serial;
    assert o.targets[i].serial in serials;
    assert Overlaps(o, account, serials);
    assert !Blocked(s.db, account, serials);
  }

  lemma {:induction false} SendOrdered(s: Sys, owner: string, activity: string, now: int)
    requires Ordered(s) && AssignmentBacking.Inv(s) && AssignmentSafety.Inv(s)
    requires owner in s.workers && s.workers[owner].phase == Ready
    ensures Ordered(AfterSend(s, owner, activity, now))
  {
    var t := AfterSend(s, owner, activity, now);
    var p := t.posts[|s.posts|];
    forall i, j | 0 <= i < j < |t.posts| && PostsShare(t.posts[i], t.posts[j])
      ensures t.posts[i].id in t.posts[j].states && t.posts[j].states[t.posts[i].id] == Complete
    {
      if j == |s.posts| { SendInTurn(s, owner, p, i); }
    }
  }

  lemma {:induction false} SendInTurn(s: Sys, owner: string, p: Post, i: nat)
    requires BornInTurn(s) && AssignmentBacking.Inv(s) && AssignmentSafety.Inv(s)
    requires owner in s.workers && s.workers[owner].phase == Ready && i < |s.posts|
    requires var w := s.workers[owner].w; p == Post(w.id, owner, w.binding.account, Serials(w), States(s.db))
    requires PostsShare(s.posts[i], p)
    ensures s.posts[i].id in p.states && p.states[s.posts[i].id] == Complete
  {
    var a, b := s.posts[i].id, s.workers[owner].w.id;
    assert WorkerBacked(s, s.workers[owner]) && PostNamed(s, s.posts[i]);
    SenderNotDone(s, owner, i);
    NamesShare(s, s.posts[i], p, s.workers[owner].w);
    var m :| 0 <= m < |s.born| && s.born[m] == a;
    var n :| 0 <= n < |s.born| && s.born[n] == b;
    FirstIsDone(s, m, n);
  }

  lemma {:induction false} FirstIsDone(s: Sys, m: nat, n: nat)
    requires BornInTurn(s) && m < |s.born| && n < |s.born| && s.born[m] != s.born[n]
    requires Share(s.db.workflows[s.born[m]], s.db.workflows[s.born[n]])
    requires Share(s.db.workflows[s.born[n]], s.db.workflows[s.born[m]])
    requires !Done(s.db.workflows[s.born[n]])
    ensures Done(s.db.workflows[s.born[m]])
  {
  }

  /** The sender's workflow has a marker but no POST, so it is not done; an earlier sender's has both. */
  lemma {:induction false} SenderNotDone(s: Sys, owner: string, i: nat)
    requires AssignmentBacking.Inv(s) && AssignmentSafety.Inv(s)
    requires owner in s.workers && s.workers[owner].phase == Ready && i < |s.posts|
    ensures var a, b := s.posts[i].id, s.workers[owner].w.id;
      && a in s.db.workflows && b in s.db.workflows && a != b
      && s.db.workflows[a].startedAt.Some? && !Done(s.db.workflows[b])
  {
    var a, b := s.posts[i].id, s.workers[owner].w.id;
    assert AssignmentSafety.WorkerOk(s, owner, s.workers[owner]);
    assert AssignmentSafety.WorkflowOk(s, a, s.db.workflows[a]) && AssignmentSafety.WorkflowOk(s, b, s.db.workflows[b]);
    assert WorkflowBacked(s, b, s.db.workflows[b]);
  }

  lemma {:induction false} NamesShare(s: Sys, q: Post, p: Post, w: Workflow)
    requires PostNamed(s, q) && w.id in s.db.workflows && SameIntent(w, s.db.workflows[w.id])
    requires p.account == w.binding.account && p.serials == Serials(w) && PostsShare(q, p)
    ensures Share(s.db.workflows[q.id], s.db.workflows[w.id]) && Share(s.db.workflows[w.id], s.db.workflows[q.id])
  {
    var x :| x in q.serials && x in p.serials;
    var i :| 0 <= i < |q.serials| && q.serials[i] == x;
    var j :| 0 <= j < |p.serials| && p.serials[j] == x;
    assert s.db.workflows[q.id].targets[i].serial == s.db.workflows[w.id].targets[j].serial;
  }

  lemma {:induction false} StepOrdered(s: Sys, a: Action)
    requires Ordered(s) && Known(s) && AssignmentBacking.Inv(s) && AssignmentSafety.Inv(s) && Enabled(s, a)
    ensures Ordered(Next(s, a))
  {
    match a {
      case Administer(c) => ChangeOrdered(s, c);
      case Request(account, id, serials, op, now) => RequestOrdered(s, account, id, serials, op, now);
      case Claim(id, owner, now) => ClaimOrdered(s, id, owner, now);
      case Crash(owner) =>
      case Local(owner, move) =>
      case Send(owner, activity, now) => SendOrdered(s, owner, activity, now);
      case Commit(owner, now, observed) =>
        if observed && MayCommit(s.db, s.workers[owner].w, owner, now) { CommitOrdered(s, owner, now); }
    }
  }

  lemma {:induction false} RunOrdered(actions: seq<Action>)
    ensures Ordered(Run(actions))
  {
    if actions != [] {
      var prefix := actions[..|actions| - 1];
      RunOrdered(prefix);
      RunKnown(prefix);
      AssignmentBacking.RunKeeps(prefix);
      AssignmentSafety.RunKeeps(prefix);
      var a := actions[|actions| - 1];
      if Enabled(Run(prefix), a) { StepOrdered(Run(prefix), a); }
    }
  }

  /**
   * If two POSTs name the same account and serial, the workflow of the earlier one was already complete
   * when the later one was sent. A fenced or uncertain submission keeps its devices for good.
   */
  lemma {:induction false} LaterPostWaits(actions: seq<Action>, i: nat, j: nat)
    requires i < j < |Run(actions).posts|
    requires PostsShare(Run(actions).posts[i], Run(actions).posts[j])
    ensures var p, q := Run(actions).posts[i], Run(actions).posts[j];
      p.id in q.states && q.states[p.id] == Complete
  {
    RunOrdered(actions);
  }
}
