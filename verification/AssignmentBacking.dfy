/** What the recorded progress of a workflow is worth, in every run. */
module AssignmentBacking {
  import opened Assignment
  import opened AssignmentRuns
  import AssignmentSafety

  ghost predicate Posted(posts: seq<Post>, id: string) {
    AssignmentSafety.Posted(posts, id)
  }

  ghost predicate SameSerials(a: seq<Target>, b: seq<Target>) {
    |a| == |b| && forall i :: 0 <= i < |a| ==> a[i].serial == b[i].serial
  }

  /** A copy of a workflow keeps what was asked for. */
  ghost predicate SameIntent(a: Workflow, b: Workflow) {
    && a.id == b.id && a.operation == b.operation && a.binding == b.binding && SameSerials(a.targets, b.targets)
  }

  /** A target counts as converged only if it was observed at the desired service. */
  ghost predicate Convergence(w: Workflow) {
    forall i :: 0 <= i < |w.targets| && w.targets[i].converged ==>
      w.targets[i].observedAt.Some? && w.targets[i].observedService == Desired(w)
  }

  ghost predicate Backed(posts: seq<Post>, w: Workflow) {
    && (w.activity != "" ==> Posted(posts, w.id))
    && (w.terminalStatus != "" ==> w.activity != "")
    && Convergence(w)
    && (w.state == Complete ==> w.terminalStatus != "" && w.logComplete && Settled(w))
  }

  ghost predicate WorkerBacked(s: Sys, k: Worker) {
    && k.w.id in s.db.workflows
    && SameIntent(k.w, s.db.workflows[k.w.id])
    && Backed(s.posts, k.w)
    && k.w.state != Fenced
    && (k.w.state == Complete ==> k.phase == Releasing)
  }

  ghost predicate WorkflowBacked(s: Sys, id: string, w: Workflow) {
    && w.id == id
    && Backed(s.posts, w)
    && (w.state == Complete ==> id !in s.db.leases)
  }

  ghost predicate PostNamed(s: Sys, p: Post) {
    && p.id in s.db.workflows
    && p.account == s.db.workflows[p.id].binding.account
    && |p.serials| == |s.db.workflows[p.id].targets|
    && forall i :: 0 <= i < |p.serials| ==> p.serials[i] == s.db.workflows[p.id].targets[i].serial
  }

  ghost predicate Inv(s: Sys) {
    && (forall id :: id in s.db.workflows ==> WorkflowBacked(s, id, s.db.workflows[id]))
    && (forall o :: o in s.workers ==> WorkerBacked(s, s.workers[o]))
    && (forall i :: 0 <= i < |s.posts| ==> PostNamed(s, s.posts[i]))
  }

  // ----- Local moves -----

  ghost predicate MoveOk(posts: seq<Post>, k: Worker, n: Worker) {
    && SameIntent(n.w, k.w) && Backed(posts, n.w) && n.w.state != Fenced && (n.w.state == Complete ==> n.phase == Releasing)
  }

  lemma {:induction false} MoveBacked(posts: seq<Post>, k: Worker, m: Move)
    requires CanMove(k, m) && Backed(posts, k.w) && k.w.state != Fenced && (k.w.state == Complete ==> k.phase == Releasing)
    ensures MoveOk(posts, k, AfterMove(k, m))
  {
    match m {
      case Fail(code, devices, now) => assert SameSerials(AfterMove(k, m).w.targets, k.w.targets);
      case Prepare(devices, now) => assert SameSerials(AfterMove(k, m).w.targets, k.w.targets);
      case Resume =>
      case ReadActivity(status, subStatus) =>
      case SkipLog =>
      case FetchLog(csv, complete, succeeded, rows) => assert SameSerials(AfterMove(k, m).w.targets, k.w.targets);
      case Observe(service, now) => ObserveBacked(posts, k, service, now);
      case Settle(now) =>
    }
  }

  lemma {:induction false} ObserveBacked(posts: seq<Post>, k: Worker, service: string, now: int)
    requires CanMove(k, Observe(service, now)) && Backed(posts, k.w) && k.w.state != Fenced && k.w.state != Complete
    ensures MoveOk(posts, k, Observed(k.w, k.phase.next, service, now))
  {
  }

  lemma {:induction false} LocalKeeps(s: Sys, owner: string, m: Move)
    requires Inv(s) && owner in s.workers && CanMove(s.workers[owner], m)
    ensures Inv(Moved(s, owner, AfterMove(s.workers[owner], m)))
  {
    var k := s.workers[owner];
    assert WorkerBacked(s, k);
    MoveBacked(s.posts, k, m);
    var n := AfterMove(k, m);
    var t := Moved(s, owner, n);
    assert WorkerBacked(s, n);
    Unwritten(s, t);
  }

  /** A step that leaves the workflows, the leases and the posts alone. */
  lemma {:induction false} Unwritten(s: Sys, t: Sys)
    requires Inv(s) && t.db.workflows == s.db.workflows && t.db.leases == s.db.leases && t.posts == s.posts
    requires forall o :: o in t.workers ==> WorkerBacked(s, t.workers[o])
    ensures Inv(t)
  {
    forall o | o in t.workers ensures WorkerBacked(t, t.workers[o]) {
      assert WorkerBacked(s, t.workers[o]);
    }
    forall x | x in t.db.workflows ensures WorkflowBacked(t, x, t.db.workflows[x]) {
      assert WorkflowBacked(s, x, s.db.workflows[x]);
    }
    forall i | 0 <= i < |t.posts| ensures PostNamed(t, t.posts[i]) {
      assert PostNamed(s, s.posts[i]);
    }
  }

  // ----- Transactions -----

  /** A transaction that rewrites workflow `id` without changing what was asked for. */
  ghost predicate Rewrites(s: Sys, t: Sys, id: string, writer: string) {
    && id in s.db.workflows && t.db.workflows.Keys == s.db.workflows.Keys
    && (forall x :: x in s.db.workflows && x != id ==> t.db.workflows[x] == s.db.workflows[x])
    && SameIntent(s.db.workflows[id], t.db.workflows[id])
    && (forall x :: x != id && x in t.db.leases ==> x in s.db.leases)
    && (forall o :: o in t.workers && o != writer ==> o in s.workers && t.workers[o] == s.workers[o])
    && t.posts == s.posts
  }

  lemma {:induction false} RewriteKeeps(s: Sys, t: Sys, id: string, writer: string)
    requires Inv(s) && Rewrites(s, t, id, writer)
    requires WorkflowBacked(t, id, t.db.workflows[id])
    requires writer in t.workers ==> WorkerBacked(t, t.workers[writer])
    ensures Inv(t)
  {
    forall x | x in t.db.workflows ensures WorkflowBacked(t, x, t.db.workflows[x]) {
      assert WorkflowBacked(s, x, s.db.workflows[x]);
    }
    forall o | o in t.workers ensures WorkerBacked(t, t.workers[o]) {
      if o != writer { WorkerStays(s, t, id, writer, t.workers[o]); }
    }
    forall i | 0 <= i < |t.posts| ensures PostNamed(t, t.posts[i]) {
      assert PostNamed(s, s.posts[i]);
    }
  }

  lemma {:induction false} WorkerStays(s: Sys, t: Sys, id: string, writer: string, k: Worker)
    requires WorkerBacked(s, k) && Rewrites(s, t, id, writer)
    ensures WorkerBacked(t, k)
  {
  }

  lemma {:induction false} ClaimKeeps(s: Sys, id: string, owner: string, now: int)
    requires Inv(s) && owner !in s.workers && Claimable(s.db, id, now)
    ensures Inv(AfterClaimStep(s, id, owner, now))
  {
    assert WorkflowBacked(s, id, s.db.workflows[id]);
    if Authorized(s.db, s.db.workflows[id].binding) {
      Granted(s, id, owner, now);
    } else {
      FencedRewrites(s, id, owner, now);
    }
    RewriteKeeps(s, AfterClaimStep(s, id, owner, now), id, owner);
  }

  lemma {:induction false} FencedRewrites(s: Sys, id: string, owner: string, now: int)
    requires owner !in s.workers && Claimable(s.db, id, now) && WorkflowBacked(s, id, s.db.workflows[id])
    requires !Authorized(s.db, s.db.workflows[id].binding)
    ensures var t := AfterClaimStep(s, id, owner, now);
      Rewrites(s, t, id, owner) && WorkflowBacked(t, id, t.db.workflows[id]) && owner !in t.workers
  {
  }

  lemma {:induction false} Granted(s: Sys, id: string, owner: string, now: int)
    requires owner !in s.workers && Claimable(s.db, id, now) && WorkflowBacked(s, id, s.db.workflows[id])
    requires Authorized(s.db, s.db.workflows[id].binding)
    ensures var t := AfterClaimStep(s, id, owner, now);
      && Rewrites(s, t, id, owner) && WorkflowBacked(t, id, t.db.workflows[id])
      && owner in t.workers && WorkerBacked(t, t.workers[owner])
  {
    var t := AfterClaimStep(s, id, owner, now);
    assert t.db.workflows[id] == Claimed(s.db.workflows[id]) == t.workers[owner].w;
    assert Backed(s.posts, Claimed(s.db.workflows[id]));
  }

  lemma {:induction false} CommitKeeps(s: Sys, owner: string, now: int)
    requires Inv(s) && owner in s.workers && Commits(s.workers[owner].phase)
    requires MayCommit(s.db, s.workers[owner].w, owner, now)
    ensures Inv(AfterCommitStep(s, owner, now, true))
  {
    assert WorkerBacked(s, s.workers[owner]);
    CommitRewrites(s, owner, now);
    RewriteKeeps(s, AfterCommitStep(s, owner, now, true), s.workers[owner].w.id, owner);
  }

  lemma {:induction false} CommitRewrites(s: Sys, owner: string, now: int)
    requires owner in s.workers && Commits(s.workers[owner].phase) && WorkerBacked(s, s.workers[owner])
    requires MayCommit(s.db, s.workers[owner].w, owner, now)
    ensures var t := AfterCommitStep(s, owner, now, true); var id := s.workers[owner].w.id;
      && Rewrites(s, t, id, owner) && WorkflowBacked(t, id, t.db.workflows[id])
      && (owner in t.workers ==> WorkerBacked(t, t.workers[owner]))
  {
    assert Backed(s.posts, s.workers[owner].w.(updatedAt := now));
  }

  lemma {:induction false} RequestKeeps(s: Sys, account: string, id: string, serials: seq<string>, op: Operation, now: int)
    requires Inv(s) && (id in s.db.leases ==> id in s.db.workflows)
    ensures Inv(AfterRequestStep(s, account, id, serials, op, now))
  {
    var t := AfterRequestStep(s, account, id, serials, op, now);
    forall o | o in t.workers ensures WorkerBacked(t, t.workers[o]) {
      assert WorkerBacked(s, s.workers[o]);
    }
    forall x | x in t.db.workflows ensures WorkflowBacked(t, x, t.db.workflows[x]) {
      if x in s.db.workflows { assert WorkflowBacked(s, x, s.db.workflows[x]); }
    }
    forall i | 0 <= i < |t.posts| ensures PostNamed(t, t.posts[i]) {
      assert PostNamed(s, s.posts[i]);
    }
  }

  lemma {:induction false} StillBacked(posts: seq<Post>, p: Post, w: Workflow)
    requires Backed(posts, w)
    ensures Backed(posts + [p], w)
  {
    if Posted(posts, w.id) {
      var i :| 0 <= i < |posts| && posts[i].id == w.id;
      assert (posts + [p])[i].id == w.id;
    }
  }

  lemma {:induction false} SenderBacked(s: Sys, owner: string, p: Post, activity: string, now: int)
    requires owner in s.workers && s.workers[owner].phase == Ready && WorkerBacked(s, s.workers[owner])
    requires p.id == s.workers[owner].w.id
    ensures WorkerBacked(s.(posts := s.posts + [p]), Answered(s.workers[owner].w, activity, now))
  {
    StillBacked(s.posts, p, s.workers[owner].w);
    assert (s.posts + [p])[|s.posts|].id == p.id;
  }

  lemma {:induction false} SendKeeps(s: Sys, owner: string, activity: string, now: int)
    requires Inv(s) && owner in s.workers && s.workers[owner].phase == Ready
    ensures Inv(AfterSend(s, owner, activity, now))
  {
    var k := s.workers[owner];
    assert WorkerBacked(s, k);
    var p := Post(k.w.id, owner, k.w.binding.account, Serials(k.w), States(s.db));
    var u := s.(posts := s.posts + [p]);
    assert Inv(u) by { PostedKeeps(s, p); }
    SenderBacked(s, owner, p, activity, now);
    var n := Answered(k.w, activity, now);
    assert AfterSend(s, owner, activity, now) == Moved(u, owner, n);
    Unwritten(u, Moved(u, owner, n));
  }

  lemma {:induction false} PostedKeeps(s: Sys, p: Post)
    requires Inv(s) && PostNamed(s, p)
    ensures Inv(s.(posts := s.posts + [p]))
  {
    var t := s.(posts := s.posts + [p]);
    forall x | x in t.db.workflows ensures WorkflowBacked(t, x, t.db.workflows[x]) {
      assert WorkflowBacked(s, x, s.db.workflows[x]);
      StillBacked(s.posts, p, s.db.workflows[x]);
    }
    forall o | o in t.workers ensures WorkerBacked(t, t.workers[o]) {
      assert WorkerBacked(s, s.workers[o]);
      StillBacked(s.posts, p, s.workers[o].w);
    }
    forall i | 0 <= i < |t.posts| ensures PostNamed(t, t.posts[i]) {
      assert PostNamed(s, if i < |s.posts| then s.posts[i] else p);
    }
  }

  lemma {:induction false} StepKeeps(s: Sys, a: Action)
    requires Inv(s) && AssignmentSafety.Inv(s) && Enabled(s, a)
    ensures Inv(Next(s, a))
  {
    match a {
      case Administer(_) => Unwritten(s, Next(s, a));
      case Request(account, id, serials, op, now) => RequestKeeps(s, account, id, serials, op, now);
      case Claim(id, owner, now) =>
        assert owner !in s.workers || AssignmentSafety.WorkerOk(s, owner, s.workers[owner]);
        if Claimable(s.db, id, now) { ClaimKeeps(s, id, owner, now); } else { Unwritten(s, Next(s, a)); }
      case Crash(owner) => Unwritten(s, Next(s, a));
      case Local(owner, move) => LocalKeeps(s, owner, move);
      case Send(owner, activity, now) => SendKeeps(s, owner, activity, now);
      case Commit(owner, now, observed) =>
        if observed && MayCommit(s.db, s.workers[owner].w, owner, now) { CommitKeeps(s, owner, now); }
        else { Unwritten(s, Next(s, a)); }
    }
  }

  lemma {:induction false} RunKeeps(actions: seq<Action>)
    ensures Inv(Run(actions))
  {
    if actions != [] {
      RunKeeps(actions[..|actions| - 1]);
      AssignmentSafety.RunKeeps(actions[..|actions| - 1]);
      var s := Run(actions[..|actions| - 1]);
      var a := actions[|actions| - 1];
      if Enabled(s, a) { StepKeeps(s, a); }
    }
  }

  /**
   * In every run a stored workflow is complete only after its POST, with a terminal status, a complete log,
   * and every target the log reports as successful observed at the service that was asked for.
   */
  lemma {:induction false} CompleteIsEarned(actions: seq<Action>, id: string)
    requires id in Run(actions).db.workflows && Run(actions).db.workflows[id].state == Complete
    ensures var w := Run(actions).db.workflows[id];
      && Posted(Run(actions).posts, id)
      && w.terminalStatus != "" && w.logComplete
      && forall i :: 0 <= i < |w.targets| && w.targets[i].outcome == w.binding.columns.success ==>
           w.targets[i].observedAt.Some? && w.targets[i].observedService == Desired(w)
  {
    RunKeeps(actions);
    assert WorkflowBacked(Run(actions), id, Run(actions).db.workflows[id]);
  }
}
