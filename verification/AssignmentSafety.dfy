/** Safety of the assignment protocol over all runs: who may submit, and how often. */
module AssignmentSafety {
  import opened Assignment
  import opened AssignmentRuns

  ghost predicate Posted(posts: seq<Post>, id: string) {
    exists i :: 0 <= i < |posts| && posts[i].id == id
  }

  ghost predicate Holds(s: Sys, owner: string, id: string) {
    id in s.db.leases && s.db.leases[id].owner == owner
  }

  /** The current lease holder knows whether the marker was committed. */
  ghost predicate Informed(s: Sys, k: Worker) {
    && (k.phase == Marking || k.w.state == Queued ==> k.w.id !in s.marks)
    && (k.phase != Marking ==> (k.w.startedAt.Some? <==> k.w.id in s.marks))
  }

  ghost predicate WorkerOk(s: Sys, owner: string, k: Worker) {
    && owner in s.issued
    && k.w.id in s.db.workflows
    && (k.phase == Marking ==> k.w.startedAt.Some? && k.w.state != Queued)
    && (Holds(s, owner, k.w.id) ==> Informed(s, k))
    && (k.phase == Ready ==> k.w.id in s.marks && s.marks[k.w.id] == owner && !Posted(s.posts, k.w.id))
  }

  ghost predicate WorkflowOk(s: Sys, id: string, w: Workflow) {
    && w.id == id
    && (id in s.marks <==> w.startedAt.Some?)
    && (w.state == Queued ==> id !in s.marks)
  }

  ghost predicate StoreOk(s: Sys) {
    && (forall id :: id in s.db.workflows ==> WorkflowOk(s, id, s.db.workflows[id]))
    && (forall id :: id in s.db.leases ==> id in s.db.workflows && s.db.leases[id].owner in s.issued)
    && (forall id :: id in s.marks ==> id in s.db.workflows && s.marks[id] in s.issued)
  }

  ghost predicate WorkersOk(s: Sys) {
    forall o :: o in s.workers ==> WorkerOk(s, o, s.workers[o])
  }

  /** Each POST was sent by the replica that committed the marker, and no workflow has two. */
  ghost predicate PostsOk(s: Sys) {
    && (forall i :: 0 <= i < |s.posts| ==> s.posts[i].id in s.marks && s.posts[i].owner == s.marks[s.posts[i].id])
    && (forall i, j :: 0 <= i < j < |s.posts| ==> s.posts[i].id != s.posts[j].id)
  }

  ghost predicate Inv(s: Sys) {
    StoreOk(s) && WorkersOk(s) && PostsOk(s)
  }

  // ----- Local moves -----

  lemma {:induction false} MoveKeeps(s: Sys, owner: string, k: Worker)
    requires Inv(s) && WorkerOk(s, owner, k)
    ensures Inv(Moved(s, owner, k))
  {
    var t := Moved(s, owner, k);
    forall o | o in t.workers ensures WorkerOk(t, o, t.workers[o]) {
      assert WorkerOk(s, o, t.workers[o]);
    }
  }

  lemma {:induction false} GoneKeeps(s: Sys, owner: string)
    requires Inv(s)
    ensures Inv(Gone(s, owner))
  {
    var t := Gone(s, owner);
    forall o | o in t.workers ensures WorkerOk(t, o, t.workers[o]) {
      assert WorkerOk(s, o, s.workers[o]);
    }
  }

  /** A local move other than preparing a submission leaves the submission alone. */
  lemma {:induction false} MoveShape(k: Worker, m: Move)
    requires CanMove(k, m)
    ensures var n := AfterMove(k, m);
      && n.w.id == k.w.id && n.phase != Ready && k.phase != Marking
      && (m.Prepare? ==> n.phase == Marking && n.w.startedAt.Some? && n.w.state == Submitting && k.w.state == Queued)
      && (!m.Prepare? ==> n.phase != Marking && n.w.startedAt == k.w.startedAt && (n.w.state == Queued ==> k.w.state == Queued))
  {
  }

  lemma {:induction false} LocalKeeps(s: Sys, owner: string, m: Move)
    requires Inv(s) && owner in s.workers && CanMove(s.workers[owner], m)
    ensures Inv(Moved(s, owner, AfterMove(s.workers[owner], m)))
  {
    var k := s.workers[owner];
    assert WorkerOk(s, owner, k);
    MoveShape(k, m);
    MoveKeeps(s, owner, AfterMove(k, m));
  }

  // ----- Transactions -----

  /** One transaction of `writer` on workflow `id`; everything else stays as it was. */
  ghost predicate Touches(s: Sys, t: Sys, id: string, writer: string) {
    && id in s.db.workflows && t.db.workflows.Keys == s.db.workflows.Keys
    && (forall x :: x in s.db.workflows && x != id ==> t.db.workflows[x] == s.db.workflows[x])
    && (forall x :: x != id ==> (x in t.db.leases <==> x in s.db.leases))
    && (forall x :: x != id && x in s.db.leases ==> t.db.leases[x] == s.db.leases[x])
    && (forall x :: x != id ==> (x in t.marks <==> x in s.marks))
    && (forall x :: x in s.marks ==> x in t.marks && t.marks[x] == s.marks[x])
    && (forall o :: o in t.workers && o != writer ==> o in s.workers && t.workers[o] == s.workers[o])
    && t.posts == s.posts
    && s.issued <= t.issued
  }

  /** The lease of `id` is with the writer, gone, or nothing about `id` changed hands. */
  ghost predicate HandedTo(s: Sys, t: Sys, id: string, writer: string) {
    id in t.db.leases ==>
      Holds(t, writer, id) || (id in s.db.leases && t.db.leases[id] == s.db.leases[id] && t.marks == s.marks)
  }

  lemma {:induction false} OtherReplicaKeeps(s: Sys, t: Sys, id: string, writer: string, o: string)
    requires Touches(s, t, id, writer) && HandedTo(s, t, id, writer)
    requires o in t.workers && o != writer && WorkerOk(s, o, s.workers[o])
    ensures WorkerOk(t, o, t.workers[o])
  {
  }

  lemma {:induction false} TouchStoreOk(s: Sys, t: Sys, id: string, writer: string)
    requires StoreOk(s) && Touches(s, t, id, writer) && HandedTo(s, t, id, writer)
    requires WorkflowOk(t, id, t.db.workflows[id]) && writer in t.issued
    requires id in t.marks && id !in s.marks ==> t.marks[id] == writer
    ensures StoreOk(t)
  {
    forall x | x in t.db.workflows ensures WorkflowOk(t, x, t.db.workflows[x]) {
      assert WorkflowOk(s, x, s.db.workflows[x]);
    }
  }

  lemma {:induction false} TouchKeeps(s: Sys, t: Sys, id: string, writer: string)
    requires StoreOk(t) && WorkersOk(s) && PostsOk(s)
    requires Touches(s, t, id, writer) && HandedTo(s, t, id, writer)
    requires writer in t.workers ==> WorkerOk(t, writer, t.workers[writer])
    ensures Inv(t)
  {
    forall o | o in t.workers ensures WorkerOk(t, o, t.workers[o]) {
      if o != writer { OtherReplicaKeeps(s, t, id, writer, o); }
    }
  }

  lemma {:induction false} ClaimKeeps(s: Sys, id: string, owner: string, now: int)
    requires Inv(s) && owner !in s.issued && Claimable(s.db, id, now)
    ensures Inv(AfterClaimStep(s, id, owner, now))
  {
    var t := AfterClaimStep(s, id, owner, now);
    assert WorkflowOk(s, id, s.db.workflows[id]);
    if Authorized(s.db, s.db.workflows[id].binding) {
      Granted(s, id, owner, now);
    } else {
      FencedTouches(s, id, owner, now);
    }
    TouchStoreOk(s, t, id, owner);
    assert owner !in s.workers || WorkerOk(s, owner, s.workers[owner]);
    TouchKeeps(s, t, id, owner);
  }

  lemma {:induction false} FencedTouches(s: Sys, id: string, owner: string, now: int)
    requires WorkersOk(s) && owner !in s.issued && Claimable(s.db, id, now)
    requires WorkflowOk(s, id, s.db.workflows[id]) && !Authorized(s.db, s.db.workflows[id].binding)
    ensures var t := AfterClaimStep(s, id, owner, now);
      && Touches(s, t, id, owner) && HandedTo(s, t, id, owner)
      && WorkflowOk(t, id, t.db.workflows[id]) && owner in t.issued && t.marks == s.marks && t.workers == s.workers
  {
  }

  lemma {:induction false} Granted(s: Sys, id: string, owner: string, now: int)
    requires owner !in s.issued && Claimable(s.db, id, now)
    requires WorkflowOk(s, id, s.db.workflows[id]) && Authorized(s.db, s.db.workflows[id].binding)
    ensures var t := AfterClaimStep(s, id, owner, now);
      && Touches(s, t, id, owner) && HandedTo(s, t, id, owner)
      && WorkflowOk(t, id, t.db.workflows[id]) && owner in t.issued && t.marks == s.marks
      && owner in t.workers && WorkerOk(t, owner, t.workers[owner])
  {
  }

  lemma {:induction false} UnclaimedKeeps(s: Sys, id: string, owner: string, now: int)
    requires Inv(s) && !Claimable(s.db, id, now)
    ensures Inv(AfterClaimStep(s, id, owner, now))
  {
    var t := AfterClaimStep(s, id, owner, now);
    forall o | o in t.workers ensures WorkerOk(t, o, t.workers[o]) {
      assert WorkerOk(s, o, s.workers[o]);
    }
    forall x | x in t.db.workflows ensures WorkflowOk(t, x, t.db.workflows[x]) {
      assert WorkflowOk(s, x, s.db.workflows[x]);
    }
  }

  lemma {:induction false} RequestKeeps(s: Sys, account: string, id: string, serials: seq<string>, op: Operation, now: int)
    requires Inv(s)
    ensures Inv(AfterRequestStep(s, account, id, serials, op, now))
  {
    var t := AfterRequestStep(s, account, id, serials, op, now);
    forall o | o in t.workers ensures WorkerOk(t, o, t.workers[o]) {
      assert WorkerOk(s, o, s.workers[o]);
    }
    forall x | x in t.db.workflows ensures WorkflowOk(t, x, t.db.workflows[x]) {
      if x in s.db.workflows { assert WorkflowOk(s, x, s.db.workflows[x]); }
    }
  }

  lemma {:induction false} CommitKeeps(s: Sys, owner: string, now: int)
    requires Inv(s) && owner in s.workers && Commits(s.workers[owner].phase)
    requires MayCommit(s.db, s.workers[owner].w, owner, now)
    ensures Inv(AfterCommitStep(s, owner, now, true))
  {
    var t := AfterCommitStep(s, owner, now, true);
    var k := s.workers[owner];
    assert WorkerOk(s, owner, k);
    CommitTouches(s, owner, now);
    CommitStored(s, owner, now);
    TouchStoreOk(s, t, k.w.id, owner);
    if k.phase != Releasing {
      assert !Posted(s.posts, k.w.id) || k.w.id in s.marks;
      CommitterOk(s, owner, now);
    }
    TouchKeeps(s, t, k.w.id, owner);
  }

  lemma {:induction false} CommitTouches(s: Sys, owner: string, now: int)
    requires owner in s.workers && Commits(s.workers[owner].phase) && WorkerOk(s, owner, s.workers[owner])
    requires MayCommit(s.db, s.workers[owner].w, owner, now)
    ensures var t := AfterCommitStep(s, owner, now, true); var id := s.workers[owner].w.id;
      && Touches(s, t, id, owner) && HandedTo(s, t, id, owner) && owner in t.issued
      && (id in t.marks && id !in s.marks ==> t.marks[id] == owner)
      && (s.workers[owner].phase == Releasing ==> owner !in t.workers)
  {
  }

  lemma {:induction false} CommitStored(s: Sys, owner: string, now: int)
    requires owner in s.workers && Commits(s.workers[owner].phase) && WorkerOk(s, owner, s.workers[owner])
    requires MayCommit(s.db, s.workers[owner].w, owner, now)
    ensures var t := AfterCommitStep(s, owner, now, true); var id := s.workers[owner].w.id;
      id in t.db.workflows && WorkflowOk(t, id, t.db.workflows[id])
  {
  }

  lemma {:induction false} CommitterOk(s: Sys, owner: string, now: int)
    requires owner in s.workers && Commits(s.workers[owner].phase) && WorkerOk(s, owner, s.workers[owner])
    requires MayCommit(s.db, s.workers[owner].w, owner, now) && s.workers[owner].phase != Releasing
    requires Posted(s.posts, s.workers[owner].w.id) ==> s.workers[owner].w.id in s.marks
    ensures var t := AfterCommitStep(s, owner, now, true);
      owner in t.workers && WorkerOk(t, owner, t.workers[owner])
  {
  }

  /** Sending uses up the marker: no other replica is about to send for the same workflow. */
  lemma {:induction false} SentOnce(s: Sys, owner: string, p: Post, o: string)
    requires owner in s.workers && s.workers[owner].phase == Ready && p.id == s.workers[owner].w.id
    requires WorkerOk(s, owner, s.workers[owner])
    requires o in s.workers && o != owner && WorkerOk(s, o, s.workers[o])
    ensures WorkerOk(s.(posts := s.posts + [p]), o, s.workers[o])
  {
  }

  lemma {:induction false} SendKeeps(s: Sys, owner: string, activity: string, now: int)
    requires Inv(s) && owner in s.workers && s.workers[owner].phase == Ready
    ensures Inv(AfterSend(s, owner, activity, now))
  {
    var k := s.workers[owner];
    var p := Post(k.w.id, owner, k.w.binding.account, Serials(k.w), States(s.db));
    var u := s.(posts := s.posts + [p]);
    var t := AfterSend(s, owner, activity, now);
    assert WorkerOk(s, owner, k);
    forall x | x in t.db.workflows ensures WorkflowOk(t, x, t.db.workflows[x]) {
      assert WorkflowOk(s, x, s.db.workflows[x]);
    }
    forall o | o in t.workers && o != owner ensures WorkerOk(t, o, t.workers[o]) {
      SentOnce(s, owner, p, o);
      assert WorkerOk(u, o, s.workers[o]);
    }
  }

  lemma {:induction false} StepKeeps(s: Sys, a: Action)
    requires Inv(s) && Enabled(s, a)
    ensures Inv(Next(s, a))
  {
    match a {
      case Administer(_) =>
        forall o | o in s.workers ensures WorkerOk(Next(s, a), o, s.workers[o]) { assert WorkerOk(s, o, s.workers[o]); }
        forall x | x in s.db.workflows ensures WorkflowOk(Next(s, a), x, s.db.workflows[x]) { assert WorkflowOk(s, x, s.db.workflows[x]); }
      case Request(account, id, serials, op, now) => RequestKeeps(s, account, id, serials, op, now);
      case Claim(id, owner, now) =>
        if Claimable(s.db, id, now) { ClaimKeeps(s, id, owner, now); } else { UnclaimedKeeps(s, id, owner, now); }
      case Crash(owner) => GoneKeeps(s, owner);
      case Local(owner, move) => LocalKeeps(s, owner, move);
      case Send(owner, activity, now) => SendKeeps(s, owner, activity, now);
      case Commit(owner, now, observed) =>
        if observed && MayCommit(s.db, s.workers[owner].w, owner, now) { CommitKeeps(s, owner, now); }
        else { GoneKeeps(s, owner); }
    }
  }

  lemma {:induction false} RunKeeps(actions: seq<Action>)
    ensures Inv(Run(actions))
  {
    if actions != [] {
      RunKeeps(actions[..|actions| - 1]);
      var s := Run(actions[..|actions| - 1]);
      var a := actions[|actions| - 1];
      if Enabled(s, a) { StepKeeps(s, a); }
    }
  }

  /**
   * In every interleaving of any number of replicas, with crashes anywhere and clocks that say anything,
   * each workflow sends at most one assignment POST, and only the replica whose marker is stored sends it.
   */
  lemma {:induction false} AtMostOnePost(actions: seq<Action>, i: nat, j: nat)
    requires i < j < |Run(actions).posts|
    ensures Run(actions).posts[i].id != Run(actions).posts[j].id
  {
    RunKeeps(actions);
  }
}
