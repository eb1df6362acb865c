/** A complete log is final: no replica, however delayed, writes another. */
module AssignmentLogs {
  import opened Assignment
  import opened AssignmentRuns
  import opened AssignmentSafety

  /** The lease holder knows that the log is complete, and is not about to commit one. */
  ghost predicate Aware(s: Sys, owner: string, k: Worker) {
    Holds(s, owner, k.w.id) && k.w.id in s.db.workflows && s.db.workflows[k.w.id].logComplete ==>
      k.w.logComplete && !k.phase.Logging?
  }

  ghost predicate AllAware(s: Sys) {
    forall o :: o in s.workers ==> Aware(s, o, s.workers[o])
  }

  lemma {:induction false} MoveAware(s: Sys, owner: string, k: Worker, m: Move)
    requires Aware(s, owner, k) && CanMove(k, m)
    ensures Aware(s, owner, AfterMove(k, m))
  {
  }

  /** What one transaction of `writer` on workflow `id` leaves of the log. */
  ghost predicate LogKept(s: Sys, t: Sys, id: string, writer: string) {
    && id in s.db.workflows
    && (forall x :: x in s.db.workflows ==> x in t.db.workflows && (x != id ==> t.db.workflows[x] == s.db.workflows[x]))
    && (forall x, o :: x != id && Holds(t, o, x) ==> Holds(s, o, x))
    && (forall o :: o != writer && Holds(t, o, id) ==> Holds(s, o, id) && t.db.workflows[id].logComplete == s.db.workflows[id].logComplete)
    && (forall o :: o in t.workers && o != writer ==> o in s.workers && t.workers[o] == s.workers[o])
  }

  lemma {:induction false} OthersAware(s: Sys, t: Sys, id: string, writer: string)
    requires AllAware(s) && id in s.db.workflows && LogKept(s, t, id, writer)
    requires forall o :: o in s.workers ==> s.workers[o].w.id in s.db.workflows
    requires writer in t.workers ==> Aware(t, writer, t.workers[writer])
    ensures AllAware(t)
  {
    forall o | o in t.workers ensures Aware(t, o, t.workers[o]) {
      if o != writer { assert Aware(s, o, s.workers[o]); }
    }
  }

  lemma {:induction false} ClaimAware(s: Sys, id: string, owner: string, now: int)
    requires Inv(s) && AllAware(s) && owner !in s.issued
    ensures AllAware(AfterClaimStep(s, id, owner, now))
  {
    var t := AfterClaimStep(s, id, owner, now);
    NotYetWorking(s, owner);
    if Claimable(s.db, id, now) {
      ClaimLog(s, id, owner, now);
      OthersAware(s, t, id, owner);
    } else {
      forall o | o in t.workers ensures Aware(t, o, t.workers[o]) { assert Aware(s, o, s.workers[o]); }
    }
  }

  lemma {:induction false} NotYetWorking(s: Sys, owner: string)
    requires Inv(s) && owner !in s.issued
    ensures owner !in s.workers && forall o :: o in s.workers ==> s.workers[o].w.id in s.db.workflows
  {
    forall o | o in s.workers ensures o != owner && s.workers[o].w.id in s.db.workflows {
      assert WorkerOk(s, o, s.workers[o]);
    }
  }

  lemma {:induction false} ClaimLog(s: Sys, id: string, owner: string, now: int)
    requires owner !in s.issued && Claimable(s.db, id, now) && owner !in s.workers && s.db.workflows[id].id == id
    ensures var t := AfterClaimStep(s, id, owner, now);
      LogKept(s, t, id, owner) && (owner in t.workers ==> Aware(t, owner, t.workers[owner]))
  {
    if Authorized(s.db, s.db.workflows[id].binding) { GrantedLog(s, id, owner, now); } else { FencedLog(s, id, owner, now); }
  }

  lemma {:induction false} GrantedLog(s: Sys, id: string, owner: string, now: int)
    requires Claimable(s.db, id, now) && s.db.workflows[id].id == id && Authorized(s.db, s.db.workflows[id].binding)
    ensures var t := AfterClaimStep(s, id, owner, now);
      LogKept(s, t, id, owner) && owner in t.workers && Aware(t, owner, t.workers[owner])
  {
    var t := AfterClaimStep(s, id, owner, now);
    assert t.db.workflows[id].logComplete == s.db.workflows[id].logComplete;
    assert t.db.leases == s.db.leases[id := Lease(owner, now + LEASE_TIME)];
  }

  lemma {:induction false} FencedLog(s: Sys, id: string, owner: string, now: int)
    requires Claimable(s.db, id, now) && owner !in s.workers && !Authorized(s.db, s.db.workflows[id].binding)
    ensures var t := AfterClaimStep(s, id, owner, now); LogKept(s, t, id, owner) && owner !in t.workers
  {
    var t := AfterClaimStep(s, id, owner, now);
    assert t.db.leases == s.db.leases && t.workers == s.workers;
  }

  lemma {:induction false} CommitAware(s: Sys, owner: string, now: int)
    requires Inv(s) && AllAware(s) && owner in s.workers && Commits(s.workers[owner].phase)
    requires MayCommit(s.db, s.workers[owner].w, owner, now)
    ensures AllAware(AfterCommitStep(s, owner, now, true))
  {
    assert WorkerOk(s, owner, s.workers[owner]);
    assert Aware(s, owner, s.workers[owner]);
    forall o | o in s.workers ensures s.workers[o].w.id in s.db.workflows { assert WorkerOk(s, o, s.workers[o]); }
    CommitLog(s, owner, now);
    OthersAware(s, AfterCommitStep(s, owner, now, true), s.workers[owner].w.id, owner);
  }

  lemma {:induction false} CommitLog(s: Sys, owner: string, now: int)
    requires owner in s.workers && Commits(s.workers[owner].phase) && s.workers[owner].w.id in s.db.workflows
    requires MayCommit(s.db, s.workers[owner].w, owner, now)
    ensures var t := AfterCommitStep(s, owner, now, true);
      LogKept(s, t, s.workers[owner].w.id, owner) && (owner in t.workers ==> Aware(t, owner, t.workers[owner]))
  {
  }

  lemma {:induction false} RequestAware(s: Sys, account: string, id: string, serials: seq<string>, op: Operation, now: int)
    requires Inv(s) && AllAware(s)
    ensures AllAware(AfterRequestStep(s, account, id, serials, op, now))
  {
    var t := AfterRequestStep(s, account, id, serials, op, now);
    forall o | o in t.workers ensures Aware(t, o, t.workers[o]) {
      assert WorkerOk(s, o, s.workers[o]);
      assert Aware(s, o, s.workers[o]);
    }
  }

  lemma {:induction false} StepAware(s: Sys, a: Action)
    requires Inv(s) && AllAware(s) && Enabled(s, a)
    ensures AllAware(Next(s, a))
  {
    match a
    case Request(account, id, serials, op, now) => RequestAware(s, account, id, serials, op, now);
    case Claim(id, owner, now) => ClaimAware(s, id, owner, now);
    case Commit(owner, now, observed) =>
      if observed && MayCommit(s.db, s.workers[owner].w, owner, now) { CommitAware(s, owner, now); } else { GoneAware(s, owner); }
    case Crash(owner) => GoneAware(s, owner);
    case Local(owner, move) => LocalAware(s, owner, move);
    case Send(owner, activity, now) => SendAware(s, owner, activity, now);
    case Administer(_) =>
      forall o | o in s.workers ensures Aware(Next(s, a), o, s.workers[o]) { assert Aware(s, o, s.workers[o]); }
  }

  lemma {:induction false} GoneAware(s: Sys, owner: string)
    requires AllAware(s)
    ensures AllAware(Gone(s, owner))
  {
    forall o | o in Gone(s, owner).workers ensures Aware(Gone(s, owner), o, Gone(s, owner).workers[o]) { assert Aware(s, o, s.workers[o]); }
  }

  lemma {:induction false} LocalAware(s: Sys, owner: string, m: Move)
    requires AllAware(s) && owner in s.workers && CanMove(s.workers[owner], m)
    ensures AllAware(Moved(s, owner, AfterMove(s.workers[owner], m)))
  {
    var t := Moved(s, owner, AfterMove(s.workers[owner], m));
    assert Aware(s, owner, s.workers[owner]);
    MoveAware(s, owner, s.workers[owner], m);
    forall o | o in t.workers ensures Aware(t, o, t.workers[o]) {
      if o != owner { assert Aware(s, o, s.workers[o]); }
    }
  }

  lemma {:induction false} SendAware(s: Sys, owner: string, activity: string, now: int)
    requires AllAware(s) && owner in s.workers && s.workers[owner].phase == Ready
    ensures AllAware(AfterSend(s, owner, activity, now))
  {
    var t := AfterSend(s, owner, activity, now);
    assert Aware(s, owner, s.workers[owner]);
    forall o | o in t.workers ensures Aware(t, o, t.workers[o]) {
      if o != owner { assert Aware(s, o, s.workers[o]); }
    }
  }

  lemma {:induction false} RunAware(actions: seq<Action>)
    ensures AllAware(Run(actions))
  {
    if actions != [] {
      var s, a := Run(actions[..|actions| - 1]), actions[|actions| - 1];
      RunAware(actions[..|actions| - 1]);
      RunKeeps(actions[..|actions| - 1]);
      if Enabled(s, a) { StepAware(s, a); }
    }
  }

  // ----- A complete log never changes -----

  /** Nothing of the workflow's retained log differs. */
  ghost predicate SameLog(s: Sys, t: Sys, id: string) {
    && (id in t.db.counts <==> id in s.db.counts)
    && (id in s.db.counts ==> t.db.counts[id] == s.db.counts[id])
    && (forall i :: (id, i) in t.db.chunks <==> (id, i) in s.db.chunks)
    && (forall i :: (id, i) in s.db.chunks ==> t.db.chunks[(id, i)] == s.db.chunks[(id, i)])
  }

  predicate LogDone(s: Sys, id: string) {
    id in s.db.workflows && s.db.workflows[id].logComplete
  }

  /** Chunks of one workflow never touch those of another. */
  lemma {:induction false} OtherChunks(chunks: map<(string, nat), Bytes>, id: string, csv: Bytes, n: nat, other: string)
    requires n <= ChunkCount(csv) && other != id
    ensures forall i :: (other, i) in WithChunks(chunks, id, csv, n) <==> (other, i) in chunks
    ensures forall i :: (other, i) in chunks ==> WithChunks(chunks, id, csv, n)[(other, i)] == chunks[(other, i)]
  {
    if n > 0 { OtherChunks(chunks, id, csv, n - 1, other); }
  }

  lemma {:induction false} StepLogDone(s: Sys, a: Action, id: string)
    requires Inv(s) && AllAware(s) && Enabled(s, a) && LogDone(s, id)
    ensures LogDone(Next(s, a), id) && SameLog(s, Next(s, a), id)
  {
    match a
    case Commit(owner, now, observed) =>
      if observed && MayCommit(s.db, s.workers[owner].w, owner, now) { CommitLogDone(s, owner, now, id); }
    case Request(account, wid, serials, op, now) => RequestLogDone(s, account, wid, serials, op, now, id);
    case Claim(wid, owner, now) => ClaimLogDone(s, wid, owner, now, id);
    case _ =>
  }

  lemma {:induction false} RequestLogDone(s: Sys, account: string, wid: string, serials: seq<string>, op: Operation, now: int, id: string)
    requires LogDone(s, id)
    ensures var t := AfterRequestStep(s, account, wid, serials, op, now); LogDone(t, id) && SameLog(s, t, id)
  {
  }

  lemma {:induction false} ClaimLogDone(s: Sys, wid: string, owner: string, now: int, id: string)
    requires LogDone(s, id)
    ensures var t := AfterClaimStep(s, wid, owner, now); LogDone(t, id) && SameLog(s, t, id)
  {
  }

  lemma {:induction false} CommitLogDone(s: Sys, owner: string, now: int, id: string)
    requires AllAware(s) && owner in s.workers && Commits(s.workers[owner].phase) && LogDone(s, id)
    requires MayCommit(s.db, s.workers[owner].w, owner, now)
    ensures var t := AfterCommitStep(s, owner, now, true); LogDone(t, id) && SameLog(s, t, id)
  {
    var k := s.workers[owner];
    assert Aware(s, owner, k);
    if k.phase.Logging? && k.w.id != id { OtherChunks(s.db.chunks, k.w.id, k.phase.csv, ChunkCount(k.phase.csv), id); }
  }

  /**
   * Once the stored workflow has a complete log, its chunks and their count never change again, in any run and
   * whatever the clocks say.
   */
  lemma {:induction false} CompleteLogIsFinal(actions: seq<Action>, m: nat, n: nat, id: string)
    requires m <= n <= |actions| && LogDone(Run(actions[..m]), id)
    ensures LogDone(Run(actions[..n]), id) && SameLog(Run(actions[..m]), Run(actions[..n]), id)
  {
    if m < n {
      CompleteLogIsFinal(actions, m, n - 1, id);
      RunKeeps(actions[..n - 1]);
      RunAware(actions[..n - 1]);
      assert actions[..n][..n - 1] == actions[..n - 1];
      if Enabled(Run(actions[..n - 1]), actions[n - 1]) { StepLogDone(Run(actions[..n - 1]), actions[n - 1], id); }
    }
  }
}
