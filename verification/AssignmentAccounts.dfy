/** A binding that was replaced, or whose account or key was, never becomes current again. */
module AssignmentAccounts {
  import opened Basics
  import opened Assignment
  import opened AssignmentRuns
  import AssignmentBacking

  /** Every account has its key, and its creation time is one that was used. */
  ghost predicate Recorded(s: Sys) {
    forall id :: id in s.db.accounts ==> id in s.db.keys && (id, s.db.accounts[id].createdAt) in s.created
  }

  /** The account, as the binding has it. */
  function AccountOf(b: Binding): Account {
    b.fingerprint.account
  }

  predicate SameIncarnation(db: Db, b: Binding) {
    b.account in db.accounts && db.accounts[b.account].createdAt == AccountOf(b).createdAt
  }

  /**
   * The binding was made by configuring: its generation tells it apart, and its account has since only moved on to later
   * revisions or other incarnations.
   */
  ghost predicate Made(s: Sys, b: Binding) {
    && b.generation in s.generations && (b.account, AccountOf(b).createdAt) in s.created
    && b.revision == AccountOf(b).revision && AccountOf(b).enabled
    && b.account in s.db.bindings && (s.db.bindings[b.account].generation == b.generation ==> s.db.bindings[b.account] == b)
    && (SameIncarnation(s.db, b) ==>
          && AccountOf(b).revision <= s.db.accounts[b.account].revision
          && (AccountOf(b).revision == s.db.accounts[b.account].revision ==>
                b.account in s.db.keys && Print(s.db.accounts[b.account], s.db.keys[b.account]) == b.fingerprint))
  }

  ghost predicate Known(s: Sys) {
    && Recorded(s)
    && (forall k :: k in s.db.bindings ==> s.db.bindings[k].account == k && Made(s, s.db.bindings[k]))
    && (forall id :: id in s.db.workflows ==> Made(s, s.db.workflows[id].binding))
  }

  /** Another binding took its place, or its account went away, was created again or was saved again. */
  ghost predicate GivenUp(s: Sys, b: Binding) {
    && b.generation in s.generations && (b.account, AccountOf(b).createdAt) in s.created && b.account in s.db.bindings
    && (|| s.db.bindings[b.account].generation != b.generation
        || !SameIncarnation(s.db, b)
        || AccountOf(b).revision < s.db.accounts[b.account].revision)
  }

  lemma {:induction false} GivenUpRefused(s: Sys, b: Binding)
    requires GivenUp(s, b)
    ensures !Current(s.db, b)
  {
  }

  /** What a claim finds replaced is given up. */
  lemma {:induction false} ReplacedIsGivenUp(s: Sys, b: Binding)
    requires Made(s, b) && !Authorized(s.db, b)
    ensures GivenUp(s, b)
  {
  }

  // ----- Changes of configuration -----

  lemma {:induction false} ChangeMade(s: Sys, c: Change, b: Binding)
    requires MayChange(s, c) && Recorded(s) && Made(s, b)
    ensures Made(AfterChange(s, c), b)
  {
  }

  lemma {:induction false} ChangeGivenUp(s: Sys, c: Change, b: Binding)
    requires MayChange(s, c) && GivenUp(s, b)
    ensures GivenUp(AfterChange(s, c), b)
  {
  }

  lemma {:induction false} ChangeRecorded(s: Sys, c: Change)
    requires MayChange(s, c) && Recorded(s)
    ensures Recorded(AfterChange(s, c))
  {
  }

  lemma {:induction false} NewMade(s: Sys, c: Change)
    requires c.Configure? && MayChange(s, c) && Recorded(s)
    ensures Made(AfterChange(s, c), NewBinding(s.db, c.id, c.generation, c.service, c.columns))
  {
  }

  lemma {:induction false} ChangeKnown(s: Sys, c: Change)
    requires MayChange(s, c) && Known(s)
    ensures Known(AfterChange(s, c))
  {
    var t := AfterChange(s, c);
    ChangeRecorded(s, c);
    forall k | k in t.db.bindings ensures t.db.bindings[k].account == k && Made(t, t.db.bindings[k]) {
      if c.Configure? && k == c.id { NewMade(s, c); } else { ChangeMade(s, c, s.db.bindings[k]); }
    }
    forall id | id in t.db.workflows ensures Made(t, t.db.workflows[id].binding) {
      ChangeMade(s, c, s.db.workflows[id].binding);
    }
  }

  // ----- Every other step -----

  /** Accounts, keys and bindings are as they were, and so is what was used for them. */
  predicate SameConfiguration(s: Sys, t: Sys) {
    && t.db.accounts == s.db.accounts && t.db.keys == s.db.keys && t.db.bindings == s.db.bindings
    && t.generations == s.generations && t.created == s.created
  }

  lemma {:induction false} StepSame(s: Sys, a: Action)
    requires Enabled(s, a) && !a.Administer?
    ensures SameConfiguration(s, Next(s, a))
  {
    match a
    case Request(account, id, serials, op, now) => RequestSame(s, account, id, serials, op, now);
    case Claim(id, owner, now) => ClaimSame(s, id, owner, now);
    case Commit(owner, now, observed) => CommitSame(s, owner, now, observed);
    case _ =>
  }

  lemma {:induction false} RequestSame(s: Sys, account: string, id: string, serials: seq<string>, op: Operation, now: int)
    ensures SameConfiguration(s, AfterRequestStep(s, account, id, serials, op, now))
  {
  }

  lemma {:induction false} ClaimSame(s: Sys, id: string, owner: string, now: int)
    ensures SameConfiguration(s, AfterClaimStep(s, id, owner, now))
  {
  }

  lemma {:induction false} CommitSame(s: Sys, owner: string, now: int, observed: bool)
    requires owner in s.workers
    ensures SameConfiguration(s, AfterCommitStep(s, owner, now, observed))
  {
  }

  /** A workflow has the binding it had, or the stored one. */
  ghost predicate OldBindings(s: Sys, t: Sys) {
    forall id :: id in t.db.workflows ==>
      || (id in s.db.workflows && t.db.workflows[id].binding == s.db.workflows[id].binding)
      || (t.db.workflows[id].binding.account in s.db.bindings
          && t.db.workflows[id].binding == s.db.bindings[t.db.workflows[id].binding.account])
  }

  lemma {:induction false} RequestBindings(s: Sys, account: string, id: string, serials: seq<string>, op: Operation, now: int)
    requires Known(s)
    ensures OldBindings(s, AfterRequestStep(s, account, id, serials, op, now))
  {
  }

  lemma {:induction false} ClaimBindings(s: Sys, id: string, owner: string, now: int)
    ensures OldBindings(s, AfterClaimStep(s, id, owner, now))
  {
  }

  lemma {:induction false} CommitBindings(s: Sys, owner: string, now: int, observed: bool)
    requires owner in s.workers && AssignmentBacking.WorkerBacked(s, s.workers[owner])
    ensures OldBindings(s, AfterCommitStep(s, owner, now, observed))
  {
  }

  lemma {:induction false} StepBindings(s: Sys, a: Action)
    requires Enabled(s, a) && !a.Administer? && Known(s) && AssignmentBacking.Inv(s)
    ensures OldBindings(s, Next(s, a))
  {
    match a
    case Request(account, id, serials, op, now) => RequestBindings(s, account, id, serials, op, now);
    case Claim(id, owner, now) => ClaimBindings(s, id, owner, now);
    case Commit(owner, now, observed) =>
      assert AssignmentBacking.WorkerBacked(s, s.workers[owner]);
      CommitBindings(s, owner, now, observed);
    case _ =>
  }

  lemma {:induction false} SameKnown(s: Sys, t: Sys)
    requires Known(s) && SameConfiguration(s, t) && OldBindings(s, t)
    ensures Known(t)
  {
    forall id | id in t.db.workflows ensures Made(t, t.db.workflows[id].binding) {
      assert Made(s, t.db.workflows[id].binding);
    }
  }

  lemma {:induction false} StepKnown(s: Sys, a: Action)
    requires Enabled(s, a) && Known(s) && AssignmentBacking.Inv(s)
    ensures Known(Next(s, a))
  {
    if a.Administer? {
      ChangeKnown(s, a.change);
    } else {
      StepSame(s, a);
      StepBindings(s, a);
      SameKnown(s, Next(s, a));
    }
  }

  lemma {:induction false} StepGivenUp(s: Sys, a: Action, b: Binding)
    requires Enabled(s, a) && GivenUp(s, b)
    ensures GivenUp(Next(s, a), b)
  {
    if a.Administer? { ChangeGivenUp(s, a.change, b); } else { StepSame(s, a); }
  }

  // ----- Whole runs -----

  lemma {:induction false} RunKnown(actions: seq<Action>)
    ensures Known(Run(actions))
  {
    if actions != [] {
      var prefix, a := actions[..|actions| - 1], actions[|actions| - 1];
      RunKnown(prefix);
      AssignmentBacking.RunKeeps(prefix);
      if Enabled(Run(prefix), a) { StepKnown(Run(prefix), a); }
    }
  }

  lemma {:induction false} StaysGivenUp(actions: seq<Action>, i: nat, j: nat, b: Binding)
    requires i <= j <= |actions| && GivenUp(Run(actions[..i]), b)
    ensures GivenUp(Run(actions[..j]), b)
  {
    if i < j {
      StaysGivenUp(actions, i, j - 1, b);
      assert actions[..j][..j - 1] == actions[..j - 1];
      if Enabled(Run(actions[..j - 1]), actions[j - 1]) { StepGivenUp(Run(actions[..j - 1]), actions[j - 1], b); }
    }
  }

  /**
   * In every run, once the account, key or binding of a workflow is not the one it was requested under, no later commit
   * is accepted for it, whatever the clocks say.
   */
  lemma {:induction false} ReplacedForGood(actions: seq<Action>, i: nat, j: nat, id: string)
    requires i <= j <= |actions| && id in Run(actions[..i]).db.workflows
    requires !Authorized(Run(actions[..i]).db, Run(actions[..i]).db.workflows[id].binding)
    ensures !Current(Run(actions[..j]).db, Run(actions[..i]).db.workflows[id].binding)
  {
    var s := Run(actions[..i]);
    var b := s.db.workflows[id].binding;
    RunKnown(actions[..i]);
    ReplacedIsGivenUp(s, b);
    StaysGivenUp(actions, i, j, b);
    GivenUpRefused(Run(actions[..j]), b);
  }
}
