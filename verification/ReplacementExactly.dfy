/** Exactly which begin records make every commit of their attempt rest on a handshake. */
module ReplacementExactly {
  import opened Basics
  import opened Replacement
  import opened ReplacementRuns

  // ----- Records that no run can commit -----

  /** Under SCEP a key can be claimed only with a secret, and nothing is issued without a key. */
  predicate Barred(x: Record) {
    x.via == Scep && x.secretHash == "" && x.publicKeyHash == "" && x.candidateHash == "" && !x.authenticated
  }

  lemma {:induction false} BarredStep(id: EnrollmentId, r: Record, k: Call)
    requires Barred(r) && !(k.change.op == Begin && Kept(id, Some(r), k))
    ensures Advance(Some(r), At(id, k), k.change).1 != Commit
    ensures Step(id, Some(r), k).Some? && Barred(Step(id, Some(r), k).value)
  {
    if Kept(id, Some(r), k) && k.change.op != Read { KeptEffect(id, r, k); }
  }

  lemma {:induction false} BarredStays(id: EnrollmentId, calls: seq<Call>, b: nat, n: nat)
    requires n <= |calls| && BeganAt(id, calls, b, n) && Barred(calls[b].change.begin.value)
    ensures After(id, calls, n).Some? && Barred(After(id, calls, n).value)
  {
    if b < n - 1 {
      BarredStays(id, calls, b, n - 1);
      assert !Took(id, calls, n - 1, Begin);
      BarredStep(id, After(id, calls, n - 1).value, calls[n - 1]);
    }
  }

  lemma {:induction false} BarredNeverCommits(id: EnrollmentId, calls: seq<Call>, b: nat, n: nat)
    requires n < |calls| && BeganAt(id, calls, b, n) && Barred(calls[b].change.begin.value)
    ensures !Commits(id, calls, n)
  {
    BarredStays(id, calls, b, n);
    var r := After(id, calls, n).value;
    if calls[n].change.op != Begin { BarredStep(id, r, calls[n]); }
  }

  // ----- A run that does only what is still missing -----

  function Plain(op: Op, x: Record, hash: string, at: int): Change {
    Change(op, x.id, hash, x.via, "", "", "", "", 0, at, None, "", None, None)
  }

  function With(x: Record, c: Change): Call {
    Call(x.oldHash, true, c, true)
  }

  function Started(x: Record, at: int): Change {
    Plain(Begin, x, "", at).(begin := Some(x))
  }

  function Claimed(x: Record, at: int): Change {
    Plain(Claim, x, "", at).(secretHash := x.secretHash, publicKeyHash := "key", csrHash := if x.csrHash == "" then "csr" else x.csrHash)
  }

  function Issued(x: Record, key: string, at: int): Change {
    Plain(Issue, x, "candidate", at).(publicKeyHash := key, issuer := x.issuer)
  }

  function Reported(x: Record, id: EnrollmentId, hash: string, at: int): Change {
    Plain(TokenUpdate, x, hash, at).(token := Some(Token(id, Usable, "")))
  }

  function Acked(x: Record, at: int): Change {
    Plain(Result, x, x.oldHash, at).(response := Some(Response(x.commandUuid, Acknowledged)))
  }

  /** The fields that no call of the attempt changes. */
  predicate SameAttempt(x: Record, r: Record) {
    && r.state == Pending && r.id == x.id && r.via == x.via && r.oldHash == x.oldHash && r.secretHash == x.secretHash
    && r.issuer == x.issuer && r.expiresAt == x.expiresAt && r.commandUuid == x.commandUuid
  }

  /** The calls begin with `x`, never begin again, and leave `r` pending. */
  ghost predicate Leaves(id: EnrollmentId, x: Record, at: int, calls: seq<Call>, r: Record) {
    && |calls| >= 1 && calls[0] == With(x, Started(x, at)) && Took(id, calls, 0, Begin)
    && (forall i :: 0 < i < |calls| ==> calls[i].change.op != Begin)
    && After(id, calls, |calls|) == Some(r) && SameAttempt(x, r) && at != 0 && at < x.expiresAt
  }

  lemma {:induction false} Prefix(id: EnrollmentId, calls: seq<Call>, k: Call, n: nat)
    requires n <= |calls|
    ensures After(id, calls + [k], n) == After(id, calls, n)
  {
    if n > 0 {
      Prefix(id, calls, k, n - 1);
      assert (calls + [k])[n - 1] == calls[n - 1];
    }
  }

  lemma {:induction false} Appended(id: EnrollmentId, calls: seq<Call>, k: Call)
    ensures After(id, calls + [k], |calls|) == After(id, calls, |calls|)
    ensures After(id, calls + [k], |calls| + 1) == Step(id, After(id, calls, |calls|), k)
  {
    Prefix(id, calls, k, |calls|);
  }

  lemma {:induction false} StillBegun(id: EnrollmentId, calls: seq<Call>, k: Call)
    requires |calls| >= 1 && Took(id, calls, 0, Begin) && forall i :: 0 < i < |calls| ==> calls[i].change.op != Begin
    ensures Took(id, calls + [k], 0, Begin) && BeganAt(id, calls + [k], 0, |calls|)
  {
    var more := calls + [k];
    Prefix(id, calls, k, 0);
    assert more[0] == calls[0];
    assert forall i :: 0 < i < |calls| ==> more[i].change.op != Begin;
  }

  /** An accepted change either completes the attempt or leaves its effect. */
  lemma {:induction false} Push(id: EnrollmentId, x: Record, at: int, calls: seq<Call>, r: Record, c: Change)
    requires Leaves(id, x, at, calls, r) && c.at == at && c.id == x.id && c.op !in {Begin, Read, Unknown}
    requires Allowed(r, Enrollment(id, x.oldHash, true), c)
    ensures var e := Enrollment(id, x.oldHash, true); var more := calls + [With(x, c)]; var next := Effect(r, e, c);
      if Complete(next, e) then CommitsAttempt(id, more, 0, |calls|) && After(id, more, |more|) == Some(next.(state := Committed, completedAt := at))
      else SameAttempt(x, next) ==> Leaves(id, x, at, more, next)
  {
    Appended(id, calls, With(x, c));
    StillBegun(id, calls, With(x, c));
    PushStep(id, x, at, r, c);
  }

  lemma {:induction false} PushStep(id: EnrollmentId, x: Record, at: int, r: Record, c: Change)
    requires SameAttempt(x, r) && at != 0 && at < x.expiresAt && c.at == at && c.id == x.id && c.op !in {Begin, Read, Unknown}
    requires Allowed(r, Enrollment(id, x.oldHash, true), c)
    ensures var e := Enrollment(id, x.oldHash, true); var next := Effect(r, e, c);
      && Kept(id, Some(r), With(x, c)) && Step(id, Some(r), With(x, c)) == Some(Settled(next, e, at))
      && (Advance(Some(r), At(id, With(x, c)), c).1 == Commit <==> Complete(next, e))
  {
    assert Aged(r, at) == r;
  }

  function OpsOf(calls: seq<Call>): set<Op> {
    set i | 0 <= i < |calls| :: calls[i].change.op
  }

  lemma {:induction false} OpsMore(calls: seq<Call>, k: Call)
    ensures OpsOf(calls + [k]) == OpsOf(calls) + {k.change.op}
  {
    var more := calls + [k];
    assert more[|calls|] == k;
    forall op | op in OpsOf(calls) ensures op in OpsOf(more) {
      var i :| 0 <= i < |calls| && calls[i].change.op == op;
      assert more[i].change.op == op;
    }
  }

  /** The attempt is committed by the last call, or still pending. */
  ghost predicate Reached(id: EnrollmentId, x: Record, at: int, calls: seq<Call>, r: Record, done: bool) {
    if done then
      |calls| >= 2 && calls[0] == With(x, Started(x, at)) && CommitsAttempt(id, calls, 0, |calls| - 1)
      && After(id, calls, |calls|) == Some(r) && r.via == x.via
    else Leaves(id, x, at, calls, r)
  }

  lemma {:induction false} Pushed(id: EnrollmentId, x: Record, at: int, calls: seq<Call>, r: Record, c: Change)
      returns (more: seq<Call>, next: Record, done: bool)
    requires Leaves(id, x, at, calls, r) && c.at == at && c.id == x.id && c.op in {Claim, Issue, Authenticate, TokenUpdate, Deliver, Result}
    requires c.op == Result ==> c.response.Some? && c.response.value.status == Acknowledged
    requires Allowed(r, Enrollment(id, x.oldHash, true), c)
    ensures Reached(id, x, at, more, next, done) && OpsOf(more) == OpsOf(calls) + {c.op}
    ensures done <==> Complete(Effect(r, Enrollment(id, x.oldHash, true), c), Enrollment(id, x.oldHash, true))
    ensures !done ==> next == Effect(r, Enrollment(id, x.oldHash, true), c)
  {
    var e := Enrollment(id, x.oldHash, true);
    more, next := calls + [With(x, c)], Effect(r, e, c);
    done := Complete(next, e);
    Push(id, x, at, calls, r, c);
    OpsMore(calls, With(x, c));
    if done { next := next.(state := Committed, completedAt := at); }
  }

  lemma {:induction false} Opening(id: EnrollmentId, x: Record, at: int) returns (calls: seq<Call>)
    requires at != 0 && Startable(x, Enrollment(id, x.oldHash, true), at)
    ensures Leaves(id, x, at, calls, x.(state := Pending)) && OpsOf(calls) == {Begin}
  {
    calls := [With(x, Started(x, at))];
    assert After(id, calls, 0) == None;
    assert calls[0].change.op == Begin;
  }

  predicate SameProgress(x: Record, r: Record) {
    r.authenticated == x.authenticated && r.tokens == x.tokens && r.delivered == x.delivered && r.acknowledged == x.acknowledged
  }

  lemma {:induction false} ToKey(id: EnrollmentId, x: Record, at: int) returns (calls: seq<Call>, r: Record)
    requires at != 0 && Startable(x, Enrollment(id, x.oldHash, true), at) && !Barred(x)
    ensures Leaves(id, x, at, calls, r) && SameProgress(x, r) && r.candidateHash == x.candidateHash
    ensures x.authenticated || x.candidateHash != "" || (x.via == Scep ==> r.publicKeyHash != "")
    ensures OpsOf(calls) <= {Begin, Claim}
    ensures x.authenticated || x.candidateHash != "" || (x.via == Scep && x.publicKeyHash != "") ==> OpsOf(calls) == {Begin}
  {
    calls := Opening(id, x, at);
    r := x.(state := Pending);
    if !x.authenticated && x.candidateHash == "" && x.via == Scep && x.publicKeyHash == "" {
      var done;
      calls, r, done := Pushed(id, x, at, calls, r, Claimed(x, at));
    }
  }

  lemma {:induction false} ToCandidate(id: EnrollmentId, x: Record, at: int) returns (calls: seq<Call>, r: Record)
    requires at != 0 && Startable(x, Enrollment(id, x.oldHash, true), at) && !Barred(x)
    ensures Leaves(id, x, at, calls, r) && SameProgress(x, r) && (r.authenticated || r.candidateHash != "")
    ensures OpsOf(calls) <= {Begin, Claim, Issue}
    ensures x.authenticated || x.candidateHash != "" ==> OpsOf(calls) == {Begin}
    ensures x.via == Scep && x.publicKeyHash != "" ==> Claim !in OpsOf(calls)
  {
    calls, r := ToKey(id, x, at);
    if !x.authenticated && x.candidateHash == "" {
      var done;
      calls, r, done := Pushed(id, x, at, calls, r, Issued(x, r.publicKeyHash, at));
    }
  }

  /** What the record had from the start was not done again. */
  predicate Spared(x: Record, id: EnrollmentId, ops: set<Op>) {
    && (x.authenticated ==> Authenticate !in ops) && (HasToken(x.tokens, id) ==> TokenUpdate !in ops)
    && (x.candidateHash != "" ==> Issue !in ops) && (x.via == Scep && x.publicKeyHash != "" ==> Claim !in ops)
  }

  lemma {:induction false} SparedMore(x: Record, id: EnrollmentId, ops: set<Op>)
    requires Spared(x, id, ops) && !HasToken(x.tokens, id)
    ensures Spared(x, id, ops + {TokenUpdate})
  {
  }

  lemma {:induction false} ToAuthenticated(id: EnrollmentId, x: Record, at: int) returns (calls: seq<Call>, r: Record, done: bool)
    requires at != 0 && Startable(x, Enrollment(id, x.oldHash, true), at) && !Barred(x)
    ensures Reached(id, x, at, calls, r, done)
    ensures !done ==> r.authenticated && SameProgress(x.(authenticated := true), r)
    ensures OpsOf(calls) <= {Begin, Claim, Issue, Authenticate} && Spared(x, id, OpsOf(calls))
  {
    calls, r := ToCandidate(id, x, at);
    done := false;
    if !x.authenticated {
      calls, r, done := Pushed(id, x, at, calls, r, Plain(Authenticate, x, r.candidateHash, at));
    }
  }

  lemma {:induction false} AddToken(id: EnrollmentId, x: Record, at: int, calls: seq<Call>, r: Record)
      returns (more: seq<Call>, next: Record, done: bool)
    requires Leaves(id, x, at, calls, r) && r.authenticated
    ensures Reached(id, x, at, more, next, done) && OpsOf(more) == OpsOf(calls) + {TokenUpdate}
    ensures done <==> r.acknowledged
    ensures !done ==> next.authenticated && HasToken(next.tokens, id) && next.delivered == r.delivered && !next.acknowledged
  {
    WithTokenHas(r.tokens, Token(id, Usable, ""), id);
    more, next, done := Pushed(id, x, at, calls, r, Reported(x, id, r.candidateHash, at));
  }

  lemma {:induction false} ToToken(id: EnrollmentId, x: Record, at: int) returns (calls: seq<Call>, r: Record, done: bool)
    requires at != 0 && Startable(x, Enrollment(id, x.oldHash, true), at) && !Barred(x)
    ensures Reached(id, x, at, calls, r, done) && Spared(x, id, OpsOf(calls))
    ensures Result !in OpsOf(calls) && Deliver !in OpsOf(calls)
    ensures !done ==> r.authenticated && HasToken(r.tokens, id) && r.delivered == x.delivered && r.acknowledged == x.acknowledged
    ensures !done && x.acknowledged ==> TokenUpdate !in OpsOf(calls)
  {
    calls, r, done := ToAuthenticated(id, x, at);
    var before := OpsOf(calls);
    assert Result !in before && Deliver !in before && TokenUpdate !in before;
    if !done && !HasToken(x.tokens, id) {
      SparedMore(x, id, before);
      calls, r, done := AddToken(id, x, at, calls, r);
    }
  }

  /** The last branch: deliver and acknowledge, or any call if the record claims to be acknowledged. */
  lemma {:induction false} Acknowledging(id: EnrollmentId, x: Record, at: int, calls: seq<Call>, r: Record)
      returns (more: seq<Call>, next: Record)
    requires Leaves(id, x, at, calls, r) && r.authenticated && HasToken(r.tokens, id)
    ensures Reached(id, x, at, more, next, true) && OpsOf(more) <= OpsOf(calls) + {Deliver, Result}
    ensures r.acknowledged ==> Result in OpsOf(more) ==> Result in OpsOf(calls)
    ensures !r.acknowledged && r.delivered ==> Deliver in OpsOf(more) ==> Deliver in OpsOf(calls)
  {
    more, next := calls, r;
    var done := false;
    if r.acknowledged || !r.delivered {
      more, next, done := Pushed(id, x, at, calls, r, Plain(Deliver, x, x.oldHash, at));
    }
    if !done {
      more, next, done := Pushed(id, x, at, more, next, Acked(x, at));
    }
  }

  /** The calls that a handshake consists of. */
  function Needed(via: Method): set<Op> {
    {Issue, Authenticate, TokenUpdate, Deliver, Result} + if via == Scep then {Claim} else {}
  }

  predicate Lacking(x: Record, id: EnrollmentId, ops: set<Op>) {
    Spared(x, id, ops) && (x.acknowledged ==> Result !in ops) && (!x.acknowledged && x.delivered ==> Deliver !in ops)
  }

  lemma {:induction false} LackingMore(x: Record, id: EnrollmentId, before: set<Op>, ops: set<Op>)
    requires Spared(x, id, before) && Result !in before && Deliver !in before && ops <= before + {Deliver, Result}
    requires (x.acknowledged ==> Result !in ops) && (!x.acknowledged && x.delivered ==> Deliver !in ops)
    ensures Lacking(x, id, ops)
  {
  }

  lemma {:induction false} ToCommit(id: EnrollmentId, x: Record, at: int) returns (calls: seq<Call>, r: Record)
    requires at != 0 && Startable(x, Enrollment(id, x.oldHash, true), at) && !Barred(x)
    ensures Reached(id, x, at, calls, r, true) && Lacking(x, id, OpsOf(calls))
  {
    var done;
    calls, r, done := ToToken(id, x, at);
    var before := OpsOf(calls);
    if !done { calls, r := Acknowledging(id, x, at, calls, r); }
    LackingMore(x, id, before, OpsOf(calls));
  }

  /** Whatever progress the begin record claims, one of the calls of a handshake was never made, and it is committed. */
  lemma {:induction false} PresetCommits(id: EnrollmentId, x: Record, at: int) returns (calls: seq<Call>, missing: Op)
    requires at != 0 && Startable(x, Enrollment(id, x.oldHash, true), at) && !Barred(x) && !Clean(x, id)
    ensures |calls| >= 2 && calls[0] == With(x, Started(x, at)) && CommitsAttempt(id, calls, 0, |calls| - 1)
    ensures missing in Needed(x.via) && missing !in OpsOf(calls)
    ensures After(id, calls, |calls|).Some? && After(id, calls, |calls|).value.via == x.via
  {
    var r;
    calls, r := ToCommit(id, x, at);
    missing := Missing(x, id);
    MissingNever(x, id, OpsOf(calls));
  }

  function Missing(x: Record, id: EnrollmentId): Op {
    if x.authenticated then Authenticate
    else if HasToken(x.tokens, id) then TokenUpdate
    else if x.candidateHash != "" then Issue
    else if x.via == Scep && x.publicKeyHash != "" then Claim
    else if x.acknowledged then Result
    else Deliver
  }

  lemma {:induction false} MissingNever(x: Record, id: EnrollmentId, ops: set<Op>)
    requires !Clean(x, id) && Lacking(x, id, ops)
    ensures Missing(x, id) in Needed(x.via) && Missing(x, id) !in ops
  {
  }

  lemma {:induction false} OpAt(calls: seq<Call>, i: nat)
    requires i < |calls|
    ensures calls[i].change.op in OpsOf(calls)
  {
  }

  /** A handshake makes each of the calls it consists of. */
  lemma {:induction false} HandshakeOps(id: EnrollmentId, calls: seq<Call>, b: nat, n: nat, r: Record)
    requires n <= |calls| && Handshake(id, calls, b, n, r)
    ensures Needed(r.via) <= OpsOf(calls)
  {
    IdentityOps(id, calls, b, n, r);
    ProfileOps(id, calls, b, n, r);
    AllNeeded(r.via, OpsOf(calls));
  }

  lemma {:induction false} AllNeeded(via: Method, ops: set<Op>)
    requires {TokenUpdate, Authenticate, Issue} <= ops && {Result, Deliver} <= ops && (via == Scep ==> Claim in ops)
    ensures Needed(via) <= ops
  {
  }

  lemma {:induction false} IdentityOps(id: EnrollmentId, calls: seq<Call>, b: nat, n: nat, r: Record)
    requires n <= |calls| && exists t :: b < t < n && TokenAt(id, calls, b, t, r.via, r.candidateHash)
    ensures {TokenUpdate, Authenticate, Issue} <= OpsOf(calls) && (r.via == Scep ==> Claim in OpsOf(calls))
  {
    var t :| b < t < n && TokenAt(id, calls, b, t, r.via, r.candidateHash);
    TokenOps(id, calls, b, t, r);
  }

  lemma {:induction false} ProfileOps(id: EnrollmentId, calls: seq<Call>, b: nat, n: nat, r: Record)
    requires n <= |calls| && exists k :: b < k < n && AcknowledgedAt(id, calls, b, k, r.oldHash)
    ensures {Result, Deliver} <= OpsOf(calls)
  {
    var k :| b < k < n && AcknowledgedAt(id, calls, b, k, r.oldHash);
    ResultOps(id, calls, b, k, r);
  }

  lemma {:induction false} TokenOps(id: EnrollmentId, calls: seq<Call>, b: nat, t: nat, r: Record)
    requires t < |calls| && TokenAt(id, calls, b, t, r.via, r.candidateHash)
    ensures {TokenUpdate, Authenticate, Issue} <= OpsOf(calls) && (r.via == Scep ==> Claim in OpsOf(calls))
  {
    OpAt(calls, t);
    var a :| b < a < t && AuthenticatedAt(id, calls, b, a, r.via, r.candidateHash);
    OpAt(calls, a);
    IssueOps(id, calls, b, a, r);
  }

  lemma {:induction false} ResultOps(id: EnrollmentId, calls: seq<Call>, b: nat, k: nat, r: Record)
    requires k < |calls| && AcknowledgedAt(id, calls, b, k, r.oldHash)
    ensures {Result, Deliver} <= OpsOf(calls)
  {
    OpAt(calls, k);
    var d :| b < d < k && DeliveredAt(id, calls, d, r.oldHash);
    OpAt(calls, d);
  }

  lemma {:induction false} IssueOps(id: EnrollmentId, calls: seq<Call>, b: nat, a: nat, r: Record)
    requires a < |calls| && AuthenticatedAt(id, calls, b, a, r.via, r.candidateHash)
    ensures Issue in OpsOf(calls) && (r.via == Scep ==> Claim in OpsOf(calls))
  {
    var i :| b < i < a && IssuedAt(id, calls, b, i, r.via, r.candidateHash);
    OpAt(calls, i);
    if r.via == Scep {
      var q :| b < q < i && ClaimedAt(id, calls, q, calls[i].change.publicKeyHash);
      OpAt(calls, q);
    }
  }

  /** Every commit of an attempt that begins with `x` rests on a handshake, in every run. */
  ghost predicate AlwaysHandshake(id: EnrollmentId, x: Record) {
    forall calls: seq<Call>, b: nat, n: nat :: CommitsAttempt(id, calls, b, n) && calls[b].change.begin == Some(x) ==>
      After(id, calls, n + 1).Some? && Handshake(id, calls, b, n + 1, After(id, calls, n + 1).value)
  }

  /**
   * Starting an attempt does not check its progress fields. Its commits rest on a handshake exactly when they are all
   * unset, or when nothing can commit it at all.
   */
  lemma {:induction false} HandshakeExactly(id: EnrollmentId, x: Record, at: int)
    requires at != 0 && Startable(x, Enrollment(id, x.oldHash, true), at)
    ensures AlwaysHandshake(id, x) <==> Clean(x, id) || Barred(x)
  {
    if Clean(x, id) || Barred(x) {
      forall calls: seq<Call>, b: nat, n: nat | CommitsAttempt(id, calls, b, n) && calls[b].change.begin == Some(x)
        ensures After(id, calls, n + 1).Some? && Handshake(id, calls, b, n + 1, After(id, calls, n + 1).value)
      {
        if Clean(x, id) { CommitNeedsHandshake(id, calls, b, n); } else { BarredNeverCommits(id, calls, b, n); }
      }
    } else {
      var calls, missing := PresetCommits(id, x, at);
      var r := After(id, calls, |calls|).value;
      if Handshake(id, calls, 0, |calls|, r) { HandshakeOps(id, calls, 0, |calls|, r); }
      assert calls[0].change.begin == Some(x);
    }
  }
}
