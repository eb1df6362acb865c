/** Every run of replacement operations against one stored attempt. */
module ReplacementRuns {
  import opened Basics
  import opened Replacement

  /**
   * One call of TransitionReplacement. The enrollment may have changed since the last call in any way but
   * its identity; `stored` says whether the backend could also commit the candidate certificate.
   */
  datatype Call = Call(certHash: string, enabled: bool, change: Change, stored: bool)

  function At(id: EnrollmentId, k: Call): Enrollment {
    Enrollment(id, k.certHash, k.enabled)
  }

  /** A refused transition is rolled back, and so is a commit that the backend turns down. */
  predicate Kept(id: EnrollmentId, r: Option<Record>, k: Call) {
    var reply := Advance(r, At(id, k), k.change).1;
    reply == Accepted || (reply == Commit && k.stored)
  }

  function Step(id: EnrollmentId, r: Option<Record>, k: Call): Option<Record> {
    if Kept(id, r, k) then Advance(r, At(id, k), k.change).0 else r
  }

  /** The stored record after the first `n` calls. */
  function After(id: EnrollmentId, calls: seq<Call>, n: nat): Option<Record>
    requires n <= |calls|
  {
    if n == 0 then None else Step(id, After(id, calls, n - 1), calls[n - 1])
  }

  predicate Took(id: EnrollmentId, calls: seq<Call>, i: nat, op: Op)
    requires i < |calls|
  {
    calls[i].change.op == op && Kept(id, After(id, calls, i), calls[i])
  }

  predicate Commits(id: EnrollmentId, calls: seq<Call>, i: nat)
    requires i < |calls|
  {
    Kept(id, After(id, calls, i), calls[i]) && Advance(After(id, calls, i), At(id, calls[i]), calls[i].change).1 == Commit
  }

  /** A record that starts an attempt carries no handshake progress of its own. */
  predicate Clean(x: Record, id: EnrollmentId) {
    && x.candidateHash == "" && !x.authenticated && !x.delivered && !x.acknowledged
    && (x.via == Scep ==> x.publicKeyHash == "")
    && !HasToken(x.tokens, id)
  }

  // ----- The handshake events -----

  predicate ClaimedAt(id: EnrollmentId, calls: seq<Call>, i: nat, key: string)
    requires i < |calls|
  {
    Took(id, calls, i, Claim) && calls[i].change.publicKeyHash == key
  }

  /** Candidate `h` was issued at `i`; under SCEP a claim of the same key came first. */
  ghost predicate IssuedAt(id: EnrollmentId, calls: seq<Call>, b: nat, i: nat, via: Method, h: string)
    requires i < |calls|
  {
    && Took(id, calls, i, Issue) && calls[i].change.hash == h
    && (via == Scep ==> exists q :: b < q < i && ClaimedAt(id, calls, q, calls[i].change.publicKeyHash))
  }

  ghost predicate AuthenticatedAt(id: EnrollmentId, calls: seq<Call>, b: nat, a: nat, via: Method, h: string)
    requires a < |calls|
  {
    && Took(id, calls, a, Authenticate) && calls[a].change.hash == h
    && exists i :: b < i < a && IssuedAt(id, calls, b, i, via, h)
  }

  /** The device itself reported a token under identity `h`. */
  ghost predicate TokenAt(id: EnrollmentId, calls: seq<Call>, b: nat, t: nat, via: Method, h: string)
    requires t < |calls|
  {
    && Took(id, calls, t, TokenUpdate) && calls[t].change.hash == h
    && calls[t].change.token.Some? && calls[t].change.token.value.id == id
    && exists a :: b < a < t && AuthenticatedAt(id, calls, b, a, via, h)
  }

  predicate DeliveredAt(id: EnrollmentId, calls: seq<Call>, d: nat, old': string)
    requires d < |calls|
  {
    Took(id, calls, d, Deliver) && calls[d].change.hash == old'
  }

  ghost predicate AcknowledgedAt(id: EnrollmentId, calls: seq<Call>, b: nat, k: nat, old': string)
    requires k < |calls|
  {
    && Took(id, calls, k, Result)
    && calls[k].change.response.Some? && calls[k].change.response.value.status == Acknowledged
    && exists d :: b < d < k && DeliveredAt(id, calls, d, old')
  }

  /** The attempt stored after `n` calls began at `b`. */
  ghost predicate BeganAt(id: EnrollmentId, calls: seq<Call>, b: nat, n: nat)
    requires n <= |calls|
  {
    b < n && Took(id, calls, b, Begin) && forall i :: b < i < n ==> !Took(id, calls, i, Begin)
  }

  /** Everything the record claims about its attempt, which began at `b`, happened before call `n`. */
  ghost predicate Justified(id: EnrollmentId, calls: seq<Call>, b: nat, n: nat, r: Record)
    requires n <= |calls|
  {
    && (r.via == Scep && r.publicKeyHash != "" ==> exists q :: b < q < n && ClaimedAt(id, calls, q, r.publicKeyHash))
    && (r.candidateHash != "" ==> exists i :: b < i < n && IssuedAt(id, calls, b, i, r.via, r.candidateHash))
    && (r.authenticated ==> r.candidateHash != "")
    && (r.authenticated ==> exists a :: b < a < n && AuthenticatedAt(id, calls, b, a, r.via, r.candidateHash))
    && (HasToken(r.tokens, id) ==> r.authenticated)
    && (HasToken(r.tokens, id) ==> exists t :: b < t < n && TokenAt(id, calls, b, t, r.via, r.candidateHash))
    && (r.delivered ==> exists d :: b < d < n && DeliveredAt(id, calls, d, r.oldHash))
    && (r.acknowledged ==> exists k :: b < k < n && AcknowledgedAt(id, calls, b, k, r.oldHash))
  }

  // ----- Induction over the calls -----

  lemma {:induction false} WithTokenHas(tokens: seq<Token>, t: Token, id: EnrollmentId)
    ensures HasToken(WithToken(tokens, t), id) <==> HasToken(tokens, id) || t.id == id
  {
    if tokens != [] {
      if tokens[0].id != t.id {
        WithTokenHas(tokens[1..], t, id);
        HasTokenCons(tokens[0], tokens[1..], id);
        HasTokenCons(tokens[0], WithToken(tokens[1..], t), id);
      } else {
        HasTokenCons(tokens[0], tokens[1..], id);
        HasTokenCons(t, tokens[1..], id);
      }
      assert tokens == [tokens[0]] + tokens[1..];
    } else {
      HasTokenCons(t, [], id);
    }
  }

  lemma {:induction false} HasTokenCons(t: Token, rest: seq<Token>, id: EnrollmentId)
    ensures HasToken([t] + rest, id) <==> t.id == id || HasToken(rest, id)
  {
    if t.id == id { assert ([t] + rest)[0].id == id; }
    if HasToken(rest, id) {
      var i :| 0 <= i < |rest| && rest[i].id == id;
      assert ([t] + rest)[i + 1].id == id;
    }
  }

  /** More calls never take a justification away. */
  lemma {:induction false} Longer(id: EnrollmentId, calls: seq<Call>, b: nat, n: nat, r: Record)
    requires n < |calls| && Justified(id, calls, b, n, r)
    ensures Justified(id, calls, b, n + 1, r)
  {
  }

  lemma {:induction false} ClaimJustified(id: EnrollmentId, calls: seq<Call>, b: nat, n: nat, r: Record, csr: string)
    requires b < n < |calls| && Justified(id, calls, b, n + 1, r) && Took(id, calls, n, Claim)
    ensures Justified(id, calls, b, n + 1, r.(publicKeyHash := calls[n].change.publicKeyHash, csrHash := csr))
  {
    assert ClaimedAt(id, calls, n, calls[n].change.publicKeyHash);
  }

  lemma {:induction false} IssueJustified(id: EnrollmentId, calls: seq<Call>, b: nat, n: nat, r: Record)
    requires b < n < |calls| && Justified(id, calls, b, n, r) && Took(id, calls, n, Issue)
    requires Allowed(r, At(id, calls[n]), calls[n].change)
    ensures var c := calls[n].change;
      Justified(id, calls, b, n + 1, r.(candidateHash := c.hash, reconcileUntil := c.reconcileUntil))
  {
    Longer(id, calls, b, n, r);
    assert IssuedAt(id, calls, b, n, r.via, calls[n].change.hash);
  }

  lemma {:induction false} AuthenticateJustified(id: EnrollmentId, calls: seq<Call>, b: nat, n: nat, r: Record)
    requires b < n < |calls| && Justified(id, calls, b, n, r) && Took(id, calls, n, Authenticate)
    requires Allowed(r, At(id, calls[n]), calls[n].change)
    ensures Justified(id, calls, b, n + 1, r.(authenticated := true, authenticateRaw := calls[n].change.raw))
  {
    Longer(id, calls, b, n, r);
    assert AuthenticatedAt(id, calls, b, n, r.via, r.candidateHash);
  }

  lemma {:induction false} TokenJustified(id: EnrollmentId, calls: seq<Call>, b: nat, n: nat, r: Record)
    requires b < n < |calls| && Justified(id, calls, b, n, r) && Took(id, calls, n, TokenUpdate)
    requires Allowed(r, At(id, calls[n]), calls[n].change)
    ensures Justified(id, calls, b, n + 1, r.(tokens := WithToken(r.tokens, calls[n].change.token.value)))
  {
    Longer(id, calls, b, n, r);
    var t := calls[n].change.token.value;
    WithTokenHas(r.tokens, t, id);
    if t.id == id { assert TokenAt(id, calls, b, n, r.via, r.candidateHash); }
  }

  lemma {:induction false} DeliverJustified(id: EnrollmentId, calls: seq<Call>, b: nat, n: nat, r: Record)
    requires b < n < |calls| && Justified(id, calls, b, n, r) && Took(id, calls, n, Deliver)
    requires Allowed(r, At(id, calls[n]), calls[n].change)
    ensures Justified(id, calls, b, n + 1, r.(delivered := true))
  {
    Longer(id, calls, b, n, r);
    assert DeliveredAt(id, calls, n, r.oldHash);
  }

  lemma {:induction false} AcknowledgeJustified(id: EnrollmentId, calls: seq<Call>, b: nat, n: nat, r: Record)
    requires b < n < |calls| && Justified(id, calls, b, n, r) && Took(id, calls, n, Result)
    requires Allowed(r, At(id, calls[n]), calls[n].change) && calls[n].change.response.value.status == Acknowledged
    ensures Justified(id, calls, b, n + 1, r.(acknowledged := true))
  {
    Longer(id, calls, b, n, r);
    assert AcknowledgedAt(id, calls, b, n, r.oldHash);
  }

  lemma {:induction false} StateIrrelevant(id: EnrollmentId, calls: seq<Call>, b: nat, n: nat, r: Record, state: State, at: int)
    requires n <= |calls| && Justified(id, calls, b, n, r)
    ensures Justified(id, calls, b, n, r.(state := state, completedAt := at))
  {
  }

  lemma {:induction false} AgedJustified(id: EnrollmentId, calls: seq<Call>, b: nat, n: nat, r: Record, at: int)
    requires n <= |calls| && Justified(id, calls, b, n, r)
    ensures Justified(id, calls, b, n, Aged(r, at))
  {
    StateIrrelevant(id, calls, b, n, r, Expired, at);
  }

  lemma {:induction false} SettledJustified(id: EnrollmentId, calls: seq<Call>, b: nat, n: nat, r: Record, e: Enrollment, at: int)
    requires n <= |calls| && Justified(id, calls, b, n, r)
    ensures Justified(id, calls, b, n, Settled(r, e, at))
  {
    StateIrrelevant(id, calls, b, n, r, Committed, at);
  }

  /** The identity branch: the call at `n` is the event that its effect on the record claims. */
  lemma {:induction false} IdentityJustified(id: EnrollmentId, calls: seq<Call>, b: nat, n: nat, r: Record)
    requires b < n < |calls| && Justified(id, calls, b, n, r)
    requires calls[n].change.op in {Claim, Issue, Authenticate, TokenUpdate}
    requires Allowed(r, At(id, calls[n]), calls[n].change) && Took(id, calls, n, calls[n].change.op)
    ensures Justified(id, calls, b, n + 1, Effect(r, At(id, calls[n]), calls[n].change))
  {
    var c := calls[n].change;
    if c.op == Claim {
      Longer(id, calls, b, n, r);
      ClaimJustified(id, calls, b, n, r, c.csrHash);
    } else if c.op == Issue {
      IssueJustified(id, calls, b, n, r);
    } else if c.op == Authenticate {
      AuthenticateJustified(id, calls, b, n, r);
    } else {
      TokenJustified(id, calls, b, n, r);
    }
  }

  predicate Quiet(c: Change) {
    c.op == Cancel || (c.op == Result && c.response.Some? && c.response.value.status != Acknowledged)
  }

  lemma {:induction false} QuietEffect(r: Record, e: Enrollment, c: Change)
    requires Quiet(c) && Allowed(r, e, c)
    ensures var next := Effect(r, e, c); next == r.(state := next.state, completedAt := next.completedAt)
  {
  }

  /** A call that can only end the attempt claims nothing. */
  lemma {:induction false} QuietJustified(id: EnrollmentId, calls: seq<Call>, b: nat, n: nat, r: Record)
    requires b < n < |calls| && Justified(id, calls, b, n, r) && Quiet(calls[n].change)
    requires Allowed(r, At(id, calls[n]), calls[n].change)
    ensures Justified(id, calls, b, n + 1, Effect(r, At(id, calls[n]), calls[n].change))
  {
    var next := Effect(r, At(id, calls[n]), calls[n].change);
    QuietEffect(r, At(id, calls[n]), calls[n].change);
    Longer(id, calls, b, n, r);
    StateIrrelevant(id, calls, b, n + 1, r, next.state, next.completedAt);
  }

  lemma {:induction false} EffectJustified(id: EnrollmentId, calls: seq<Call>, b: nat, n: nat, r: Record)
    requires b < n < |calls| && Justified(id, calls, b, n, r)
    requires Allowed(r, At(id, calls[n]), calls[n].change) && Took(id, calls, n, calls[n].change.op)
    ensures Justified(id, calls, b, n + 1, Effect(r, At(id, calls[n]), calls[n].change))
  {
    var c := calls[n].change;
    if c.op in {Claim, Issue, Authenticate, TokenUpdate} {
      IdentityJustified(id, calls, b, n, r);
    } else if Quiet(c) {
      QuietJustified(id, calls, b, n, r);
    } else if c.op == Deliver {
      DeliverJustified(id, calls, b, n, r);
    } else {
      AcknowledgeJustified(id, calls, b, n, r);
    }
  }

  /** A kept call other than a begin moves the stored record by its effect. */
  lemma {:induction false} KeptEffect(id: EnrollmentId, r: Record, k: Call)
    requires Kept(id, Some(r), k) && k.change.op != Begin && k.change.op != Read
    ensures var aged := Aged(r, k.change.at); var e := At(id, k);
      && Allowed(aged, e, k.change)
      && Step(id, Some(r), k) == Some(Settled(Effect(aged, e, k.change), e, k.change.at))
  {
  }

  lemma {:induction false} CallJustified(id: EnrollmentId, calls: seq<Call>, b: nat, n: nat)
    requires b < n < |calls| && After(id, calls, n).Some? && !Took(id, calls, n, Begin)
    requires Justified(id, calls, b, n, After(id, calls, n).value)
    ensures After(id, calls, n + 1).Some? && Justified(id, calls, b, n + 1, After(id, calls, n + 1).value)
  {
    var r, k := After(id, calls, n).value, calls[n];
    if Kept(id, Some(r), k) {
      KeptJustified(id, calls, b, n, r);
    } else {
      Longer(id, calls, b, n, r);
    }
  }

  lemma {:induction false} KeptJustified(id: EnrollmentId, calls: seq<Call>, b: nat, n: nat, r: Record)
    requires b < n < |calls| && After(id, calls, n) == Some(r) && Justified(id, calls, b, n, r)
    requires Kept(id, Some(r), calls[n]) && calls[n].change.op != Begin
    ensures Step(id, Some(r), calls[n]).Some? && Justified(id, calls, b, n + 1, Step(id, Some(r), calls[n]).value)
  {
    var c := calls[n].change;
    var aged := Aged(r, c.at);
    AgedJustified(id, calls, b, n, r, c.at);
    if c.op == Read {
      Longer(id, calls, b, n, aged);
    } else {
      KeptEffect(id, r, calls[n]);
      EffectJustified(id, calls, b, n, aged);
      SettledJustified(id, calls, b, n + 1, Effect(aged, At(id, calls[n]), c), At(id, calls[n]), c.at);
    }
  }

  lemma {:induction false} BeginJustified(id: EnrollmentId, calls: seq<Call>, n: nat)
    requires n < |calls| && Took(id, calls, n, Begin) && Clean(calls[n].change.begin.value, id)
    ensures After(id, calls, n + 1).Some? && Justified(id, calls, n, n + 1, After(id, calls, n + 1).value)
  {
  }

  /** After any number of calls, every claim the record of an attempt makes has an event behind it, if it began clean. */
  lemma {:induction false} AlwaysJustified(id: EnrollmentId, calls: seq<Call>, b: nat, n: nat)
    requires n <= |calls| && BeganAt(id, calls, b, n) && Clean(calls[b].change.begin.value, id)
    ensures After(id, calls, n).Some? && Justified(id, calls, b, n, After(id, calls, n).value)
  {
    if b == n - 1 {
      BeginJustified(id, calls, b);
    } else {
      AlwaysJustified(id, calls, b, n - 1);
      CallJustified(id, calls, b, n - 1);
    }
  }

  lemma {:induction false} StillBegan(id: EnrollmentId, calls: seq<Call>, b: nat, n: nat)
    requires n < |calls| && BeganAt(id, calls, b, n) && !Took(id, calls, n, Begin)
    ensures BeganAt(id, calls, b, n + 1)
  {
  }

  // ----- What a commit implies -----

  /** The two branches of the handshake, each in order, within the attempt that began at `b`. */
  ghost predicate Handshake(id: EnrollmentId, calls: seq<Call>, b: nat, n: nat, r: Record)
    requires n <= |calls|
  {
    && (exists t :: b < t < n && TokenAt(id, calls, b, t, r.via, r.candidateHash))
    && (exists k :: b < k < n && AcknowledgedAt(id, calls, b, k, r.oldHash))
  }

  /** Call `n` commits the attempt that began at `b`. */
  ghost predicate CommitsAttempt(id: EnrollmentId, calls: seq<Call>, b: nat, n: nat) {
    n < |calls| && BeganAt(id, calls, b, n) && Commits(id, calls, n)
  }

  /**
   * A commit at call `n` means that, since the begin of this attempt, the candidate was issued (after a claim
   * of the same key under SCEP), then authenticated, then reported a token of the device itself, and the
   * profile was delivered to the old identity before its result was acknowledged.
   */
  lemma {:induction false} CommitNeedsHandshake(id: EnrollmentId, calls: seq<Call>, b: nat, n: nat)
    requires CommitsAttempt(id, calls, b, n) && Clean(calls[b].change.begin.value, id)
    ensures After(id, calls, n + 1).Some? && After(id, calls, n + 1).value.state == Committed
    ensures Handshake(id, calls, b, n + 1, After(id, calls, n + 1).value)
  {
    CommitCompletes(id, calls, n);
    CommitJustified(id, calls, b, n, After(id, calls, n + 1).value);
  }

  lemma {:induction false} CommitJustified(id: EnrollmentId, calls: seq<Call>, b: nat, n: nat, r: Record)
    requires CommitsAttempt(id, calls, b, n) && Clean(calls[b].change.begin.value, id)
    requires After(id, calls, n + 1) == Some(r) && r.acknowledged && HasToken(r.tokens, id)
    ensures Handshake(id, calls, b, n + 1, r)
  {
    CommitIsNoBegin(id, calls, n);
    StillBegan(id, calls, b, n);
    AlwaysJustified(id, calls, b, n + 1);
    JustifiedHandshake(id, calls, b, n + 1, r);
  }

  lemma {:induction false} CommitIsNoBegin(id: EnrollmentId, calls: seq<Call>, n: nat)
    requires n < |calls| && Commits(id, calls, n)
    ensures !Took(id, calls, n, Begin)
  {
  }

  lemma {:induction false} CommitCompletes(id: EnrollmentId, calls: seq<Call>, n: nat)
    requires n < |calls| && Commits(id, calls, n)
    ensures After(id, calls, n + 1).Some?
    ensures var r := After(id, calls, n + 1).value; r.state == Committed && r.acknowledged && HasToken(r.tokens, id)
  {
  }

  lemma {:induction false} JustifiedHandshake(id: EnrollmentId, calls: seq<Call>, b: nat, n: nat, r: Record)
    requires n <= |calls| && Justified(id, calls, b, n, r) && r.acknowledged && HasToken(r.tokens, id)
    ensures Handshake(id, calls, b, n, r)
  {
  }

  lemma {:induction false} FinishedStays(id: EnrollmentId, r: Record, k: Call)
    requires r.state != Pending && !(k.change.op == Begin && Kept(id, Some(r), k))
    ensures Step(id, Some(r), k) == Some(r)
  {
  }

  /** A finished attempt never changes again until a new one begins. */
  lemma {:induction false} FinalUntilBegin(id: EnrollmentId, calls: seq<Call>, m: nat, n: nat)
    requires m <= n <= |calls| && After(id, calls, m).Some? && After(id, calls, m).value.state != Pending
    requires forall i :: m <= i < n ==> !Took(id, calls, i, Begin)
    ensures After(id, calls, n) == After(id, calls, m)
  {
    if m < n {
      FinalUntilBegin(id, calls, m, n - 1);
      assert !Took(id, calls, n - 1, Begin);
      FinishedStays(id, After(id, calls, n - 1).value, calls[n - 1]);
    }
  }

  ghost predicate NoBegin(id: EnrollmentId, calls: seq<Call>, m: nat, n: nat)
    requires n <= |calls|
  {
    forall i :: m <= i < n ==> !Took(id, calls, i, Begin)
  }

  lemma {:induction false} StaysCommitted(id: EnrollmentId, calls: seq<Call>, i: nat, j: nat)
    requires i < j < |calls| && Commits(id, calls, i) && NoBegin(id, calls, i + 1, j)
    ensures !Commits(id, calls, j)
  {
    CommitCompletes(id, calls, i);
    FinalUntilBegin(id, calls, i + 1, j);
  }

  /** Two commits always have a begin between them. */
  lemma {:induction false} OneCommitPerBegin(id: EnrollmentId, calls: seq<Call>, i: nat, j: nat)
    requires i < j < |calls| && Commits(id, calls, i) && Commits(id, calls, j)
    ensures exists b :: i < b < j && Took(id, calls, b, Begin)
  {
    if NoBegin(id, calls, i + 1, j) { StaysCommitted(id, calls, i, j); }
  }

  lemma {:induction false} CandidateKept(id: EnrollmentId, r: Record, k: Call)
    requires r.candidateHash != "" && !(k.change.op == Begin && Kept(id, Some(r), k))
    ensures Step(id, Some(r), k).Some? && Step(id, Some(r), k).value.candidateHash == r.candidateHash
  {
    if Kept(id, Some(r), k) && k.change.op != Read { KeptEffect(id, r, k); }
  }

  /** Once a candidate is issued, the attempt never takes another. */
  lemma {:induction false} CandidateFixed(id: EnrollmentId, calls: seq<Call>, m: nat, n: nat)
    requires m <= n <= |calls| && After(id, calls, m).Some? && After(id, calls, m).value.candidateHash != ""
    requires forall i :: m <= i < n ==> !Took(id, calls, i, Begin)
    ensures After(id, calls, n).Some?
    ensures After(id, calls, n).value.candidateHash == After(id, calls, m).value.candidateHash
  {
    if m < n {
      CandidateFixed(id, calls, m, n - 1);
      assert !Took(id, calls, n - 1, Begin);
      CandidateKept(id, After(id, calls, n - 1).value, calls[n - 1]);
    }
  }
}
