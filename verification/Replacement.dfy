/** The identity replacement handshake: `AdvanceReplacement` and the record it moves. */
module Replacement {
  import opened Basics

  datatype Channel = DeviceChannel | UserChannel | EnrollmentDevice | EnrollmentUser

  datatype EnrollmentId = EnrollmentId(channel: Channel, id: string, parent: string) {
    /** The device channel this identity belongs to. */
    function Device(): EnrollmentId {
      match channel
      case UserChannel => EnrollmentId(DeviceChannel, parent, "")
      case EnrollmentUser => EnrollmentId(EnrollmentDevice, parent, "")
      case _ => this
    }
  }

  datatype Method = Scep | Acme | OtherMethod

  datatype State = Pending | Committed | Failed | Cancelled | Expired

  /** `message` is the captured TokenUpdate: absent, incomplete, or usable for push. */
  datatype Message = Missing | Incomplete | Usable
  datatype Token = Token(id: EnrollmentId, message: Message, raw: string)

  datatype Record = Record(
    issuer: string, reconcileUntil: int, csrHash: string, id: string, via: Method,
    oldHash: string, candidateHash: string, secretHash: string, publicKeyHash: string,
    state: State, expiresAt: int, completedAt: int, commandUuid: string, commandType: string,
    delivered: bool, acknowledged: bool, authenticated: bool, authenticateRaw: string, tokens: seq<Token>)

  datatype Status = Acknowledged | NotNow | Error | CommandFormatError | OtherStatus
  datatype Response = Response(commandUuid: string, status: Status)

  datatype Op = Begin | Read | Cancel | Claim | Issue | Authenticate | TokenUpdate | Deliver | Result | Unknown

  /** `at == 0` is the zero time. */
  datatype Change = Change(
    op: Op, id: string, hash: string, via: Method, secretHash: string, publicKeyHash: string, csrHash: string,
    issuer: string, reconcileUntil: int, at: int, begin: Option<Record>, raw: string,
    token: Option<Token>, response: Option<Response>)

  datatype Enrollment = Enrollment(id: EnrollmentId, certHash: string, enabled: bool)

  datatype Refusal = Conflict | Invalid
  datatype Reply = Refused(reason: Refusal) | Accepted | Commit

  const HALF_HOUR := 1_800_000_000_000

  // ----- The transition on values -----

  /** A record with an issued candidate may outlive the authorization deadline to reconcile. */
  function Deadline(r: Record): int {
    if r.candidateHash != "" && r.expiresAt < r.reconcileUntil then r.reconcileUntil else r.expiresAt
  }

  function Aged(r: Record, at: int): Record {
    if r.state == Pending && Deadline(r) <= at then r.(state := Expired, completedAt := at) else r
  }

  predicate Startable(x: Record, e: Enrollment, at: int) {
    && x.id != "" && x.commandUuid == x.id && x.commandType == "InstallProfile"
    && (x.via == Scep || x.via == Acme)
    && x.oldHash != "" && x.oldHash == e.certHash && e.enabled
    && at < x.expiresAt <= at + HALF_HOUR
  }

  predicate Active(r: Record, e: Enrollment, c: Change) {
    r.id == c.id && r.state == Pending && r.oldHash == e.certHash && e.enabled
  }

  /** What each operation demands of an active attempt. */
  predicate Allowed(r: Record, e: Enrollment, c: Change) {
    match c.op
    case Cancel => true
    case Claim =>
      && c.at < r.expiresAt && r.via == Scep && c.publicKeyHash != "" && c.csrHash != ""
      && (r.publicKeyHash == "" || r.publicKeyHash == c.publicKeyHash)
      && (r.csrHash == "" || r.csrHash == c.csrHash)
      && r.secretHash != "" && r.secretHash == c.secretHash
    case Issue =>
      && (r.issuer == "" || r.issuer == c.issuer)
      && (c.at < r.expiresAt || r.candidateHash == c.hash)
      && r.via == c.via && c.hash != ""
      && (r.candidateHash == "" || r.candidateHash == c.hash)
      && (r.via == Scep ==> r.publicKeyHash != "" && r.publicKeyHash == c.publicKeyHash)
    case Authenticate => r.candidateHash != "" && r.candidateHash == c.hash
    case TokenUpdate =>
      && r.authenticated && c.hash == r.candidateHash && c.token.Some? && c.token.value.message == Usable
      && c.token.value.id.Device() == e.id.Device()
    case Deliver => c.hash == r.oldHash
    case Result =>
      && (c.hash == r.oldHash || (r.candidateHash != "" && c.hash == r.candidateHash))
      && r.delivered && c.response.Some? && c.response.value.commandUuid == r.commandUuid
      && c.response.value.status != OtherStatus
    case _ => false
  }

  /** The first token of the same enrollment is replaced; a new enrollment is appended. */
  function WithToken(tokens: seq<Token>, t: Token): seq<Token> {
    if tokens == [] then [t]
    else if tokens[0].id == t.id then [t] + tokens[1..]
    else [tokens[0]] + WithToken(tokens[1..], t)
  }

  function Effect(r: Record, e: Enrollment, c: Change): Record
    requires Allowed(r, e, c)
  {
    match c.op
    case Cancel => r.(state := Cancelled, completedAt := c.at)
    case Claim => r.(publicKeyHash := c.publicKeyHash, csrHash := c.csrHash)
    case Issue => r.(candidateHash := c.hash, reconcileUntil := c.reconcileUntil)
    case Authenticate => r.(authenticated := true, authenticateRaw := c.raw)
    case TokenUpdate => r.(tokens := WithToken(r.tokens, c.token.value))
    case Deliver => r.(delivered := true)
    case Result =>
      (match c.response.value.status
       case Acknowledged => r.(acknowledged := true)
       case NotNow => r
       case _ => r.(state := Failed, completedAt := c.at))
    case _ => r
  }

  predicate HasToken(tokens: seq<Token>, id: EnrollmentId) {
    exists i :: 0 <= i < |tokens| && tokens[i].id == id
  }

  predicate Complete(r: Record, e: Enrollment) {
    r.state == Pending && r.authenticated && r.acknowledged && HasToken(r.tokens, e.id)
  }

  /** A complete handshake is committed on the spot. */
  function Settled(r: Record, e: Enrollment, at: int): Record {
    if Complete(r, e) then r.(state := Committed, completedAt := at) else r
  }

  function Advance(r: Option<Record>, e: Enrollment, c: Change): (Option<Record>, Reply) {
    if c.at == 0 then (r, Refused(Invalid))
    else
      var current := if r.Some? then Some(Aged(r.value, c.at)) else None;
      if c.op == Begin then
        if current.Some? && current.value.state == Pending then (current, Refused(Conflict))
        else if c.begin.None? || !Startable(c.begin.value, e, c.at) then (current, Refused(Conflict))
        else (Some(c.begin.value.(state := Pending)), Accepted)
      else if c.op == Read then (current, Accepted)
      else if current.None? || !Active(current.value, e, c) then (current, Refused(Conflict))
      else if c.op == Unknown then (current, Refused(Invalid))
      else if !Allowed(current.value, e, c) then (current, Refused(Conflict))
      else
        var next := Effect(current.value, e, c);
        (Some(Settled(next, e, c.at)), if Complete(next, e) then Commit else Accepted)
  }

  // ----- The transition as the code runs it -----

  /** One stored handshake; the fields a transition changes are updated in place. */
  class Attempt {
    const issuer: string
    const id: string
    const via: Method
    const oldHash: string
    const secretHash: string
    const expiresAt: int
    const commandUuid: string
    const commandType: string
    var reconcileUntil: int
    var csrHash: string
    var candidateHash: string
    var publicKeyHash: string
    var state: State
    var completedAt: int
    var delivered: bool
    var acknowledged: bool
    var authenticated: bool
    var authenticateRaw: string
    var tokens: seq<Token>

    function View(): Record
      reads this
    {
      Record(issuer, reconcileUntil, csrHash, id, via, oldHash, candidateHash, secretHash, publicKeyHash,
             state, expiresAt, completedAt, commandUuid, commandType,
             delivered, acknowledged, authenticated, authenticateRaw, tokens)
    }

    /** A fresh attempt is a copy of the record it starts from, pending. */
    constructor (x: Record)
      ensures View() == x.(state := Pending)
    {
      issuer, id, via, oldHash := x.issuer, x.id, x.via, x.oldHash;
      secretHash, expiresAt, commandUuid, commandType := x.secretHash, x.expiresAt, x.commandUuid, x.commandType;
      reconcileUntil, csrHash, candidateHash, publicKeyHash := x.reconcileUntil, x.csrHash, x.candidateHash, x.publicKeyHash;
      state, completedAt, delivered, acknowledged := Pending, x.completedAt, x.delivered, x.acknowledged;
      authenticated, authenticateRaw, tokens := x.authenticated, x.authenticateRaw, x.tokens;
    }

    method Expire(at: int)
      modifies this
      ensures View() == Aged(old(View()), at)
    {
      var expiry := expiresAt;
      if candidateHash != "" && reconcileUntil > expiry {
        expiry := reconcileUntil;
      }
      if state == Pending && at >= expiry {
        state, completedAt := Expired, at;
      }
    }

    method PutToken(t: Token)
      modifies this`tokens
      ensures tokens == WithToken(old(tokens), t)
    {
      var i := 0;
      while i < |tokens| && tokens[i].id != t.id
        invariant i <= |tokens|
        invariant WithToken(tokens, t) == tokens[..i] + WithToken(tokens[i..], t)
        decreases |tokens| - i
      {
        assert tokens[i..][0] == tokens[i] && tokens[i..][1..] == tokens[i + 1..];
        assert tokens[..i + 1] == tokens[..i] + [tokens[i]];
        i := i + 1;
      }
      if i < |tokens| {
        assert tokens[i..][0] == tokens[i] && tokens[i..][1..] == tokens[i + 1..];
        tokens := tokens[i := t];
      } else {
        tokens := tokens + [t];
      }
    }

    /** Applies one accepted operation, field by field. */
    method Apply(e: Enrollment, c: Change)
      requires Allowed(View(), e, c)
      modifies this
      ensures View() == Effect(old(View()), e, c)
    {
      match c.op {
        case Cancel => state, completedAt := Cancelled, c.at;
        case Claim => publicKeyHash, csrHash := c.publicKeyHash, c.csrHash;
        case Issue =>
          candidateHash := c.hash;
          reconcileUntil := c.reconcileUntil;
        case Authenticate =>
          authenticated := true;
          authenticateRaw := c.raw;
        case TokenUpdate => PutToken(c.token.value);
        case Deliver => delivered := true;
        case Result =>
          if c.response.value.status == Acknowledged {
            acknowledged := true;
          } else if c.response.value.status != NotNow {
            state, completedAt := Failed, c.at;
          }
        case _ =>
      }
    }

    /** Commits once authenticated, acknowledged, and holding a token of the device itself. */
    method Finish(e: Enrollment, at: int) returns (commit: bool)
      modifies this
      ensures commit == Complete(old(View()), e)
      ensures View() == Settled(old(View()), e, at)
    {
      if state == Pending && authenticated && acknowledged {
        for i := 0 to |tokens|
          invariant View() == old(View())
          invariant forall j :: 0 <= j < i ==> tokens[j].id != e.id
        {
          if tokens[i].id == e.id {
            state, completedAt := Committed, at;
            return true;
          }
        }
      }
      return false;
    }
  }

  function ViewOf(a: Attempt?): Option<Record>
    reads a
  {
    if a == null then None else Some(a.View())
  }

  /** The shared state machine under a backend's transaction lock. */
  method AdvanceReplacement(current: Attempt?, e: Enrollment, c: Change) returns (next: Attempt?, reply: Reply)
    modifies current
    ensures (ViewOf(next), reply) == Advance(old(ViewOf(current)), e, c)
  {
    next := current;
    if c.at == 0 { return next, Refused(Invalid); }
    if current != null {
      current.Expire(c.at);
    }
    if c.op == Begin {
      if current != null && current.state == Pending { return next, Refused(Conflict); }
      if c.begin.None? || !Startable(c.begin.value, e, c.at) { return next, Refused(Conflict); }
      next := new Attempt(c.begin.value);
      return next, Accepted;
    }
    if c.op == Read { return next, Accepted; }
    if current == null || !Active(current.View(), e, c) { return next, Refused(Conflict); }
    if c.op == Unknown { return next, Refused(Invalid); }
    if !Allowed(current.View(), e, c) { return next, Refused(Conflict); }
    current.Apply(e, c);
    var commit := current.Finish(e, c.at);
    return next, if commit then Commit else Accepted;
  }
}
