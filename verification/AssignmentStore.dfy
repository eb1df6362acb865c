/** The controller's transactions as the code runs them, and the retained activity log. */
module AssignmentStore {
  import opened Basics
  import opened Assignment
  import opened AssignmentRuns

  /** Reassembled evidence: the first `n` chunk rows of a workflow, in order. */
  function Joined(chunks: map<(string, nat), Bytes>, id: string, n: nat): Option<Bytes> {
    if n == 0 then Some([])
    else
      var front := Joined(chunks, id, n - 1);
      if front.Some? && (id, n - 1) in chunks then Some(front.value + chunks[(id, n - 1)]) else None
  }

  class Controller {
    var db: Db

    /** `claim`: one replica at a time, and none for a replaced account or service. */
    method Claim(id: string, owner: string, now: int) returns (r: Result<Workflow>)
      modifies this
      ensures db == AfterClaim(old(db), id, owner, now)
      ensures r.Ok? <==> Claimable(old(db), id, now)
      ensures r.Ok? ==> r.value == db.workflows[id]
      ensures r.Err? ==> r.error == ClaimError(old(db), id, now)
    {
      if id !in db.workflows { return Err(NotFound); }
      var w := db.workflows[id];
      if w.state == Complete || w.state == Fenced || now < w.nextAttempt { return Err(Stopped); }
      if id in db.leases && now < db.leases[id].until { return Err(LeaseLost); }
      if !Authorized(db, w.binding) {
        w := w.(state := Fenced, error := "account_or_service_replaced", updatedAt := now);
        db := db.(workflows := db.workflows[id := w]);
        return Ok(w);
      }
      if w.state == Submitting {
        w := w.(state := Uncertain, error := "submission_interrupted");
      }
      db := db.(workflows := db.workflows[id := w]);
      db := db.(leases := db.leases[id := Lease(owner, now + LEASE_TIME)]);
      return Ok(w);
    }

    /** `commit`: publish a replica's copy, and its evidence, if its lease and its authority still stand. */
    method Commit(w: Workflow, owner: string, evidence: Option<Bytes>, release: bool, now: int) returns (ok: bool)
      modifies this
      ensures ok == MayCommit(old(db), w, owner, now)
      ensures db == if ok then AfterCommit(old(db), w, owner, evidence, release, now) else old(db)
    {
      if w.id !in db.leases || db.leases[w.id].owner != owner || db.leases[w.id].until <= now { return false; }
      var s := Snapshot(db, w.binding.account);
      if s.Err? || w.binding.account !in db.bindings { return false; }
      if db.bindings[w.binding.account] != w.binding || s.value != w.binding.fingerprint { return false; }
      if evidence.Some? {
        WriteEvidence(w.id, evidence.value);
      }
      db := db.(workflows := db.workflows[w.id := w.(updatedAt := now)]);
      if release {
        db := db.(leases := db.leases - {w.id});
      } else {
        db := db.(leases := db.leases[w.id := Lease(owner, now + LEASE_TIME)]);
      }
      return true;
    }

    /** Cuts the log into bounded rows; rows of an earlier, longer log stay behind but are no longer counted. */
    method WriteEvidence(id: string, csv: Bytes)
      modifies this
      ensures db == WithEvidence(old(db), id, Some(csv))
    {
      var count := (|csv| + CHUNK_SIZE - 1) / CHUNK_SIZE;
      for i := 0 to count
        invariant db == old(db).(chunks := WithChunks(old(db).chunks, id, csv, i))
      {
        var end := if (i + 1) * CHUNK_SIZE < |csv| then (i + 1) * CHUNK_SIZE else |csv|;
        db := db.(chunks := db.chunks[(id, i) := csv[i * CHUNK_SIZE..end]]);
      }
      db := db.(counts := db.counts[id := count]);
    }

    /** `Evidence`: the retained log of a workflow of the named account. */
    method Evidence(account: string, id: string) returns (r: Result<Bytes>)
      ensures r == ReadEvidence(db, account, id)
    {
      if id !in db.workflows || db.workflows[id].binding.account != account { return Err(NotFound); }
      if id !in db.counts { return Err(NotFound); }
      var raw := [];
      for i := 0 to db.counts[id]
        invariant Joined(db.chunks, id, i) == Some(raw)
      {
        if (id, i) !in db.chunks {
          JoinedFails(db.chunks, id, i + 1, db.counts[id]);
          return Err(NotFound);
        }
        raw := raw + db.chunks[(id, i)];
      }
      return Ok(raw);
    }

    /** `request`: one workflow per request id, and none while an outstanding one shares a device. */
    method Request(account: string, id: string, serials: seq<string>, op: Operation, now: int) returns (r: Result<Workflow>)
      modifies this
      ensures r == RequestReply(old(db), account, id, serials, op, now)
      ensures db == AfterRequest(old(db), account, id, serials, op, now)
    {
      var distinct := CheckSerials(serials);
      if !ValidId(id) || !distinct { return Err(Invalid); }
      var b := RequestBinding(db, account);
      if b.Err? { return Err(b.error); }
      if id in db.workflows {
        var same := SameAsBefore(db.workflows[id], b.value, op, serials);
        return if same then Ok(db.workflows[id]) else Err(Conflict);
      }
      var blocked := Scan(account, serials);
      if blocked { return Err(Conflict); }
      var targets := [];
      for i := 0 to |serials|
        invariant |targets| == i && forall j :: 0 <= j < i ==> targets[j] == NewTargets(serials)[j]
      {
        targets := targets + [Target(serials[i], "", "", "", None, false)];
      }
      assert targets == NewTargets(serials);
      var w := Workflow(op, id, b.value, Queued, targets, "", None, None, "", "", false, false, "", now, now, now);
      db := db.(workflows := db.workflows[id := w]);
      return Ok(w);
    }

    /** Walks all workflows looking for an outstanding one that shares a device. */
    method Scan(account: string, serials: seq<string>) returns (blocked: bool)
      ensures blocked == Blocked(db, account, serials)
    {
      var rest := db.workflows.Keys;
      while rest != {}
        invariant rest <= db.workflows.Keys
        invariant forall id :: id in db.workflows && id !in rest ==>
          !(Outstanding(db.workflows[id]) && Overlaps(db.workflows[id], account, serials))
        decreases rest
      {
        var id :| id in rest;
        var w := db.workflows[id];
        var hit := Hits(w, account, serials);
        if Outstanding(w) && hit { return true; }
        rest := rest - {id};
      }
      return false;
    }
  }

  method Hits(w: Workflow, account: string, serials: seq<string>) returns (hit: bool)
    ensures hit == Overlaps(w, account, serials)
  {
    if w.binding.account != account { return false; }
    for i := 0 to |w.targets|
      invariant forall j :: 0 <= j < i ==> w.targets[j].serial !in serials
    {
      if w.targets[i].serial in serials { return true; }
    }
    return false;
  }

  method CheckSerials(serials: seq<string>) returns (ok: bool)
    ensures ok == ValidSerials(serials)
  {
    if |serials| == 0 || |serials| > 1000 { return false; }
    var seen := {};
    for i := 0 to |serials|
      invariant forall s :: s in seen <==> s in serials[..i]
      invariant forall j :: 0 <= j < i ==> !Blank(serials[j])
      invariant forall j, k :: 0 <= j < k < i ==> serials[j] != serials[k]
    {
      if Blank(serials[i]) || serials[i] in seen { return false; }
      seen := seen + {serials[i]};
    }
    return true;
  }

  method SameAsBefore(w: Workflow, b: Binding, op: Operation, serials: seq<string>) returns (same: bool)
    ensures same == SameRequest(w, b, op, serials)
  {
    if w.operation != op || w.binding != b || |w.targets| != |serials| { return false; }
    for i := 0 to |serials|
      invariant forall j :: 0 <= j < i ==> w.targets[j].serial == serials[j]
    {
      if w.targets[i].serial != serials[i] { return false; }
    }
    return true;
  }

  function ReadEvidence(db: Db, account: string, id: string): Result<Bytes> {
    if id !in db.workflows || db.workflows[id].binding.account != account || id !in db.counts then Err(NotFound)
    else
      var raw := Joined(db.chunks, id, db.counts[id]);
      if raw.Some? then Ok(raw.value) else Err(NotFound)
  }

  lemma {:induction false} JoinedFails(chunks: map<(string, nat), Bytes>, id: string, m: nat, n: nat)
    requires m <= n && Joined(chunks, id, m).None?
    ensures Joined(chunks, id, n).None?
  {
    if m < n { JoinedFails(chunks, id, m, n - 1); }
  }

  // ----- The log comes back byte for byte -----

  ghost predicate Stored(chunks: map<(string, nat), Bytes>, id: string, csv: Bytes, n: nat)
    requires n <= ChunkCount(csv)
  {
    forall i: nat :: i < n ==> (id, i) in chunks && chunks[(id, i)] == Chunk(csv, i)
  }

  lemma {:induction false} WritesStored(chunks: map<(string, nat), Bytes>, id: string, csv: Bytes, n: nat)
    requires n <= ChunkCount(csv)
    ensures Stored(WithChunks(chunks, id, csv, n), id, csv, n)
    ensures forall k: (string, nat) :: k.0 != id ==> (k in WithChunks(chunks, id, csv, n) <==> k in chunks)
    ensures forall k: (string, nat) :: k.0 != id && k in chunks ==> WithChunks(chunks, id, csv, n)[k] == chunks[k]
  {
    if n > 0 { WritesStored(chunks, id, csv, n - 1); }
  }

  lemma {:induction false} StoredJoins(chunks: map<(string, nat), Bytes>, id: string, csv: Bytes, n: nat)
    requires n <= ChunkCount(csv) && Stored(chunks, id, csv, n)
    ensures var end := if n * CHUNK_SIZE < |csv| then n * CHUNK_SIZE else |csv|;
      Joined(chunks, id, n) == Some(csv[..end])
  {
    if n > 0 {
      StoredJoins(chunks, id, csv, n - 1);
      var from := (n - 1) * CHUNK_SIZE;
      var end := if n * CHUNK_SIZE < |csv| then n * CHUNK_SIZE else |csv|;
      assert from <= |csv|;
      assert csv[..end] == csv[..from] + csv[from..end];
    }
  }

  /** Whatever rows an earlier log left behind, the log just written is read back exactly. */
  lemma {:induction false} LogRoundTrip(db: Db, account: string, id: string, csv: Bytes)
    requires id in db.workflows && db.workflows[id].binding.account == account
    ensures ReadEvidence(WithEvidence(db, id, Some(csv)), account, id) == Ok(csv)
  {
    WritesStored(db.chunks, id, csv, ChunkCount(csv));
    StoredJoins(WithEvidence(db, id, Some(csv)).chunks, id, csv, ChunkCount(csv));
    assert csv[..|csv|] == csv;
  }

  /** The rows of every retained log are those of the last one committed. */
  ghost predicate Retained(s: Sys) {
    && s.db.counts.Keys == s.saved.Keys
    && forall id :: id in s.saved ==>
         s.db.counts[id] == ChunkCount(s.saved[id]) && Stored(s.db.chunks, id, s.saved[id], ChunkCount(s.saved[id]))
  }

  lemma {:induction false} CommitRetains(s: Sys, owner: string, now: int)
    requires Retained(s) && owner in s.workers
    ensures Retained(AfterCommitStep(s, owner, now, true))
  {
    var k := s.workers[owner];
    if k.phase.Logging? {
      WritesStored(s.db.chunks, k.w.id, k.phase.csv, ChunkCount(k.phase.csv));
    }
  }

  lemma {:induction false} LogsUntouched(s: Sys, a: Action)
    requires Enabled(s, a) && !(a.Commit? && a.observed)
    ensures var t := Next(s, a); t.db.chunks == s.db.chunks && t.db.counts == s.db.counts && t.saved == s.saved
  {
    match a {
      case Administer(_) =>
      case Request(account, id, serials, op, now) =>
        var db := AfterRequest(s.db, account, id, serials, op, now);
        assert db.chunks == s.db.chunks && db.counts == s.db.counts;
      case Claim(id, owner, now) =>
        var db := AfterClaim(s.db, id, owner, now);
        assert db.chunks == s.db.chunks && db.counts == s.db.counts;
      case Crash(_) =>
      case Local(_, _) =>
      case Send(_, _, _) =>
      case Commit(_, _, _) =>
    }
  }

  lemma {:induction false} StepRetains(s: Sys, a: Action)
    requires Retained(s) && Enabled(s, a)
    ensures Retained(Next(s, a))
  {
    if a.Commit? && a.observed {
      CommitRetains(s, a.owner, a.now);
    } else {
      LogsUntouched(s, a);
    }
  }

  lemma {:induction false} RunRetains(actions: seq<Action>)
    ensures Retained(Run(actions))
  {
    if actions != [] {
      RunRetains(actions[..|actions| - 1]);
      var s := Run(actions[..|actions| - 1]);
      var a := actions[|actions| - 1];
      if Enabled(s, a) { StepRetains(s, a); }
    }
  }

  /** In every run, reading the evidence of a workflow gives the log of its last log commit. */
  lemma {:induction false} EvidenceIsLastLog(actions: seq<Action>, account: string, id: string)
    requires var db := Run(actions).db; id in db.workflows && db.workflows[id].binding.account == account
    ensures var s := Run(actions);
      ReadEvidence(s.db, account, id) == if id in s.saved then Ok(s.saved[id]) else Err(NotFound)
  {
    var s := Run(actions);
    RunRetains(actions);
    if id in s.saved {
      StoredJoins(s.db.chunks, id, s.saved[id], ChunkCount(s.saved[id]));
      assert s.saved[id][..|s.saved[id]|] == s.saved[id];
    }
  }

  // ----- The worker's loops over its targets -----

  /** Gives each target the outcome of the last log row with its serial. */
  method RecordOutcomes(targets: seq<Target>, rows: seq<(string, string)>) returns (after: seq<Target>)
    ensures after == WithOutcomes(targets, rows)
  {
    after := targets;
    for i := 0 to |targets|
      invariant |after| == |targets|
      invariant forall j :: 0 <= j < i ==> after[j] == WithOutcomes(targets, rows)[j]
      invariant forall j :: i <= j < |targets| ==> after[j] == targets[j]
    {
      var outcome := targets[i].outcome;
      for n := 0 to |rows|
        invariant outcome == LastOutcome(rows[..n], targets[i].serial, targets[i].outcome)
      {
        assert rows[..n + 1][..n] == rows[..n];
        if rows[n].0 == targets[i].serial { outcome := rows[n].1; }
      }
      assert rows[..|rows|] == rows;
      after := after[i := targets[i].(outcome := outcome)];
    }
  }

  /** Whether every target the log reports as a success was observed at the desired service. */
  method CheckSettled(w: Workflow) returns (settled: bool)
    ensures settled == Settled(w)
  {
    settled := true;
    for i := 0 to |w.targets|
      invariant settled <==> forall j :: 0 <= j < i && w.targets[j].outcome == w.binding.columns.success ==> w.targets[j].converged
    {
      if w.targets[i].outcome == w.binding.columns.success && !w.targets[i].converged { settled := false; }
    }
  }
}
