/** A run in which a read returns bytes that were never a log: half of one and half of another. */
module AssignmentTornRead {
  import opened Basics
  import opened Assignment
  import opened AssignmentRuns
  import opened AssignmentReads

  const ACCOUNT := Account("a", true, 1, "c", "", 1, 1, None)
  const COLUMNS := Columns("serial", "outcome", "ok")
  const BINDING := Binding("g", "a", 1, Print(ACCOUNT, "k"), "service", COLUMNS)
  const LATER := 5_000_000_000

  /** What is stored and what the only replica is doing, at one moment of the run. */
  datatype Scene = Scene(
    w: Workflow, lease: map<string, Lease>, workers: map<string, Worker>, issued: set<string>,
    chunks: map<(string, nat), Bytes>, counts: map<string, nat>, logs: map<string, seq<Bytes>>, readers: map<nat, Reader>)

  function SceneDb(c: Scene): Db {
    Db(map["a" := ACCOUNT], map["a" := "k"], map["a" := BINDING], map["w" := c.w], c.lease, c.chunks, c.counts)
  }

  ghost predicate Shows(x: Watched, c: Scene) {
    && x.s.db == SceneDb(c)
    && x.s.workers == c.workers && x.s.issued == c.issued && x.logs == c.logs && x.readers == c.readers
  }

  /** The account and its binding never change in this run. */
  lemma {:induction false} Permitted(x: Watched, c: Scene)
    requires Shows(x, c)
    ensures Snapshot(x.s.db, "a") == Ok(BINDING.fingerprint) && Authorized(x.s.db, BINDING)
  {
  }

  function Fresh(): Workflow {
    NewWorkflow("w", Assign, BINDING, ["S"], 0)
  }

  function Lone(owner: string, k: Worker): map<string, Worker> {
    map[owner := k]
  }

  /** Any local step of the only replica. */
  lemma {:induction false} LocalShows(x: Watched, c: Scene, owner: string, m: Move)
    requires Shows(x, c) && owner in c.workers && CanMove(c.workers[owner], m)
    ensures Shows(AfterDo(x, Local(owner, m)), c.(workers := c.workers[owner := AfterMove(c.workers[owner], m)]))
  {
  }

  /** A commit of the replica that holds the lease, with no log and without giving the lease back. */
  lemma {:induction false} CommitShows(x: Watched, c: Scene, owner: string, now: int)
    requires Shows(x, c) && owner in c.workers && c.workers[owner].w.id == "w" && c.workers[owner].w.binding == BINDING
    requires "w" in c.lease && c.lease["w"].owner == owner && now < c.lease["w"].until
    requires Commits(c.workers[owner].phase) && c.workers[owner].phase != Releasing && !c.workers[owner].phase.Logging?
    ensures var k := c.workers[owner]; var w := k.w.(updatedAt := now);
      Shows(AfterDo(x, Commit(owner, now, true)),
            c.(w := w, lease := c.lease["w" := Lease(owner, now + LEASE_TIME)], workers := c.workers[owner := Worker(w, PhaseAfter(k.phase))]))
  {
    Permitted(x, c);
  }

  /** The scene after a commit with a log. */
  function Logged(c: Scene, w: Workflow, owner: string, csv: Bytes, now: int): Scene {
    Scene(w, c.lease["w" := Lease(owner, now + LEASE_TIME)], c.workers[owner := Worker(w, Observing(0))], c.issued,
          WithChunks(c.chunks, "w", csv, ChunkCount(csv)), c.counts["w" := ChunkCount(csv)],
          c.logs["w" := (if "w" in c.logs then c.logs["w"] else []) + [csv]], c.readers)
  }

  lemma {:induction false} LogDb(c: Scene, w: Workflow, owner: string, csv: Bytes, now: int)
    requires w.id == "w"
    ensures AfterCommit(SceneDb(c), w, owner, Some(csv), false, now) == SceneDb(Logged(c, w.(updatedAt := now), owner, csv, now))
  {
    assert map["w" := c.w]["w" := w.(updatedAt := now)] == map["w" := w.(updatedAt := now)];
  }

  lemma {:induction false} LogShows(x: Watched, c: Scene, owner: string, now: int, csv: Bytes)
    requires Shows(x, c) && owner in c.workers && c.workers[owner].w.id == "w" && c.workers[owner].w.binding == BINDING
    requires "w" in c.lease && c.lease["w"].owner == owner && now < c.lease["w"].until && c.workers[owner].phase == Logging(csv)
    ensures Shows(AfterDo(x, Commit(owner, now, true)), Logged(c, c.workers[owner].w.(updatedAt := now), owner, csv, now))
  {
    LogDb(c, c.workers[owner].w, owner, csv, now);
    LogCommits(x, c, owner, now, csv);
    LogWatched(x, owner, now, csv);
  }

  lemma {:induction false} LogWatched(x: Watched, owner: string, now: int, csv: Bytes)
    requires CommitsLog(x.s, Commit(owner, now, true)) && x.s.workers[owner].phase == Logging(csv)
    ensures var k, t := x.s.workers[owner], AfterDo(x, Commit(owner, now, true));
      && t.s.db == AfterCommit(x.s.db, k.w, owner, Some(csv), false, now) && t.s.issued == x.s.issued
      && t.s.workers == x.s.workers[owner := Worker(k.w.(updatedAt := now), Observing(0))]
      && t.logs == x.logs[k.w.id := LogsOf(x, k.w.id) + [csv]] && t.readers == x.readers
  {
    LogState(x.s, owner, now, csv);
  }

  lemma {:induction false} LogState(s: Sys, owner: string, now: int, csv: Bytes)
    requires owner in s.workers && s.workers[owner].phase == Logging(csv) && MayCommit(s.db, s.workers[owner].w, owner, now)
    ensures var k, t := s.workers[owner], AfterCommitStep(s, owner, now, true);
      && t.db == AfterCommit(s.db, k.w, owner, Some(csv), false, now) && t.issued == s.issued
      && t.workers == s.workers[owner := Worker(k.w.(updatedAt := now), Observing(0))]
  {
  }

  lemma {:induction false} LogCommits(x: Watched, c: Scene, owner: string, now: int, csv: Bytes)
    requires Shows(x, c) && owner in c.workers && c.workers[owner].w.id == "w" && c.workers[owner].w.binding == BINDING
    requires "w" in c.lease && c.lease["w"].owner == owner && now < c.lease["w"].until && c.workers[owner].phase == Logging(csv)
    ensures CommitsLog(x.s, Commit(owner, now, true)) && MayCommit(x.s.db, c.workers[owner].w, owner, now)
  {
    Permitted(x, c);
  }

  lemma {:induction false} ReleaseShows(x: Watched, c: Scene, owner: string, now: int)
    requires Shows(x, c) && c.workers.Keys == {owner} && c.workers[owner].w.id == "w" && c.workers[owner].w.binding == BINDING
    requires c.lease.Keys == {"w"} && c.lease["w"].owner == owner && now < c.lease["w"].until && c.workers[owner].phase == Releasing
    ensures Shows(AfterDo(x, Commit(owner, now, true)), c.(w := c.workers[owner].w.(updatedAt := now), lease := map[], workers := map[]))
  {
    Permitted(x, c);
    ReleaseDb(c, c.workers[owner].w, owner, now);
    assert c.workers - {owner} == map[];
  }

  lemma {:induction false} ReleaseDb(c: Scene, w: Workflow, owner: string, now: int)
    requires w.id == "w" && c.lease.Keys == {"w"}
    ensures AfterCommit(SceneDb(c), w, owner, None, true, now) == SceneDb(c.(w := w.(updatedAt := now), lease := map[]))
  {
    assert map["w" := c.w]["w" := w.(updatedAt := now)] == map["w" := w.(updatedAt := now)];
    assert c.lease - {"w"} == map[];
  }

  lemma {:induction false} ClaimShows(x: Watched, c: Scene, owner: string, now: int)
    requires Shows(x, c) && owner !in c.issued && c.w.binding == BINDING && c.w.nextAttempt <= now && c.lease == map[]
    requires c.w.state != Complete && c.w.state != Fenced && c.workers == map[]
    ensures Shows(AfterDo(x, Claim("w", owner, now)),
                  c.(w := Claimed(c.w), lease := map["w" := Lease(owner, now + LEASE_TIME)], workers := Lone(owner, Worker(Claimed(c.w), Start)),
                     issued := c.issued + {owner}))
  {
    Permitted(x, c);
  }

  lemma {:induction false} SendShows(x: Watched, c: Scene, owner: string, now: int)
    requires Shows(x, c) && owner in c.workers && c.workers[owner].phase == Ready
    ensures Shows(AfterDo(x, Send(owner, "act", now)), c.(workers := c.workers[owner := Answered(c.workers[owner].w, "act", now)]))
  {
  }

  // ----- The run -----

  lemma {:induction false} Then(acts: seq<Act>, a: Act)
    ensures Watch(acts + [a]) == After(Watch(acts), a)
  {
    assert (acts + [a])[..|acts|] == acts;
  }

  /** A scene in which one replica holds the lease. */
  function Working(w: Workflow, owner: string, now: int, k: Worker, issued: set<string>): Scene {
    Scene(w, map["w" := Lease(owner, now + LEASE_TIME)], Lone(owner, k), issued, map[], map[], map[], map[])
  }

  lemma {:induction false} Requested() returns (acts: seq<Act>)
    ensures Shows(Watch(acts), Scene(Fresh(), map[], map[], {}, map[], map[], map[], map[]))
  {
    var save := Do(Administer(SaveAccount(ACCOUNT.(revision := 0), Some("k"), 1)));
    var configure := Do(Administer(Configure("a", 1, "service", COLUMNS, "g")));
    var request := Do(Request("a", "w", ["S"], Assign, 0));
    Then([], save);
    assert [] + [save] == [save];
    Then([save], configure);
    acts := [save] + [configure];
    Saves();
    Configures(Watch([save]));
    Then(acts, request);
    Admits(Watch(acts));
    acts := acts + [request];
  }

  /** The account and its key are stored, and nothing else yet. */
  ghost predicate HasAccount(x: Watched) {
    && x.s.db == Initial.db.(accounts := map["a" := ACCOUNT], keys := map["a" := "k"])
    && x.s == Initial.(db := x.s.db, created := x.s.created) && x.logs == map[] && x.readers == map[]
  }

  ghost predicate HasBinding(x: Watched) {
    && x.s.db == Initial.db.(accounts := map["a" := ACCOUNT], keys := map["a" := "k"], bindings := map["a" := BINDING])
    && x.s == Initial.(db := x.s.db, created := x.s.created, generations := x.s.generations) && x.logs == map[] && x.readers == map[]
  }

  lemma {:induction false} Saves()
    ensures HasAccount(After(Watch([]), Do(Administer(SaveAccount(ACCOUNT.(revision := 0), Some("k"), 1)))))
  {
    assert ValidId("a");
    assert MaySave(Initial.db, ACCOUNT.(revision := 0), Some("k"));
  }

  lemma {:induction false} Configures(x: Watched)
    requires HasAccount(x)
    ensures HasBinding(After(x, Do(Administer(Configure("a", 1, "service", COLUMNS, "g")))))
  {
    assert !Blank("service") by { assert !BlankChar("service"[0]); }
    assert MayConfigure(x.s.db, "a", 1, "service", COLUMNS);
  }

  lemma {:induction false} Admits(x: Watched)
    requires HasBinding(x)
    ensures Shows(AfterDo(x, Request("a", "w", ["S"], Assign, 0)), Scene(Fresh(), map[], map[], {}, map[], map[], map[], map[]))
  {
    assert !Blank("S") by { assert !BlankChar("S"[0]); }
    assert RequestReply(x.s.db, "a", "w", ["S"], Assign, 0) == Ok(Fresh());
  }

  lemma {:induction false} Moves(acts: seq<Act>, c: Scene, owner: string, m: Move) returns (more: seq<Act>)
    requires Shows(Watch(acts), c) && c.workers.Keys == {owner} && CanMove(c.workers[owner], m)
    ensures Shows(Watch(more), c.(workers := Lone(owner, AfterMove(c.workers[owner], m))))
  {
    more := acts + [Do(Local(owner, m))];
    Then(acts, Do(Local(owner, m)));
    LocalShows(Watch(acts), c, owner, m);
    assert c.workers[owner := AfterMove(c.workers[owner], m)] == Lone(owner, AfterMove(c.workers[owner], m));
  }

  lemma {:induction false} Commits1(acts: seq<Act>, c: Scene, owner: string, now: int, k: Worker) returns (more: seq<Act>)
    requires Shows(Watch(acts), c) && c.workers == Lone(owner, k) && c.lease == map["w" := Lease(owner, now + LEASE_TIME)]
    requires k.w.id == "w" && k.w.binding == BINDING && Commits(k.phase) && k.phase != Releasing && !k.phase.Logging?
    ensures var w := k.w.(updatedAt := now); Shows(Watch(more), c.(w := w, workers := Lone(owner, Worker(w, PhaseAfter(k.phase)))))
  {
    more := acts + [Do(Commit(owner, now, true))];
    Then(acts, Do(Commit(owner, now, true)));
    CommitShows(Watch(acts), c, owner, now);
    var done := Worker(k.w.(updatedAt := now), PhaseAfter(k.phase));
    assert Lone(owner, k)[owner := done] == Lone(owner, done);
    assert c.lease["w" := Lease(owner, now + LEASE_TIME)] == c.lease;
  }

  function AfterLog(c: Scene, w: Workflow, owner: string, csv: Bytes): Scene {
    Scene(w, c.lease, Lone(owner, Worker(w, Observing(0))), c.issued,
          WithChunks(c.chunks, "w", csv, ChunkCount(csv)), c.counts["w" := ChunkCount(csv)],
          c.logs["w" := (if "w" in c.logs then c.logs["w"] else []) + [csv]], c.readers)
  }

  lemma {:induction false} Logs(acts: seq<Act>, c: Scene, owner: string, now: int, k: Worker, csv: Bytes) returns (more: seq<Act>)
    requires Shows(Watch(acts), c) && c.workers == Lone(owner, k) && c.lease == map["w" := Lease(owner, now + LEASE_TIME)]
    requires k.w.id == "w" && k.w.binding == BINDING && k.phase == Logging(csv)
    ensures Shows(Watch(more), AfterLog(c, k.w.(updatedAt := now), owner, csv))
  {
    more := acts + [Do(Commit(owner, now, true))];
    Then(acts, Do(Commit(owner, now, true)));
    LogShows(Watch(acts), c, owner, now, csv);
    var done := Worker(k.w.(updatedAt := now), Observing(0));
    assert Lone(owner, k)[owner := done] == Lone(owner, done);
    assert c.lease["w" := Lease(owner, now + LEASE_TIME)] == c.lease;
  }

  lemma {:induction false} Claims(acts: seq<Act>, c: Scene, owner: string, now: int) returns (more: seq<Act>)
    requires Shows(Watch(acts), c) && owner !in c.issued && c.w.binding == BINDING && c.w.nextAttempt <= now && c.lease == map[]
    requires c.w.state != Complete && c.w.state != Fenced && c.w.state != Submitting && c.workers == map[]
    ensures Shows(Watch(more), c.(lease := map["w" := Lease(owner, now + LEASE_TIME)],
                                  workers := Lone(owner, Worker(c.w, Start)), issued := c.issued + {owner}))
  {
    more := acts + [Do(Claim("w", owner, now))];
    Then(acts, Do(Claim("w", owner, now)));
    ClaimShows(Watch(acts), c, owner, now);
  }

  lemma {:induction false} Sends(acts: seq<Act>, c: Scene, owner: string, now: int, w: Workflow) returns (more: seq<Act>)
    requires Shows(Watch(acts), c) && c.workers == Lone(owner, Worker(w, Ready))
    ensures Shows(Watch(more), c.(workers := Lone(owner, Answered(w, "act", now))))
  {
    more := acts + [Do(Send(owner, "act", now))];
    Then(acts, Do(Send(owner, "act", now)));
    SendShows(Watch(acts), c, owner, now);
    assert c.workers[owner := Answered(w, "act", now)] == Lone(owner, Answered(w, "act", now));
  }

  lemma {:induction false} Releases(acts: seq<Act>, c: Scene, owner: string, now: int, k: Worker) returns (more: seq<Act>)
    requires Shows(Watch(acts), c) && c.workers == Lone(owner, k) && c.lease == map["w" := Lease(owner, now + LEASE_TIME)]
    requires k.w.id == "w" && k.w.binding == BINDING && k.phase == Releasing
    ensures Shows(Watch(more), c.(w := k.w.(updatedAt := now), lease := map[], workers := map[]))
  {
    more := acts + [Do(Commit(owner, now, true))];
    Then(acts, Do(Commit(owner, now, true)));
    ReleaseShows(Watch(acts), c, owner, now);
  }

  // ----- The scenes of the run -----

  function Submitted(): Workflow {
    Answered(Prepared(Fresh(), ["D"], 0).w, "act", 0).w
  }

  /** The marker is committed. */
  lemma {:induction false} Marks() returns (acts: seq<Act>)
    ensures var w := Prepared(Fresh(), ["D"], 0).w; Shows(Watch(acts), Working(w, "one", 0, Worker(w, Ready), {"one"}))
  {
    acts := Requested();
    var c := Scene(Fresh(), map[], map[], {}, map[], map[], map[], map[]);
    acts := Claims(acts, c, "one", 0);
    var p := Prepared(Fresh(), ["D"], 0);
    acts := Moves(acts, Working(Fresh(), "one", 0, Worker(Fresh(), Start), {"one"}), "one", Prepare(["D"], 0));
    acts := Commits1(acts, Working(Fresh(), "one", 0, p, {"one"}), "one", 0, p);
  }

  lemma {:induction false} Submits() returns (acts: seq<Act>)
    ensures Shows(Watch(acts), Working(Submitted(), "one", 0, Worker(Submitted(), Reading), {"one"}))
  {
    acts := Marks();
    var p := Prepared(Fresh(), ["D"], 0);
    acts := Sends(acts, Working(p.w, "one", 0, Worker(p.w, Ready), {"one"}), "one", 0, p.w);
    acts := Commits1(acts, Working(p.w, "one", 0, Answered(p.w, "act", 0), {"one"}), "one", 0, Answered(p.w, "act", 0));
  }

  /** The workflow with its terminal status, and with a log besides. */
  function Finished(w: Workflow, now: int): Workflow {
    ActivityRead(w, "DONE", "").w.(updatedAt := now)
  }

  function WithLogged(w: Workflow, now: int, csv: Bytes, complete: bool): Workflow {
    LogFetched(w, csv, complete, complete, []).w.(updatedAt := now)
  }

  lemma {:induction false} Ends(acts: seq<Act>, c: Scene, owner: string, now: int, w: Workflow) returns (more: seq<Act>)
    requires Shows(Watch(acts), c) && c.workers == Lone(owner, Worker(w, Reading)) && c.lease == map["w" := Lease(owner, now + LEASE_TIME)]
    requires w.id == "w" && w.binding == BINDING && w.activity == "act"
    ensures Shows(Watch(more), c.(w := Finished(w, now), workers := Lone(owner, Worker(Finished(w, now), Fetching))))
  {
    var k := ActivityRead(w, "DONE", "");
    more := Moves(acts, c, owner, ReadActivity("DONE", ""));
    more := Commits1(more, c.(workers := Lone(owner, k)), owner, now, k);
  }

  lemma {:induction false} Fetches(acts: seq<Act>, c: Scene, owner: string, now: int, w: Workflow, csv: Bytes, complete: bool)
    returns (more: seq<Act>)
    requires Shows(Watch(acts), c) && c.workers == Lone(owner, Worker(w, Fetching)) && c.lease == map["w" := Lease(owner, now + LEASE_TIME)]
    requires w.id == "w" && w.binding == BINDING && !w.logComplete
    ensures Shows(Watch(more), AfterLog(c, WithLogged(w, now, csv, complete), owner, csv))
  {
    var l := LogFetched(w, csv, complete, complete, []);
    more := Moves(acts, c, owner, FetchLog(csv, complete, complete, []));
    more := Logs(more, c.(workers := Lone(owner, l)), owner, now, l, csv);
  }

  /** The workflow after a first log, incomplete and two chunks long. */
  function FirstLogged(long: Bytes): Workflow {
    WithLogged(Finished(Submitted(), 0), 0, long, false)
  }

  /** The stored documents then, and the reader that has the count. */
  function Between(long: Bytes, readers: map<nat, Reader>): Scene {
    AfterLog(Working(Finished(Submitted(), 0), "one", 0, Worker(Finished(Submitted(), 0), Fetching), {"one"}),
             FirstLogged(long), "one", long).(readers := readers)
  }

  const FOUND := Reader("w", false, Started, 0, [], 0, [])
  const COUNTED := FOUND.(stage := Joining, count := 2, seen := 1)

  lemma {:induction false} CountsFirst(long: Bytes) returns (acts: seq<Act>)
    requires ChunkCount(long) == 2
    ensures Shows(Watch(acts), Between(long, map[0 := COUNTED]))
  {
    acts := Submits();
    acts := Ends(acts, Working(Submitted(), "one", 0, Worker(Submitted(), Reading), {"one"}), "one", 0, Submitted());
    acts := Fetches(acts, Working(Finished(Submitted(), 0), "one", 0, Worker(Finished(Submitted(), 0), Fetching), {"one"}), "one", 0,
                    Finished(Submitted(), 0), long, false);
    acts := Counting(acts, long);
  }

  lemma {:induction false} Counting(acts: seq<Act>, long: Bytes) returns (more: seq<Act>)
    requires Shows(Watch(acts), Between(long, map[])) && ChunkCount(long) == 2
    ensures Shows(Watch(more), Between(long, map[0 := COUNTED]))
  {
    Then(acts, Find(0, "a", "w"));
    more := acts + [Find(0, "a", "w")];
    assert Shows(Watch(more), Between(long, map[0 := FOUND]));
    Then(more, Count(0));
    more := more + [Count(0)];
  }

  /** What the first replica leaves and the second finds. */
  function Left(long: Bytes): Workflow {
    Failing(FirstLogged(long), "device_read_failed", 0).w
  }

  function Taken(long: Bytes, k: Worker, readers: map<nat, Reader>): Scene {
    Between(long, readers).(w := Left(long), lease := map["w" := Lease("two", LATER + LEASE_TIME)], workers := Lone("two", k),
                            issued := {"one", "two"})
  }

  lemma {:induction false} GivesUp(acts: seq<Act>, long: Bytes, readers: map<nat, Reader>) returns (more: seq<Act>)
    requires Shows(Watch(acts), Between(long, readers))
    ensures Shows(Watch(more), Between(long, readers).(w := Left(long), lease := map[], workers := map[]))
  {
    var k := Failing(FirstLogged(long), "device_read_failed", 0);
    more := Moves(acts, Between(long, readers), "one", Fail("device_read_failed", [], 0));
    more := Releases(more, Between(long, readers).(workers := Lone("one", k)), "one", 0, k);
    assert k.w.(updatedAt := 0) == Left(long);
  }

  lemma {:induction false} TakesOver(acts: seq<Act>, long: Bytes, readers: map<nat, Reader>) returns (more: seq<Act>)
    requires Shows(Watch(acts), Between(long, readers).(w := Left(long), lease := map[], workers := map[]))
    ensures Shows(Watch(more), Taken(long, Worker(Left(long), Reading), readers))
  {
    more := Claims(acts, Between(long, readers).(w := Left(long), lease := map[], workers := map[]), "two", LATER);
    assert {"one"} + {"two"} == {"one", "two"};
    more := Moves(more, Taken(long, Worker(Left(long), Start), readers), "two", Resume);
  }

  function Over(long: Bytes, short: Bytes, readers: map<nat, Reader>): Scene {
    var f := Finished(Left(long), LATER);
    AfterLog(Taken(long, Worker(f, Fetching), readers).(w := f), WithLogged(f, LATER, short, true), "two", short)
  }

  lemma {:induction false} LogsAgain(acts: seq<Act>, long: Bytes, short: Bytes, readers: map<nat, Reader>) returns (more: seq<Act>)
    requires Shows(Watch(acts), Taken(long, Worker(Left(long), Reading), readers))
    ensures Shows(Watch(more), Over(long, short, readers))
  {
    var f := Finished(Left(long), LATER);
    more := Ends(acts, Taken(long, Worker(Left(long), Reading), readers), "two", LATER, Left(long));
    more := Fetches(more, Taken(long, Worker(f, Fetching), readers).(w := f), "two", LATER, f, short, true);
  }

  lemma {:induction false} Rows(long: Bytes, short: Bytes, readers: map<nat, Reader>)
    requires ChunkCount(long) == 2 && ChunkCount(short) == 1
    ensures var c := Over(long, short, readers);
      && ("w", 0) in c.chunks && c.chunks[("w", 0)] == short
      && ("w", 1) in c.chunks && c.chunks[("w", 1)] == long[CHUNK_SIZE..]
      && c.logs == map["w" := [long, short]]
  {
    ChunksAfter(map[], "w", long, 2, 1);
    ChunksAfter(WithChunks(map[], "w", long, 2), "w", short, 1, 0);
    ChunksAfter(WithChunks(map[], "w", long, 2), "w", short, 1, 1);
    assert Chunk(short, 0) == short;
    assert Chunk(long, 1) == long[CHUNK_SIZE..];
    assert [] + [long] + [short] == [long, short];
    assert Over(long, short, readers).logs == map["w" := [long, short]];
  }

  lemma {:induction false} Reads(acts: seq<Act>, c: Scene, k: Reader) returns (more: seq<Act>)
    requires Shows(Watch(acts), c) && c.readers == map[0 := k] && k.id == "w" && k.stage == Joining
    requires |k.parts| < k.count && ("w", |k.parts|) in c.chunks && "w" in c.logs
    ensures Shows(Watch(more), c.(readers := map[0 := k.(parts := k.parts + [c.chunks[("w", |k.parts|)]], at := k.at + [|c.logs["w"]|])]))
  {
    Then(acts, Part(0));
    more := acts + [Part(0)];
  }

  lemma {:induction false} ReadsBoth(acts: seq<Act>, c: Scene, first: Bytes, second: Bytes) returns (more: seq<Act>)
    requires Shows(Watch(acts), c) && c.readers == map[0 := COUNTED] && "w" in c.logs
    requires ("w", 0) in c.chunks && c.chunks[("w", 0)] == first && ("w", 1) in c.chunks && c.chunks[("w", 1)] == second
    ensures Returned(Watch(more), 0, first + second)
    ensures Watch(more).readers[0].id == "w" && LogsOf(Watch(more), "w") == c.logs["w"]
  {
    more := Reads(acts, c, COUNTED);
    var k := COUNTED.(parts := [] + [first], at := [] + [|c.logs["w"]|]);
    more := Reads(more, c.(readers := map[0 := k]), k);
    JoinedTwo(first, second);
  }

  lemma {:induction false} JoinedTwo(first: Bytes, second: Bytes)
    ensures Joined([] + [first] + [second]) == first + second
  {
    var parts := [] + [first] + [second];
    assert parts[..1] == [first] && parts[..1][..0] == [];
    assert Joined([first]) == first;
  }

  /**
   * For every log of two chunks and every log of one, there is a run that commits both and in which a read returns
   * the second log followed by the end of the first: bytes that are neither, unless the second begins the first.
   */
  lemma {:induction false} TornRead(long: Bytes, short: Bytes) returns (acts: seq<Act>)
    requires ChunkCount(long) == 2 && ChunkCount(short) == 1
    ensures Returned(Watch(acts), 0, short + long[CHUNK_SIZE..])
    ensures Watch(acts).readers[0].id == "w" && LogsOf(Watch(acts), "w") == [long, short]
    ensures short != long[..CHUNK_SIZE] ==> short + long[CHUNK_SIZE..] !in LogsOf(Watch(acts), "w")
  {
    acts := CountsFirst(long);
    acts := GivesUp(acts, long, map[0 := COUNTED]);
    acts := TakesOver(acts, long, map[0 := COUNTED]);
    acts := LogsAgain(acts, long, short, map[0 := COUNTED]);
    Rows(long, short, map[0 := COUNTED]);
    acts := ReadsBoth(acts, Over(long, short, map[0 := COUNTED]), short, long[CHUNK_SIZE..]);
    if short != long[..CHUNK_SIZE] { NeitherLog(long, short); }
  }

  lemma {:induction false} NeitherLog(long: Bytes, short: Bytes)
    requires ChunkCount(long) == 2 && ChunkCount(short) == 1 && short != long[..CHUNK_SIZE]
    ensures short + long[CHUNK_SIZE..] != long && short + long[CHUNK_SIZE..] != short
  {
    var torn := short + long[CHUNK_SIZE..];
    assert |long[CHUNK_SIZE..]| > 0;
    if |short| == CHUNK_SIZE { assert torn[..CHUNK_SIZE] == short; }
  }
}
