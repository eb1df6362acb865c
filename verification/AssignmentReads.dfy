/**
 * Reading a retained log while replicas work: the workflow, the count and every chunk are separate reads, so commits
 * may fall between them.
 */
module AssignmentReads {
  import opened Basics
  import opened Assignment
  import opened AssignmentRuns
  import opened AssignmentSafety
  import opened AssignmentLogs

  /**
   * One call of `Evidence`. `complete` is what the workflow said when it was read, `seen` how many logs had been
   * committed when the count was read, and `at[i]` how many when chunk `i` was.
   */
  datatype Reader = Reader(
    id: string, complete: bool, stage: Stage, count: nat, parts: seq<Bytes>, seen: nat, at: seq<nat>)

  datatype Stage = Started | Joining | Failed

  /** The system, every log committed for a workflow, in order, and the readers. */
  datatype Watched = Watched(s: Sys, logs: map<string, seq<Bytes>>, readers: map<nat, Reader>)

  datatype Act =
    | Do(action: Action)
    | Find(r: nat, account: string, id: string)
    | Count(r: nat)
    | Part(r: nat)

  function LogsOf(x: Watched, id: string): seq<Bytes> {
    if id in x.logs then x.logs[id] else []
  }

  /** Whether the action commits a log. */
  predicate CommitsLog(s: Sys, a: Action) {
    && a.Commit? && a.observed && a.owner in s.workers && s.workers[a.owner].phase.Logging?
    && MayCommit(s.db, s.workers[a.owner].w, a.owner, a.now)
  }

  function AfterDo(x: Watched, a: Action): Watched {
    if !Enabled(x.s, a) then x
    else if CommitsLog(x.s, a) then
      var k := x.s.workers[a.owner];
      x.(s := Next(x.s, a), logs := x.logs[k.w.id := LogsOf(x, k.w.id) + [k.phase.csv]])
    else x.(s := Next(x.s, a))
  }

  function AfterFind(x: Watched, r: nat, account: string, id: string): Watched {
    var w := x.s.db.workflows;
    if r in x.readers then x
    else if id !in w || w[id].binding.account != account then x.(readers := x.readers[r := Reader(id, false, Failed, 0, [], 0, [])])
    else x.(readers := x.readers[r := Reader(id, w[id].logComplete, Started, 0, [], 0, [])])
  }

  function AfterCount(x: Watched, r: nat): Watched {
    if r !in x.readers || x.readers[r].stage != Started then x
    else
      var k := x.readers[r];
      if k.id !in x.s.db.counts then x.(readers := x.readers[r := k.(stage := Failed)])
      else x.(readers := x.readers[r := k.(stage := Joining, count := x.s.db.counts[k.id], seen := |LogsOf(x, k.id)|)])
  }

  function AfterPart(x: Watched, r: nat): Watched {
    if r !in x.readers || x.readers[r].stage != Joining || |x.readers[r].parts| >= x.readers[r].count then x
    else
      var k := x.readers[r];
      if (k.id, |k.parts|) !in x.s.db.chunks then x.(readers := x.readers[r := k.(stage := Failed)])
      else x.(readers := x.readers[r := k.(parts := k.parts + [x.s.db.chunks[(k.id, |k.parts|)]], at := k.at + [|LogsOf(x, k.id)|])])
  }

  function After(x: Watched, a: Act): Watched {
    match a
    case Do(action) => AfterDo(x, action)
    case Find(r, account, id) => AfterFind(x, r, account, id)
    case Count(r) => AfterCount(x, r)
    case Part(r) => AfterPart(x, r)
  }

  function Watch(acts: seq<Act>): Watched {
    if acts == [] then Watched(Initial, map[], map[]) else After(Watch(acts[..|acts| - 1]), acts[|acts| - 1])
  }

  function Joined(parts: seq<Bytes>): Bytes {
    if parts == [] then [] else Joined(parts[..|parts| - 1]) + parts[|parts| - 1]
  }

  /** The read has returned these bytes. */
  predicate Returned(x: Watched, r: nat, bytes: Bytes) {
    r in x.readers && x.readers[r].stage == Joining && |x.readers[r].parts| == x.readers[r].count && Joined(x.readers[r].parts) == bytes
  }

  // ----- Which log a stored chunk belongs to -----

  /** The last log that was long enough to write chunk `i`, or -1. */
  function Writer(logs: seq<Bytes>, i: nat): (j: int)
    ensures -1 <= j < |logs|
    ensures j >= 0 ==> ChunkCount(logs[j]) > i && forall k :: j < k < |logs| ==> ChunkCount(logs[k]) <= i
    ensures j < 0 ==> forall k :: 0 <= k < |logs| ==> ChunkCount(logs[k]) <= i
  {
    if logs == [] then -1
    else if ChunkCount(logs[|logs| - 1]) > i then |logs| - 1
    else Writer(logs[..|logs| - 1], i)
  }

  ghost predicate StoredFor(db: Db, id: string, logs: seq<Bytes>) {
    && (id in db.counts <==> logs != [])
    && (logs != [] ==> db.counts[id] == ChunkCount(logs[|logs| - 1]))
    && (forall i: nat :: Writer(logs, i) >= 0 ==> (id, i) in db.chunks && db.chunks[(id, i)] == Chunk(logs[Writer(logs, i)], i))
  }

  ghost predicate Stored(x: Watched) {
    forall id :: StoredFor(x.s.db, id, LogsOf(x, id))
  }

  /** Each part is the chunk of some log committed when it was read. */
  ghost predicate ReaderOk(logs: seq<Bytes>, k: Reader) {
    && (k.stage == Started ==> k.parts == [] && k.at == [])
    && (k.stage == Joining ==>
         && 1 <= k.seen <= |logs| && k.count == ChunkCount(logs[k.seen - 1]) && |k.parts| == |k.at| <= k.count
         && forall i :: 0 <= i < |k.parts| ==> PartOk(logs, k, i))
  }

  ghost predicate PartOk(logs: seq<Bytes>, k: Reader, i: nat)
    requires i < |k.parts| == |k.at|
  {
    k.seen <= k.at[i] <= |logs| && Writer(logs[..k.at[i]], i) >= 0 && k.parts[i] == Chunk(logs[Writer(logs[..k.at[i]], i)], i)
  }

  ghost predicate ReadersOk(x: Watched) {
    forall r :: r in x.readers ==> ReaderOk(LogsOf(x, x.readers[r].id), x.readers[r])
  }

  // ----- Every step keeps them -----

  /** Writing a log replaces its own chunks and leaves the later rows of longer logs behind. */
  lemma {:induction false} ChunksAfter(chunks: map<(string, nat), Bytes>, id: string, csv: Bytes, n: nat, i: nat)
    requires n <= ChunkCount(csv)
    ensures i < n ==> (id, i) in WithChunks(chunks, id, csv, n) && WithChunks(chunks, id, csv, n)[(id, i)] == Chunk(csv, i)
    ensures i >= n ==> ((id, i) in WithChunks(chunks, id, csv, n) <==> (id, i) in chunks)
    ensures i >= n && (id, i) in chunks ==> WithChunks(chunks, id, csv, n)[(id, i)] == chunks[(id, i)]
  {
    if n > 0 { ChunksAfter(chunks, id, csv, n - 1, i); }
  }

  lemma {:induction false} WriterNext(logs: seq<Bytes>, csv: Bytes, i: nat)
    ensures Writer(logs + [csv], i) == if ChunkCount(csv) > i then |logs| else Writer(logs, i)
  {
    assert (logs + [csv])[..|logs|] == logs;
  }

  lemma {:induction false} LogStored(db: Db, id: string, logs: seq<Bytes>, csv: Bytes)
    requires StoredFor(db, id, logs)
    ensures StoredFor(WithEvidence(db, id, Some(csv)), id, logs + [csv])
  {
    var after := WithEvidence(db, id, Some(csv));
    forall i: nat | Writer(logs + [csv], i) >= 0
      ensures (id, i) in after.chunks && after.chunks[(id, i)] == Chunk((logs + [csv])[Writer(logs + [csv], i)], i)
    {
      WriterNext(logs, csv, i);
      ChunksAfter(db.chunks, id, csv, ChunkCount(csv), i);
      if ChunkCount(csv) <= i { assert Writer(logs, i) >= 0; }
    }
  }

  lemma {:induction false} SameStored(db: Db, after: Db, id: string, logs: seq<Bytes>)
    requires StoredFor(db, id, logs)
    requires (id in after.counts <==> id in db.counts) && (id in db.counts ==> after.counts[id] == db.counts[id])
    requires forall i: nat :: (id, i) in db.chunks ==> (id, i) in after.chunks && after.chunks[(id, i)] == db.chunks[(id, i)]
    ensures StoredFor(after, id, logs)
  {
  }

  /** Apart from a log commit, no action touches a retained log. */
  lemma {:induction false} LogsUntouched(s: Sys, a: Action)
    requires Enabled(s, a) && !CommitsLog(s, a)
    ensures Next(s, a).db.chunks == s.db.chunks && Next(s, a).db.counts == s.db.counts
  {
    match a
    case Request(account, id, serials, op, now) => RequestLogs(s.db, account, id, serials, op, now);
    case Claim(id, owner, now) => ClaimLogs(s.db, id, owner, now);
    case Commit(owner, now, observed) => OtherCommit(s, owner, now, observed);
    case _ =>
  }

  lemma {:induction false} RequestLogs(db: Db, account: string, id: string, serials: seq<string>, op: Operation, now: int)
    ensures var after := AfterRequest(db, account, id, serials, op, now); after.chunks == db.chunks && after.counts == db.counts
  {
  }

  lemma {:induction false} ClaimLogs(db: Db, id: string, owner: string, now: int)
    ensures var after := AfterClaim(db, id, owner, now); after.chunks == db.chunks && after.counts == db.counts
  {
  }

  lemma {:induction false} OtherCommit(s: Sys, owner: string, now: int, observed: bool)
    requires owner in s.workers && !CommitsLog(s, Commit(owner, now, observed))
    ensures var t := AfterCommitStep(s, owner, now, observed); t.db.chunks == s.db.chunks && t.db.counts == s.db.counts
  {
  }

  lemma {:induction false} DoStored(x: Watched, a: Action)
    requires Stored(x)
    ensures Stored(AfterDo(x, a))
  {
    var y := AfterDo(x, a);
    if Enabled(x.s, a) {
      forall id ensures StoredFor(y.s.db, id, LogsOf(y, id)) {
        assert StoredFor(x.s.db, id, LogsOf(x, id));
        if CommitsLog(x.s, a) {
          CommitStores(x, a, id);
        } else {
          LogsUntouched(x.s, a);
          SameStored(x.s.db, y.s.db, id, LogsOf(x, id));
        }
      }
    }
  }

  lemma {:induction false} CommitStores(x: Watched, a: Action, id: string)
    requires Enabled(x.s, a) && CommitsLog(x.s, a) && StoredFor(x.s.db, id, LogsOf(x, id))
    ensures StoredFor(AfterDo(x, a).s.db, id, LogsOf(AfterDo(x, a), id))
  {
    var y, k := AfterDo(x, a), x.s.workers[a.owner];
    var mid := WithEvidence(x.s.db, k.w.id, Some(k.phase.csv));
    assert y.s.db.chunks == mid.chunks && y.s.db.counts == mid.counts;
    if id == k.w.id {
      LogStored(x.s.db, id, LogsOf(x, id), k.phase.csv);
      SameStored(mid, y.s.db, id, LogsOf(y, id));
    } else {
      OtherChunks(x.s.db.chunks, k.w.id, k.phase.csv, ChunkCount(k.phase.csv), id);
      SameStored(x.s.db, y.s.db, id, LogsOf(x, id));
    }
  }

  /** More logs leave what was read as it is. */
  lemma {:induction false} ReaderStays(logs: seq<Bytes>, more: seq<Bytes>, k: Reader)
    requires ReaderOk(logs, k) && logs <= more
    ensures ReaderOk(more, k)
  {
    if k.stage == Joining {
      forall i | 0 <= i < |k.parts| ensures PartOk(more, k, i) {
        assert PartOk(logs, k, i);
        assert more[..k.at[i]] == logs[..k.at[i]];
      }
    }
  }

  lemma {:induction false} LogsGrow(x: Watched, a: Act, id: string)
    ensures LogsOf(x, id) <= LogsOf(After(x, a), id)
  {
  }

  /** Only reader `r` moves; what the others have read stays true. */
  lemma {:induction false} OthersStay(x: Watched, y: Watched, r: nat)
    requires ReadersOk(x) && (forall id :: LogsOf(x, id) <= LogsOf(y, id))
    requires forall o :: o in y.readers && o != r ==> o in x.readers && y.readers[o] == x.readers[o]
    requires r in y.readers ==> ReaderOk(LogsOf(y, y.readers[r].id), y.readers[r])
    ensures ReadersOk(y)
  {
    forall o | o in y.readers ensures ReaderOk(LogsOf(y, y.readers[o].id), y.readers[o]) {
      if o != r {
        var k := x.readers[o];
        assert ReaderOk(LogsOf(x, k.id), k);
        ReaderStays(LogsOf(x, k.id), LogsOf(y, k.id), k);
      }
    }
  }

  lemma {:induction false} StepReaders(x: Watched, a: Act)
    requires Stored(x) && ReadersOk(x)
    ensures ReadersOk(After(x, a))
  {
    var y := After(x, a);
    forall id ensures LogsOf(x, id) <= LogsOf(y, id) { LogsGrow(x, a, id); }
    match a
    case Do(action) =>
      forall r | r in y.readers ensures ReaderOk(LogsOf(y, y.readers[r].id), y.readers[r]) {
        assert ReaderOk(LogsOf(x, x.readers[r].id), x.readers[r]);
        ReaderStays(LogsOf(x, x.readers[r].id), LogsOf(y, x.readers[r].id), x.readers[r]);
      }
    case Find(r, account, id) => if r !in x.readers { OthersStay(x, y, r); }
    case Count(r) => CountKeeps(x, r);
    case Part(r) => PartKeeps(x, r);
  }

  lemma {:induction false} CountKeeps(x: Watched, r: nat)
    requires Stored(x) && ReadersOk(x)
    ensures ReadersOk(AfterCount(x, r))
  {
    if r in x.readers && x.readers[r].stage == Started {
      assert ReaderOk(LogsOf(x, x.readers[r].id), x.readers[r]);
      assert StoredFor(x.s.db, x.readers[r].id, LogsOf(x, x.readers[r].id));
      CountReader(x, r);
      OthersStay(x, AfterCount(x, r), r);
    }
  }

  lemma {:induction false} PartKeeps(x: Watched, r: nat)
    requires Stored(x) && ReadersOk(x)
    ensures ReadersOk(AfterPart(x, r))
  {
    if r in x.readers && x.readers[r].stage == Joining && |x.readers[r].parts| < x.readers[r].count {
      assert ReaderOk(LogsOf(x, x.readers[r].id), x.readers[r]);
      assert StoredFor(x.s.db, x.readers[r].id, LogsOf(x, x.readers[r].id));
      PartReader(x, r);
      OthersStay(x, AfterPart(x, r), r);
    }
  }

  lemma {:induction false} CountReader(x: Watched, r: nat)
    requires r in x.readers && x.readers[r].stage == Started
    requires ReaderOk(LogsOf(x, x.readers[r].id), x.readers[r]) && StoredFor(x.s.db, x.readers[r].id, LogsOf(x, x.readers[r].id))
    ensures ReaderOk(LogsOf(x, x.readers[r].id), AfterCount(x, r).readers[r])
  {
  }

  lemma {:induction false} PartReader(x: Watched, r: nat)
    requires r in x.readers && x.readers[r].stage == Joining && |x.readers[r].parts| < x.readers[r].count
    requires ReaderOk(LogsOf(x, x.readers[r].id), x.readers[r]) && StoredFor(x.s.db, x.readers[r].id, LogsOf(x, x.readers[r].id))
    ensures ReaderOk(LogsOf(x, x.readers[r].id), AfterPart(x, r).readers[r])
  {
    var k, after, logs := x.readers[r], AfterPart(x, r).readers[r], LogsOf(x, x.readers[r].id);
    var n := |k.parts|;
    assert logs[..|logs|] == logs;
    assert ChunkCount(logs[k.seen - 1]) > n;
    forall i | 0 <= i < |after.parts| && after.stage == Joining ensures PartOk(logs, after, i) {
      if i < n { assert PartOk(logs, k, i); }
    }
  }

  lemma {:induction false} WatchKeeps(acts: seq<Act>)
    ensures Stored(Watch(acts)) && ReadersOk(Watch(acts))
  {
    if acts != [] {
      var x, a := Watch(acts[..|acts| - 1]), acts[|acts| - 1];
      WatchKeeps(acts[..|acts| - 1]);
      StepReaders(x, a);
      if a.Do? {
        DoStored(x, a.action);
      } else {
        forall id ensures StoredFor(After(x, a).s.db, id, LogsOf(After(x, a), id)) { assert StoredFor(x.s.db, id, LogsOf(x, id)); }
      }
    } else {
      assert forall id :: StoredFor(Initial.db, id, []);
    }
  }

  // ----- When a read returns one log -----

  /** No log long enough to rewrite a chunk was committed between the count and the read of that chunk. */
  predicate Undisturbed(logs: seq<Bytes>, k: Reader)
    requires forall i :: 0 <= i < |k.at| ==> k.at[i] <= |logs|
  {
    forall i, j :: 0 <= i < |k.at| && k.seen <= j < k.at[i] ==> ChunkCount(logs[j]) <= i
  }

  /** Every part read is a chunk of the log that was current when the count was read. */
  ghost predicate FromOneLog(logs: seq<Bytes>, k: Reader)
    requires forall i :: 0 <= i < |k.at| ==> k.at[i] <= |logs|
  {
    forall i :: 0 <= i < |k.at| ==> Writer(logs[..k.at[i]], i) == k.seen - 1
  }

  lemma {:induction false} ReadBounds(logs: seq<Bytes>, k: Reader)
    requires ReaderOk(logs, k) && k.stage == Joining
    ensures forall i :: 0 <= i < |k.at| ==> k.seen <= k.at[i] <= |logs|
  {
    forall i | 0 <= i < |k.at| ensures k.seen <= k.at[i] <= |logs| { assert PartOk(logs, k, i); }
  }

  /**
   * In every interleaving, all chunks a read returns were written by the log whose count it read, exactly when no
   * log with more than `i` chunks was committed between reading the count and reading chunk `i`.
   */
  lemma {:induction false} OneLogExactly(acts: seq<Act>, r: nat)
    requires r in Watch(acts).readers && Watch(acts).readers[r].stage == Joining
    ensures var k := Watch(acts).readers[r]; var logs := LogsOf(Watch(acts), k.id);
      && (forall i :: 0 <= i < |k.at| ==> k.at[i] <= |logs|)
      && (FromOneLog(logs, k) <==> Undisturbed(logs, k))
  {
    WatchKeeps(acts);
    var k := Watch(acts).readers[r];
    OneLog(LogsOf(Watch(acts), k.id), k);
  }

  lemma {:induction false} OneLog(logs: seq<Bytes>, k: Reader)
    requires ReaderOk(logs, k) && k.stage == Joining
    ensures forall i :: 0 <= i < |k.at| ==> k.at[i] <= |logs|
    ensures FromOneLog(logs, k) <==> Undisturbed(logs, k)
  {
    ReadBounds(logs, k);
    forall i | 0 <= i < |k.at|
      ensures Writer(logs[..k.at[i]], i) == k.seen - 1 <==> forall j :: k.seen <= j < k.at[i] ==> ChunkCount(logs[j]) <= i
    {
      assert PartOk(logs, k, i);
      WriterIs(logs, k.at[i], i, k.seen - 1);
    }
  }

  lemma {:induction false} WriterIs(logs: seq<Bytes>, n: nat, i: nat, j: nat)
    requires j < n <= |logs| && ChunkCount(logs[j]) > i
    ensures Writer(logs[..n], i) == j <==> forall k :: j + 1 <= k < n ==> ChunkCount(logs[k]) <= i
  {
    assert forall k :: 0 <= k < n ==> logs[..n][k] == logs[k];
  }

  /** The chunks of a log, joined, are the log. */
  lemma {:induction false} JoinsToLog(parts: seq<Bytes>, csv: Bytes)
    requires |parts| <= ChunkCount(csv) && forall i :: 0 <= i < |parts| ==> parts[i] == Chunk(csv, i)
    ensures Joined(parts) == csv[..if |parts| * CHUNK_SIZE < |csv| then |parts| * CHUNK_SIZE else |csv|]
  {
    if parts != [] {
      var n := |parts|;
      JoinsToLog(parts[..n - 1], csv);
      var from := (n - 1) * CHUNK_SIZE;
      var end := if n * CHUNK_SIZE < |csv| then n * CHUNK_SIZE else |csv|;
      assert from <= |csv|;
      assert csv[..end] == csv[..from] + csv[from..end];
    }
  }

  /** So an undisturbed read returns that log, byte for byte. */
  lemma {:induction false} UndisturbedReadsLog(acts: seq<Act>, r: nat, bytes: Bytes)
    requires Returned(Watch(acts), r, bytes)
    requires var k := Watch(acts).readers[r]; forall i :: 0 <= i < |k.at| ==> k.at[i] <= |LogsOf(Watch(acts), k.id)|
    requires Undisturbed(LogsOf(Watch(acts), Watch(acts).readers[r].id), Watch(acts).readers[r])
    ensures var k := Watch(acts).readers[r]; 1 <= k.seen <= |LogsOf(Watch(acts), k.id)| && bytes == LogsOf(Watch(acts), k.id)[k.seen - 1]
  {
    WatchKeeps(acts);
    var k := Watch(acts).readers[r];
    ReadBounds(LogsOf(Watch(acts), k.id), k);
    WholeLog(LogsOf(Watch(acts), k.id), k);
  }

  lemma {:induction false} WholeLog(logs: seq<Bytes>, k: Reader)
    requires ReaderOk(logs, k) && k.stage == Joining && |k.parts| == k.count
    requires forall i :: 0 <= i < |k.at| ==> k.at[i] <= |logs|
    requires Undisturbed(logs, k)
    ensures Joined(k.parts) == logs[k.seen - 1]
  {
    OneLog(logs, k);
    var csv := logs[k.seen - 1];
    forall i | 0 <= i < |k.parts| ensures k.parts[i] == Chunk(csv, i) { assert PartOk(logs, k, i); }
    JoinsToLog(k.parts, csv);
    assert csv[..|csv|] == csv;
  }

  // ----- A complete log can be read at any time -----

  /** A reader that found the log complete has seen every log there will ever be. */
  ghost predicate Settled(x: Watched) {
    forall r :: r in x.readers && x.readers[r].complete ==>
      LogDone(x.s, x.readers[r].id) && (x.readers[r].stage == Joining ==> x.readers[r].seen == |LogsOf(x, x.readers[r].id)|)
  }

  ghost predicate Live(x: Watched) {
    Inv(x.s) && AllAware(x.s) && Settled(x)
  }

  lemma {:induction false} NoMoreLogs(x: Watched, a: Action, id: string)
    requires Inv(x.s) && AllAware(x.s) && Enabled(x.s, a) && LogDone(x.s, id)
    ensures LogsOf(AfterDo(x, a), id) == LogsOf(x, id) && LogDone(AfterDo(x, a).s, id)
  {
    StepLogDone(x.s, a, id);
    if CommitsLog(x.s, a) { assert Aware(x.s, a.owner, x.s.workers[a.owner]); }
  }

  lemma {:induction false} DoLive(x: Watched, a: Action)
    requires Live(x)
    ensures Live(AfterDo(x, a))
  {
    var y := AfterDo(x, a);
    if Enabled(x.s, a) {
      StepKeeps(x.s, a);
      StepAware(x.s, a);
      forall r | r in y.readers && y.readers[r].complete
        ensures LogDone(y.s, y.readers[r].id) && (y.readers[r].stage == Joining ==> y.readers[r].seen == |LogsOf(y, y.readers[r].id)|)
      {
        NoMoreLogs(x, a, x.readers[r].id);
      }
    }
  }

  lemma {:induction false} WatchLive(acts: seq<Act>)
    ensures Live(Watch(acts))
  {
    if acts != [] {
      WatchLive(acts[..|acts| - 1]);
      var x, a := Watch(acts[..|acts| - 1]), acts[|acts| - 1];
      if a.Do? { DoLive(x, a.action); } else { ReadLive(x, a); }
    }
  }

  lemma {:induction false} ReadLive(x: Watched, a: Act)
    requires Live(x) && !a.Do?
    ensures Live(After(x, a))
  {
    assert After(x, a).s == x.s && After(x, a).logs == x.logs;
  }

  /** A reader that found the workflow's log complete returns exactly the last log, whatever happens meanwhile. */
  lemma {:induction false} CompleteReadsLog(acts: seq<Act>, r: nat, bytes: Bytes)
    requires Returned(Watch(acts), r, bytes) && Watch(acts).readers[r].complete
    ensures var logs := LogsOf(Watch(acts), Watch(acts).readers[r].id); logs != [] && bytes == logs[|logs| - 1]
  {
    WatchLive(acts);
    WatchKeeps(acts);
    var k := Watch(acts).readers[r];
    var logs := LogsOf(Watch(acts), k.id);
    ReadBounds(logs, k);
    WholeLog(logs, k);
  }

  // ----- When disturbed reads still agree -----

  lemma {:induction false} JoinedLength(parts: seq<Bytes>)
    requires forall i :: 0 <= i < |parts| ==> |parts[i]| == CHUNK_SIZE
    ensures |Joined(parts)| == |parts| * CHUNK_SIZE
  {
    if parts != [] { JoinedLength(parts[..|parts| - 1]); }
  }

  lemma {:induction false} JoinedPart(parts: seq<Bytes>, i: nat)
    requires i < |parts| && forall j :: 0 <= j < |parts| - 1 ==> |parts[j]| == CHUNK_SIZE
    ensures i * CHUNK_SIZE + |parts[i]| <= |Joined(parts)| && Joined(parts)[i * CHUNK_SIZE..i * CHUNK_SIZE + |parts[i]|] == parts[i]
    ensures i == |parts| - 1 ==> |Joined(parts)| == i * CHUNK_SIZE + |parts[i]|
  {
    var front := parts[..|parts| - 1];
    JoinedLength(front);
    if i < |parts| - 1 {
      JoinedPart(front, i);
    }
  }

  /** If every part but the last is whole, the bytes are a given log of that many chunks exactly when every part is its chunk. */
  lemma {:induction false} AgreesExactly(parts: seq<Bytes>, csv: Bytes)
    requires |parts| == ChunkCount(csv) && forall i :: 0 <= i < |parts| - 1 ==> |parts[i]| == CHUNK_SIZE
    ensures Joined(parts) == csv <==> forall i :: 0 <= i < |parts| ==> parts[i] == Chunk(csv, i)
  {
    if forall i :: 0 <= i < |parts| ==> parts[i] == Chunk(csv, i) {
      JoinsToLog(parts, csv);
      assert csv[..|csv|] == csv;
    }
    if Joined(parts) == csv {
      forall i | 0 <= i < |parts| ensures parts[i] == Chunk(csv, i) { JoinedPart(parts, i); }
    }
  }

  /** Every part but the last is a whole chunk. */
  predicate WholeParts(k: Reader) {
    forall i :: 0 <= i < |k.parts| - 1 ==> |k.parts[i]| == CHUNK_SIZE
  }

  lemma {:induction false} CountOf(bytes: Bytes, n: nat)
    requires n > 0 && (n - 1) * CHUNK_SIZE < |bytes| <= n * CHUNK_SIZE
    ensures ChunkCount(bytes) == n
  {
  }

  lemma {:induction false} ChunkSize(csv: Bytes, i: nat)
    requires ChunkCount(csv) > i
    ensures 0 < |Chunk(csv, i)| <= CHUNK_SIZE
  {
  }

  /** Whole parts, each a chunk of some log, join to bytes of that many chunks. */
  lemma {:induction false} JoinedCount(logs: seq<Bytes>, k: Reader)
    requires ReaderOk(logs, k) && k.stage == Joining && |k.parts| == k.count && WholeParts(k)
    ensures ChunkCount(Joined(k.parts)) == k.count
  {
    if k.count > 0 {
      var last := k.count - 1;
      assert PartOk(logs, k, last);
      ChunkSize(logs[Writer(logs[..k.at[last]], last)], last);
      JoinedPart(k.parts, last);
      CountOf(Joined(k.parts), k.count);
    }
  }

  /** What a read got for chunk `i`: that of the last log long enough when it was read. */
  ghost function Got(logs: seq<Bytes>, k: Reader, i: nat): Bytes
    requires ReaderOk(logs, k) && k.stage == Joining && i < |k.parts|
  {
    assert PartOk(logs, k, i);
    Chunk(logs[Writer(logs[..k.at[i]], i)], i)
  }

  /**
   * In every interleaving, a read that got no short chunk before its last returns a given log exactly when the log has
   * as many chunks as were counted, and each chunk is the same as in the last log that wrote it before it was read.
   */
  lemma {:induction false} ReadsLogExactly(acts: seq<Act>, r: nat, bytes: Bytes, csv: Bytes)
    requires Returned(Watch(acts), r, bytes) && WholeParts(Watch(acts).readers[r])
    ensures var k := Watch(acts).readers[r]; var logs := LogsOf(Watch(acts), k.id);
      && ReaderOk(logs, k)
      && (bytes == csv <==> ChunkCount(csv) == k.count && forall i :: 0 <= i < k.count ==> Got(logs, k, i) == Chunk(csv, i))
  {
    WatchKeeps(acts);
    var k := Watch(acts).readers[r];
    GotExactly(LogsOf(Watch(acts), k.id), k, csv);
  }

  lemma {:induction false} GotExactly(logs: seq<Bytes>, k: Reader, csv: Bytes)
    requires ReaderOk(logs, k) && k.stage == Joining && |k.parts| == k.count && WholeParts(k)
    ensures Joined(k.parts) == csv <==> ChunkCount(csv) == k.count && forall i :: 0 <= i < k.count ==> Got(logs, k, i) == Chunk(csv, i)
  {
    JoinedCount(logs, k);
    forall i | 0 <= i < k.count ensures Got(logs, k, i) == k.parts[i] { assert PartOk(logs, k, i); }
    if ChunkCount(csv) == k.count { AgreesExactly(k.parts, csv); }
  }
}
