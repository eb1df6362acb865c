/** Source evidence: originals are only ever added, a record keeps the latest, and links cache a correlation. */
module Evidence {
  import opened Basics
  import opened Correlation

  datatype Error = BadInput | Conflict | NotFound

  datatype Native = Native(serial: string, via: Enrollment, authenticated: bool)

  /** `at` counts from Go's zero time, so it is negative before year 1. `extra` stands for the fields not read here. */
  datatype Observation = Observation(
    source: Ref, at: int, absent: bool, disconnected: bool, native: Option<Native>, fieldsValid: bool, raw: Raw, extra: string)

  datatype Record = Record(snapshot: Observation, incomplete: bool, created: int, updated: int)

  datatype Pair = Pair(apple: Ref, native: Ref)

  /** History is a set per source: the key of an original is a digest of its content. */
  datatype Repo = Repo(records: map<Ref, Record>, history: map<Ref, set<Observation>>, links: map<Pair, string>)

  function HistoryOf(r: Repo, ref: Ref): set<Observation> {
    if ref in r.history then r.history[ref] else {}
  }

  // ----- Completeness -----

  predicate FromApple(ref: Ref) {
    "axm." <= ref.kind
  }

  predicate CompleteOriginal(ref: Ref, raw: Raw) {
    if raw == Malformed then false
    else if raw == Null then ref.kind == "axm.assignment"
    else if ref.kind == "axm.assignment" then raw.Object? && raw.id != "" && raw.kind == "mdmServers"
    else if ref.kind != "axm.device" then true
    else raw.Object? && raw.id == ref.resource && raw.kind == "orgDevices" && raw.attributes != NoAttributes
  }

  predicate KnownProvenance(native: Option<Native>) {
    native.Some? && native.value.authenticated && native.value.via != Unknown
  }

  predicate Incomplete(o: Observation) {
    !CompleteOriginal(o.source, o.raw) || (!FromApple(o.source) && !KnownProvenance(o.native))
  }

  // ----- Observing -----

  predicate Observable(o: Observation) {
    o.source.kind != "" && o.source.resource != "" && o.at != 0 && o.raw != Malformed && o.fieldsValid
  }

  /** The host's serial fills a native report that names none. */
  function Prepared(serial: string, o: Observation): Observation {
    if o.native.Some? && o.native.value.serial == "" then o.(native := Some(o.native.value.(serial := serial))) else o
  }

  function Unlinked(r: Repo, ref: Ref): map<Pair, string> {
    map p | p in r.links && p.apple != ref && p.native != ref :: r.links[p]
  }

  /** The observation time of the current snapshot; Go's zero time without a record. */
  function SnapshotTime(r: Repo, ref: Ref): int {
    if ref in r.records then r.records[ref].snapshot.at else 0
  }

  function ObserveError(r: Repo, serial: string, o: Observation): Option<Error> {
    if !Observable(o) then Some(BadInput)
    else if Prepared(serial, o) in HistoryOf(r, o.source) && o.source !in r.records then Some(Conflict)
    else None
  }

  function AfterObserve(r: Repo, serial: string, o: Observation): Repo {
    var original := Prepared(serial, o);
    if !Observable(o) || original in HistoryOf(r, o.source) then r
    else
      var kept := Repo(r.records, r.history[o.source := HistoryOf(r, o.source) + {original}], Unlinked(r, o.source));
      if o.at < SnapshotTime(r, o.source) then kept
      else
        var created := if o.source in r.records then r.records[o.source].created else o.at;
        kept.(records := r.records[o.source := Record(original, Incomplete(original), created, o.at)])
  }

  // ----- Lifecycle -----

  function Flagged(r: Record, absent: bool, disconnected: bool): Record {
    r.(snapshot := r.snapshot.(absent := absent, disconnected := disconnected))
  }

  function AfterChange(r: Repo, ref: Ref, absent: bool, disconnected: bool): Repo
    requires ref in r.records
  {
    r.(records := r.records[ref := Flagged(r.records[ref], absent, disconnected)],
       links := if absent || disconnected then Unlinked(r, ref) else r.links)
  }

  predicate Owned(ref: Ref, account: string) {
    ref.account == account && FromApple(ref)
  }

  /** Deleting an account disconnects everything observed through it. */
  function AfterDeleteAccount(r: Repo, account: string): Repo {
    r.(records := map k | k in r.records ::
         if Owned(k, account) then Flagged(r.records[k], r.records[k].snapshot.absent, true) else r.records[k],
       links := map p | p in r.links && !(p.apple in r.records && Owned(p.apple, account))
                        && !(p.native in r.records && Owned(p.native, account)) :: r.links[p])
  }

  // ----- Linking -----

  function DeviceOf(r: Repo, apple: Ref): Device
    requires apple in r.records
  {
    Device(apple.account, apple.resource, r.records[apple].snapshot.at, r.records[apple].snapshot.raw)
  }

  function ReportOf(o: Observation): Report {
    var identity := if o.native.Some? then o.native.value else Native("", Unknown, false);
    Report(o.source, identity.serial, identity.via, identity.authenticated, o.at, o.fieldsValid, o.raw)
  }

  predicate Present(r: Repo, ref: Ref) {
    ref in r.records && !r.records[ref].incomplete && !r.records[ref].snapshot.absent && !r.records[ref].snapshot.disconnected
  }

  /** Every telling report of the native source names the device, and there is one. */
  ghost predicate Supports(d: Device, natives: set<Observation>) {
    && (exists o :: o in natives && Telling(ReportOf(o)))
    && (forall o :: o in natives && Telling(ReportOf(o)) ==> Canonical(ReportOf(o).serial) == SerialOf(d))
  }

  /** What a stored link claims about the evidence as it is now. */
  ghost predicate Justified(r: Repo, p: Pair) {
    && Present(r, p.apple) && Present(r, p.native) && p.apple.kind == "axm.device"
    && ActualDevice(DeviceOf(r, p.apple))
    && (forall o :: o in HistoryOf(r, p.native) ==> Usable(DeviceOf(r, p.apple), ReportOf(o)))
    && Supports(DeviceOf(r, p.apple), HistoryOf(r, p.native))
  }

  function Reports(order: seq<Observation>): (s: seq<Report>)
    ensures |s| == |order|
    ensures forall i :: 0 <= i < |order| ==> s[i] == ReportOf(order[i])
  {
    if order == [] then [] else Reports(order[..|order| - 1]) + [ReportOf(order[|order| - 1])]
  }

  /** The originals of one source, in the order the store returns them. */
  ghost predicate Lists(order: seq<Observation>, natives: set<Observation>) {
    forall o :: o in order <==> o in natives
  }

  /** A match speaks for every report of its source. */
  lemma {:induction false} MatchSpeaks(d: Device, native: Ref, natives: set<Observation>, order: seq<Observation>, m: Report)
    requires Lists(order, natives) && m in Matched(d, Reports(order), |order|)
    requires forall o :: o in natives ==> o.source == native
    ensures Canonical(m.serial) == SerialOf(d) && Supports(d, natives)
  {
    var reports := Reports(order);
    var k := MatchIndex(d, reports, m);
    assert order[k] in natives;
    MatchAgrees(d, reports, m, k);
    forall o | o in natives && Telling(ReportOf(o)) ensures Canonical(ReportOf(o).serial) == SerialOf(d) {
      var i :| 0 <= i < |order| && order[i] == o;
      MatchAgrees(d, reports, m, i);
    }
  }

  lemma {:induction false} MatchIndex(d: Device, reports: seq<Report>, m: Report) returns (k: nat)
    requires m in Matched(d, reports, |reports|)
    ensures k < |reports| && reports[k] == m && Telling(m)
  {
    MatchedMembers(d, reports, |reports|);
    assert reports[..|reports|] == reports;
    k :| 0 <= k < |reports| && reports[k] == m;
  }

  lemma {:induction false} Agreed(reports: seq<Report>, serial: string, source: Ref)
    requires forall i :: 0 <= i < |reports| && Telling(reports[i]) ==> Canonical(reports[i].serial) == serial
    ensures !Conflicted(reports, |reports|, source)
  {
  }

  lemma {:induction false} SupportedMatches(d: Device, natives: set<Observation>, order: seq<Observation>)
    requires Lists(order, natives) && Supports(d, natives)
    ensures Matched(d, Reports(order), |order|) != []
  {
    var reports := Reports(order);
    var o :| o in natives && Telling(ReportOf(o));
    var k :| 0 <= k < |order| && order[k] == o;
    forall i | 0 <= i < |reports| && Telling(reports[i]) ensures Canonical(reports[i].serial) == SerialOf(d) {
      assert order[i] in natives;
    }
    Agreed(reports, SerialOf(d), o.source);
    MatchedMembers(d, reports, |reports|);
    assert reports[..|reports|] == reports;
    assert reports[k] in Matched(d, reports, |reports|);
  }

  /** Whether anything matches does not depend on the order of the originals. */
  lemma {:induction false} MatchesWhenSupported(d: Device, native: Ref, natives: set<Observation>, order: seq<Observation>)
    requires Lists(order, natives) && forall o :: o in natives ==> o.source == native
    ensures Matched(d, Reports(order), |order|) != [] <==> Supports(d, natives)
  {
    if Supports(d, natives) {
      SupportedMatches(d, natives, order);
    } else if Matched(d, Reports(order), |order|) != [] {
      MatchSpeaks(d, native, natives, order, Matched(d, Reports(order), |order|)[0]);
    }
  }

  function LinkError(r: Repo, p: Pair, at: int, order: seq<Observation>): Option<Error> {
    if p.apple !in r.records || p.native !in r.records then Some(NotFound)
    else if p.apple.kind != "axm.device" || !Present(r, p.apple) || !Present(r, p.native) || at == 0 then Some(BadInput)
    else if !AllUsable(DeviceOf(r, p.apple), Reports(order)) then Some(BadInput)
    else if Matched(DeviceOf(r, p.apple), Reports(order), |order|) == [] then Some(Conflict)
    else None
  }

  function AfterLink(r: Repo, p: Pair, order: seq<Observation>): Repo
    requires p.apple in r.records && Matched(DeviceOf(r, p.apple), Reports(order), |order|) != []
  {
    r.(links := r.links[p := Canonical(Matched(DeviceOf(r, p.apple), Reports(order), |order|)[0].serial)])
  }
}
