/** Matching native device reports to one organization device by serial number. */
module Correlation {
  import opened Basics

  datatype Ref = Ref(kind: string, account: string, resource: string)

  datatype Enrollment = Automated | AccountDriven | ProfileBased | User | Unknown

  /** Original JSON as far as it is read: what an object says its identity and serial are. */
  datatype Raw = Malformed | Null | Scalar | Object(id: string, kind: string, attributes: Attributes)

  datatype Attributes = NoAttributes | NoSerial | BadSerial | Serial(text: string)

  /** `fieldsValid` says whether every selected field is valid JSON. */
  datatype Report = Report(source: Ref, serial: string, via: Enrollment, authenticated: bool, at: int, fieldsValid: bool, raw: Raw)

  datatype Reason = Unauthenticated | IneligibleMethod | SerialConflict | MissingSerial

  datatype Rejection = Rejection(report: Report, reason: Reason)

  datatype Device = Device(account: string, resource: string, at: int, raw: Raw)

  datatype Outcome = Invalid | Correlated(matched: seq<Report>, rejected: seq<Rejection>)

  // ----- Serials -----

  function TrimLeft(s: string): string {
    if s != [] && BlankChar(s[0]) then TrimLeft(s[1..]) else s
  }

  function TrimRight(s: string): string {
    if s != [] && BlankChar(s[|s| - 1]) then TrimRight(s[..|s| - 1]) else s
  }

  function Upper(s: string): (r: string)
    ensures |r| == |s|
  {
    if s == [] then [] else [if 'a' <= s[0] <= 'z' then (s[0] as int - 32) as char else s[0]] + Upper(s[1..])
  }

  /** The matching key of a serial: no surrounding blanks, upper case. */
  function Canonical(s: string): string {
    Upper(TrimRight(TrimLeft(s)))
  }

  predicate Eligible(m: Enrollment) {
    m == Automated || m == AccountDriven || m == ProfileBased
  }

  /** Reports that say which device they come from. */
  predicate Telling(r: Report) {
    r.authenticated && Eligible(r.via) && Canonical(r.serial) != ""
  }

  /** A source whose reports name different devices. */
  predicate Conflicted(reports: seq<Report>, n: nat, source: Ref)
    requires n <= |reports|
  {
    exists i, j :: 0 <= i < j < n && reports[i].source == source && reports[j].source == source
      && Telling(reports[i]) && Telling(reports[j]) && Canonical(reports[i].serial) != Canonical(reports[j].serial)
  }

  // ----- The decision for each report -----

  function AppleRef(d: Device): Ref {
    Ref("axm.device", d.account, d.resource)
  }

  predicate ActualDevice(d: Device) {
    && d.account != "" && d.at != 0 && d.raw.Object? && d.raw.id != "" && d.raw.id == d.resource
    && d.raw.kind == "orgDevices" && d.raw.attributes != NoAttributes && d.raw.attributes != BadSerial
  }

  predicate Usable(d: Device, r: Report) {
    r.source != AppleRef(d) && r.source.kind != "" && r.source.resource != "" && r.at != 0 && r.raw != Malformed && r.fieldsValid
  }

  predicate AllUsable(d: Device, reports: seq<Report>) {
    ActualDevice(d) && forall i :: 0 <= i < |reports| ==> Usable(d, reports[i])
  }

  function SerialOf(d: Device): string {
    if d.raw.Object? && d.raw.attributes.Serial? then Canonical(d.raw.attributes.text) else ""
  }

  function Why(d: Device, reports: seq<Report>, r: Report): Option<Reason> {
    if !r.authenticated then Some(Unauthenticated)
    else if !Eligible(r.via) then Some(IneligibleMethod)
    else if Conflicted(reports, |reports|, r.source) then Some(SerialConflict)
    else if SerialOf(d) == "" || Canonical(r.serial) == "" then Some(MissingSerial)
    else if Canonical(r.serial) != SerialOf(d) then Some(SerialConflict)
    else None
  }

  /** The reports among the first `n` that match, in order. */
  function Matched(d: Device, reports: seq<Report>, n: nat): seq<Report>
    requires n <= |reports|
  {
    if n == 0 then []
    else Matched(d, reports, n - 1) + if Why(d, reports, reports[n - 1]).None? then [reports[n - 1]] else []
  }

  function Rejected(d: Device, reports: seq<Report>, n: nat): seq<Rejection>
    requires n <= |reports|
  {
    if n == 0 then []
    else
      var why := Why(d, reports, reports[n - 1]);
      Rejected(d, reports, n - 1) + if why.Some? then [Rejection(reports[n - 1], why.value)] else []
  }

  // ----- The two loops -----

  predicate From(reports: seq<Report>, n: nat, s: Ref)
    requires n <= |reports|
  {
    exists i :: 0 <= i < n && reports[i].source == s && Telling(reports[i])
  }

  predicate Reported(reports: seq<Report>, n: nat, s: Ref, serial: string)
    requires n <= |reports|
  {
    exists i :: 0 <= i < n && reports[i].source == s && Telling(reports[i]) && Canonical(reports[i].serial) == serial
  }

  /** The map holds one serial of each source that told one among the first `n` reports. */
  ghost predicate Remembers(reports: seq<Report>, n: nat, serials: map<Ref, string>)
    requires n <= |reports|
  {
    forall s :: (s in serials <==> From(reports, n, s)) && (s in serials ==> Reported(reports, n, s, serials[s]))
  }

  lemma {:induction false} RemembersNext(reports: seq<Report>, n: nat, serials: map<Ref, string>, after: map<Ref, string>)
    requires n < |reports| && Remembers(reports, n, serials)
    requires after == if Telling(reports[n]) then serials[reports[n].source := Canonical(reports[n].serial)] else serials
    ensures Remembers(reports, n + 1, after)
  {
    forall s ensures (s in after <==> From(reports, n + 1, s)) && (s in after ==> Reported(reports, n + 1, s, after[s])) {
      if s == reports[n].source && Telling(reports[n]) {
        assert Reported(reports, n + 1, s, Canonical(reports[n].serial));
      } else {
        assert From(reports, n + 1, s) <==> From(reports, n, s);
        assert s in serials ==> Reported(reports, n, s, serials[s]);
      }
    }
  }

  ghost predicate Found(reports: seq<Report>, n: nat, conflicts: set<Ref>)
    requires n <= |reports|
  {
    forall s :: s in conflicts <==> Conflicted(reports, n, s)
  }

  predicate Contradicts(serials: map<Ref, string>, r: Report) {
    Telling(r) && r.source in serials && serials[r.source] != Canonical(r.serial)
  }

  lemma {:induction false} FoundNext(reports: seq<Report>, n: nat, serials: map<Ref, string>, conflicts: set<Ref>)
    requires n < |reports| && Remembers(reports, n, serials) && Found(reports, n, conflicts)
    ensures Found(reports, n + 1, if Contradicts(serials, reports[n]) then conflicts + {reports[n].source} else conflicts)
  {
    var after := if Contradicts(serials, reports[n]) then conflicts + {reports[n].source} else conflicts;
    forall s ensures s in after <==> Conflicted(reports, n + 1, s) { FoundAt(reports, n, serials, conflicts, s); }
  }

  lemma {:induction false} FoundAt(reports: seq<Report>, n: nat, serials: map<Ref, string>, conflicts: set<Ref>, s: Ref)
    requires n < |reports| && Remembers(reports, n, serials) && (s in conflicts <==> Conflicted(reports, n, s))
    ensures s in (if Contradicts(serials, reports[n]) then conflicts + {reports[n].source} else conflicts) <==> Conflicted(reports, n + 1, s)
  {
    ConflictGrows(reports, n, s, serials);
  }

  /** The sources found to contradict themselves in one pass that remembers only each source's last serial. */
  method FindConflicts(d: Device, reports: seq<Report>) returns (valid: bool, conflicts: set<Ref>)
    requires ActualDevice(d)
    ensures valid <==> AllUsable(d, reports)
    ensures valid ==> Found(reports, |reports|, conflicts)
  {
    var serials: map<Ref, string> := map[];
    conflicts := {};
    for n := 0 to |reports|
      invariant forall i :: 0 <= i < n ==> Usable(d, reports[i])
      invariant Remembers(reports, n, serials)
      invariant Found(reports, n, conflicts)
    {
      var r := reports[n];
      if !Usable(d, r) { return false, {}; }
      ghost var had := serials;
      FoundNext(reports, n, serials, conflicts);
      var key := Canonical(r.serial);
      if key != "" && r.authenticated && Eligible(r.via) {
        if r.source in serials && serials[r.source] != key { conflicts := conflicts + {r.source}; }
        serials := serials[r.source := key];
      }
      RemembersNext(reports, n, had, serials);
    }
    return true, conflicts;
  }

  /** Comparing a report with the remembered serial of its source is enough. */
  predicate ConflictNow(reports: seq<Report>, n: nat, s: Ref, serials: map<Ref, string>)
    requires n < |reports|
  {
    Conflicted(reports, n + 1, s) <==>
      || Conflicted(reports, n, s)
      || (s == reports[n].source && Telling(reports[n]) && s in serials && serials[s] != Canonical(reports[n].serial))
  }

  lemma {:induction false} ConflictGrows(reports: seq<Report>, n: nat, s: Ref, serials: map<Ref, string>)
    requires n < |reports| && Remembers(reports, n, serials)
    ensures ConflictNow(reports, n, s, serials)
  {
    if Conflicted(reports, n, s) { ConflictStays(reports, n, s); }
    if s == reports[n].source && Telling(reports[n]) && s in serials && serials[s] != Canonical(reports[n].serial) {
      var last := Recall(reports, n, s, serials);
      Pair(reports, n + 1, s, last, n);
    }
    if Conflicted(reports, n + 1, s) && !Conflicted(reports, n, s) { ConflictIsNew(reports, n, s, serials); }
  }

  lemma {:induction false} ConflictStays(reports: seq<Report>, n: nat, s: Ref)
    requires n < |reports| && Conflicted(reports, n, s)
    ensures Conflicted(reports, n + 1, s)
  {
  }

  lemma {:induction false} Recall(reports: seq<Report>, n: nat, s: Ref, serials: map<Ref, string>) returns (last: nat)
    requires n <= |reports| && Remembers(reports, n, serials) && s in serials
    ensures last < n && reports[last].source == s && Telling(reports[last]) && Canonical(reports[last].serial) == serials[s]
  {
    assert Reported(reports, n, s, serials[s]);
    last :| 0 <= last < n && reports[last].source == s && Telling(reports[last]) && Canonical(reports[last].serial) == serials[s];
  }

  lemma {:induction false} ConflictIsNew(reports: seq<Report>, n: nat, s: Ref, serials: map<Ref, string>)
    requires n < |reports| && Remembers(reports, n, serials) && Conflicted(reports, n + 1, s) && !Conflicted(reports, n, s)
    ensures s == reports[n].source && Telling(reports[n]) && s in serials && serials[s] != Canonical(reports[n].serial)
  {
    var i := WithLast(reports, n, s);
    assert From(reports, n, s);
    var last := Recall(reports, n, s, serials);
    if Canonical(reports[i].serial) != Canonical(reports[last].serial) { Pair(reports, n, s, i, last); }
  }

  lemma {:induction false} WithLast(reports: seq<Report>, n: nat, s: Ref) returns (i: nat)
    requires n < |reports| && Conflicted(reports, n + 1, s) && !Conflicted(reports, n, s)
    ensures i < n && reports[i].source == s == reports[n].source && Telling(reports[i]) && Telling(reports[n])
    ensures Canonical(reports[i].serial) != Canonical(reports[n].serial)
  {
    var k, j :| 0 <= k < j < n + 1 && reports[k].source == s && reports[j].source == s
      && Telling(reports[k]) && Telling(reports[j]) && Canonical(reports[k].serial) != Canonical(reports[j].serial);
    i := k;
  }

  lemma {:induction false} Pair(reports: seq<Report>, n: nat, s: Ref, i: nat, j: nat)
    requires i < n <= |reports| && j < n && reports[i].source == s && reports[j].source == s
    requires Telling(reports[i]) && Telling(reports[j]) && Canonical(reports[i].serial) != Canonical(reports[j].serial)
    ensures Conflicted(reports, n, s)
  {
    if i < j {
      assert Canonical(reports[i].serial) != Canonical(reports[j].serial);
    } else {
      assert Canonical(reports[j].serial) != Canonical(reports[i].serial);
    }
  }

  /** Every report ends up matched, or rejected with its reason, in the order given. */
  method Correlate(d: Device, reports: seq<Report>) returns (out: Outcome)
    ensures out.Invalid? <==> !AllUsable(d, reports)
    ensures out.Correlated? ==>
      out.matched == Matched(d, reports, |reports|) && out.rejected == Rejected(d, reports, |reports|)
  {
    if !ActualDevice(d) { return Invalid; }
    var valid, conflicts := FindConflicts(d, reports);
    if !valid { return Invalid; }
    var serial := SerialOf(d);
    var matched, rejected := [], [];
    for n := 0 to |reports|
      invariant matched == Matched(d, reports, n) && rejected == Rejected(d, reports, n)
    {
      var r := reports[n];
      var reason := None;
      if !r.authenticated {
        reason := Some(Unauthenticated);
      } else if !Eligible(r.via) {
        reason := Some(IneligibleMethod);
      } else if r.source in conflicts {
        reason := Some(SerialConflict);
      } else if serial == "" || Canonical(r.serial) == "" {
        reason := Some(MissingSerial);
      } else if Canonical(r.serial) != serial {
        reason := Some(SerialConflict);
      }
      if reason.None? {
        matched := matched + [r];
      } else {
        rejected := rejected + [Rejection(r, reason.value)];
      }
    }
    return Correlated(matched, rejected);
  }

  // ----- What a match means -----

  function Explained(why: Report -> Option<Reason>, reports: seq<Report>): seq<Rejection> {
    if reports == [] then []
    else
      var r := reports[|reports| - 1];
      Explained(why, reports[..|reports| - 1]) + Given(r, why(r))
  }

  function Given(r: Report, why: Option<Reason>): seq<Rejection> {
    if why.Some? then [Rejection(r, why.value)] else []
  }

  lemma {:induction false} ExplainedNext(why: Report -> Option<Reason>, reports: seq<Report>, r: Report)
    ensures Explained(why, reports + [r]) == Explained(why, reports) + Given(r, why(r))
  {
    assert (reports + [r])[..|reports|] == reports;
  }

  lemma {:induction false} ExplainedMember(why: Report -> Option<Reason>, reports: seq<Report>, x: Rejection)
    ensures x in Explained(why, reports) <==> x.report in reports && why(x.report) == Some(x.reason)
  {
    if reports != [] { ExplainedMember(why, reports[..|reports| - 1], x); }
  }

  function WhyIn(d: Device, reports: seq<Report>): Report -> Option<Reason> {
    r => Why(d, reports, r)
  }

  lemma {:induction false} RejectedIs(d: Device, reports: seq<Report>, n: nat)
    requires n <= |reports|
    ensures Rejected(d, reports, n) == Explained(WhyIn(d, reports), reports[..n])
  {
    if n > 0 {
      RejectedIs(d, reports, n - 1);
      ExplainedNext(WhyIn(d, reports), reports[..n - 1], reports[n - 1]);
      assert reports[..n] == reports[..n - 1] + [reports[n - 1]];
    }
  }

  lemma {:induction false} RejectedMember(d: Device, reports: seq<Report>, n: nat, x: Rejection)
    requires n <= |reports|
    ensures x in Rejected(d, reports, n) <==> x.report in reports[..n] && Why(d, reports, x.report) == Some(x.reason)
  {
    RejectedIs(d, reports, n);
    ExplainedMember(WhyIn(d, reports), reports[..n], x);
  }

  lemma {:induction false} PartitionSize(d: Device, reports: seq<Report>, n: nat)
    requires n <= |reports|
    ensures |Matched(d, reports, n)| + |Rejected(d, reports, n)| == n
  {
    if n > 0 { PartitionSize(d, reports, n - 1); }
  }

  /** No report is lost, and none is counted twice. */
  lemma {:induction false} Partition(d: Device, reports: seq<Report>, n: nat)
    requires n <= |reports|
    ensures |Matched(d, reports, n)| + |Rejected(d, reports, n)| == n
    ensures forall x :: x in Rejected(d, reports, n) <==> x.report in reports[..n] && Why(d, reports, x.report) == Some(x.reason)
  {
    PartitionSize(d, reports, n);
    forall x ensures x in Rejected(d, reports, n) <==> x.report in reports[..n] && Why(d, reports, x.report) == Some(x.reason) {
      RejectedMember(d, reports, n, x);
    }
  }

  /** Exactly the reports without a reason match. */
  lemma {:induction false} MatchedMembers(d: Device, reports: seq<Report>, n: nat)
    requires n <= |reports|
    ensures forall r :: r in Matched(d, reports, n) <==> r in reports[..n] && Why(d, reports, r).None?
  {
    forall r ensures r in Matched(d, reports, n) <==> r in reports[..n] && Why(d, reports, r).None? {
      MatchedMember(d, reports, n, r);
    }
  }

  lemma {:induction false} MatchedMember(d: Device, reports: seq<Report>, n: nat, r: Report)
    requires n <= |reports|
    ensures r in Matched(d, reports, n) <==> r in reports[..n] && Why(d, reports, r).None?
  {
    if n > 0 {
      MatchedMember(d, reports, n - 1, r);
      assert reports[..n] == reports[..n - 1] + [reports[n - 1]];
    }
  }

  /** If anything matches, it and every telling report of its source name the organization device. */
  lemma {:induction false} MatchAgrees(d: Device, reports: seq<Report>, r: Report, i: nat)
    requires r in Matched(d, reports, |reports|) && i < |reports| && reports[i].source == r.source && Telling(reports[i])
    ensures Telling(r) && Canonical(r.serial) == SerialOf(d) == Canonical(reports[i].serial)
  {
    MatchedMembers(d, reports, |reports|);
    assert reports[..|reports|] == reports;
    var j :| 0 <= j < |reports| && reports[j] == r;
    if Canonical(reports[i].serial) != Canonical(r.serial) { Pair(reports, |reports|, r.source, i, j); }
  }

  // ----- Canonical serials are stable -----

  lemma {:induction false} UpperAt(s: string, i: nat)
    requires i < |s|
    ensures Upper(s)[i] == if 'a' <= s[i] <= 'z' then (s[i] as int - 32) as char else s[i]
  {
    if i > 0 { UpperAt(s[1..], i - 1); }
  }

  lemma {:induction false} TrimmedLeft(s: string)
    ensures TrimLeft(s) != [] ==> !BlankChar(TrimLeft(s)[0])
  {
    if s != [] && BlankChar(s[0]) { TrimmedLeft(s[1..]); }
  }

  lemma {:induction false} TrimmedRight(s: string)
    ensures TrimRight(s) <= s
    ensures TrimRight(s) != [] ==> !BlankChar(TrimRight(s)[|TrimRight(s)| - 1])
  {
    if s != [] && BlankChar(s[|s| - 1]) { TrimmedRight(s[..|s| - 1]); }
  }

  /** Taking the key of a key changes nothing. */
  lemma {:induction false} CanonicalTwice(s: string)
    ensures Canonical(Canonical(s)) == Canonical(s)
  {
    var t := TrimRight(TrimLeft(s));
    TrimmedLeft(s);
    TrimmedRight(TrimLeft(s));
    var u := Upper(t);
    if t != [] {
      UpperAt(t, 0);
      UpperAt(t, |t| - 1);
    }
    assert TrimRight(TrimLeft(u)) == u;
    forall i | 0 <= i < |u| ensures Upper(u)[i] == u[i] {
      UpperAt(u, i);
      UpperAt(t, i);
    }
    assert Upper(u) == u;
  }
}
