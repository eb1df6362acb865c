/** What holds of the evidence store in every run. */
module EvidenceRuns {
  import opened Basics
  import opened Correlation
  import opened Evidence

  datatype Action =
    | Observe(serial: string, o: Observation)
    | Change(ref: Ref, absent: bool, disconnected: bool)
    | DeleteAccount(account: string)
    | Link(p: Pair, at: int, order: seq<Observation>)

  /** A link is checked against exactly the native source's history. */
  ghost predicate Possible(r: Repo, a: Action) {
    match a
    case Observe(serial, o) => true
    case Change(ref, absent, disconnected) => ref in r.records
    case DeleteAccount(account) => true
    case Link(p, at, order) => Lists(order, HistoryOf(r, p.native)) && LinkError(r, p, at, order).None?
  }

  ghost function Next(r: Repo, a: Action): Repo {
    if !Possible(r, a) then r
    else match a
      case Observe(serial, o) => AfterObserve(r, serial, o)
      case Change(ref, absent, disconnected) => AfterChange(r, ref, absent, disconnected)
      case DeleteAccount(account) => AfterDeleteAccount(r, account)
      case Link(p, at, order) => AfterLink(r, p, order)
  }

  const EMPTY := Repo(map[], map[], map[])

  ghost function Run(actions: seq<Action>): Repo {
    if actions == [] then EMPTY else Next(Run(actions[..|actions| - 1]), actions[|actions| - 1])
  }

  // ----- The snapshot is the latest original -----

  predicate SameButFlags(a: Observation, b: Observation) {
    a.(absent := b.absent, disconnected := b.disconnected) == b
  }

  /** The snapshot is an original that no other is later than, apart from its lifecycle flags. */
  ghost predicate Latest(natives: set<Observation>, snapshot: Observation) {
    && (exists o :: o in natives && SameButFlags(snapshot, o))
    && (forall o :: o in natives ==> o.at <= snapshot.at)
  }

  ghost predicate SomePositive(natives: set<Observation>) {
    exists o :: o in natives && o.at > 0
  }

  ghost predicate GoodAt(r: Repo, ref: Ref) {
    && (ref in r.records <==> SomePositive(HistoryOf(r, ref)))
    && (ref in r.records ==> Latest(HistoryOf(r, ref), r.records[ref].snapshot) && r.records[ref].snapshot.at > 0)
    && (forall o :: o in HistoryOf(r, ref) ==> o.source == ref && o.at != 0 && Observable(o))
  }

  ghost predicate Good(r: Repo) {
    forall ref :: GoodAt(r, ref)
  }

  lemma {:induction false} ObserveGood(r: Repo, serial: string, o: Observation)
    requires Good(r)
    ensures Good(AfterObserve(r, serial, o))
  {
    var after := AfterObserve(r, serial, o);
    forall ref ensures GoodAt(after, ref) {
      assert GoodAt(r, ref);
      if ref == o.source && after != r { NewGood(r, serial, o); }
    }
  }

  lemma {:induction false} NewGood(r: Repo, serial: string, o: Observation)
    requires GoodAt(r, o.source) && Observable(o) && Prepared(serial, o) !in HistoryOf(r, o.source)
    ensures GoodAt(AfterObserve(r, serial, o), o.source)
  {
    var original := Prepared(serial, o);
    var after := AfterObserve(r, serial, o);
    var before, now := HistoryOf(r, o.source), HistoryOf(after, o.source);
    assert now == before + {original};
    if o.at >= SnapshotTime(r, o.source) {
      assert SameButFlags(original, original);
      assert o.at > 0 && original in now;
    } else if o.source in r.records {
      var kept :| kept in before && SameButFlags(r.records[o.source].snapshot, kept);
      assert kept in now && kept.at > 0;
    } else {
      assert forall p :: p in now ==> p.at < 0;
    }
  }

  lemma {:induction false} ChangeGood(r: Repo, ref: Ref, absent: bool, disconnected: bool)
    requires Good(r) && ref in r.records
    ensures Good(AfterChange(r, ref, absent, disconnected))
  {
    var after := AfterChange(r, ref, absent, disconnected);
    forall k ensures GoodAt(after, k) {
      assert GoodAt(r, k);
      if k == ref { FlaggedLatest(HistoryOf(r, k), r.records[k].snapshot, after.records[k].snapshot); }
    }
  }

  lemma {:induction false} FlaggedLatest(natives: set<Observation>, snapshot: Observation, after: Observation)
    requires Latest(natives, snapshot) && SameButFlags(after, snapshot)
    ensures Latest(natives, after)
  {
    var o :| o in natives && SameButFlags(snapshot, o);
    assert SameButFlags(after, o);
  }

  lemma {:induction false} DeleteGood(r: Repo, account: string)
    requires Good(r)
    ensures Good(AfterDeleteAccount(r, account))
  {
    var after := AfterDeleteAccount(r, account);
    forall k ensures GoodAt(after, k) {
      assert GoodAt(r, k);
      if k in r.records { FlaggedLatest(HistoryOf(r, k), r.records[k].snapshot, after.records[k].snapshot); }
    }
  }

  // ----- Links are justified by the evidence as it is now -----

  ghost predicate AllJustified(r: Repo) {
    forall p :: p in r.links ==> Justified(r, p) && r.links[p] == SerialOf(DeviceOf(r, p.apple))
  }

  /** Nothing about either source of the pair differs. */
  predicate Untouched(r: Repo, after: Repo, p: Pair) {
    && (p.apple in r.records ==> p.apple in after.records && after.records[p.apple] == r.records[p.apple])
    && (p.native in r.records ==> p.native in after.records && after.records[p.native] == r.records[p.native])
    && HistoryOf(after, p.native) == HistoryOf(r, p.native)
  }

  /** A link stays justified while nothing about its two sources changes. */
  lemma {:induction false} StillJustified(r: Repo, after: Repo, p: Pair)
    requires Justified(r, p) && Untouched(r, after, p)
    ensures Justified(after, p) && DeviceOf(after, p.apple) == DeviceOf(r, p.apple)
  {
  }

  /** The links that remain are old ones whose sources did not change. */
  ghost predicate OnlyUntouched(r: Repo, after: Repo) {
    forall p :: p in after.links ==> p in r.links && after.links[p] == r.links[p] && Untouched(r, after, p)
  }

  lemma {:induction false} AllStillJustified(r: Repo, after: Repo)
    requires AllJustified(r) && OnlyUntouched(r, after)
    ensures AllJustified(after)
  {
    forall p | p in after.links ensures Justified(after, p) && after.links[p] == SerialOf(DeviceOf(after, p.apple)) {
      assert Justified(r, p);
      StillJustified(r, after, p);
    }
  }

  lemma {:induction false} ObserveUnlinks(r: Repo, serial: string, o: Observation)
    ensures OnlyUntouched(r, AfterObserve(r, serial, o))
  {
  }

  lemma {:induction false} ChangeUnlinks(r: Repo, ref: Ref, absent: bool, disconnected: bool)
    requires ref in r.records && (forall p :: p in r.links ==> Present(r, p.apple) && Present(r, p.native))
    ensures OnlyUntouched(r, AfterChange(r, ref, absent, disconnected))
  {
  }

  lemma {:induction false} DeleteUnlinks(r: Repo, account: string)
    ensures OnlyUntouched(r, AfterDeleteAccount(r, account))
  {
  }

  lemma {:induction false} AllPresent(r: Repo)
    requires AllJustified(r)
    ensures forall p :: p in r.links ==> Present(r, p.apple) && Present(r, p.native)
  {
    forall p | p in r.links ensures Present(r, p.apple) && Present(r, p.native) { assert Justified(r, p); }
  }

  lemma {:induction false} LinkJustified(r: Repo, p: Pair, at: int, order: seq<Observation>)
    requires Good(r) && AllJustified(r) && Lists(order, HistoryOf(r, p.native)) && LinkError(r, p, at, order).None?
    ensures AllJustified(AfterLink(r, p, order))
  {
    var after := AfterLink(r, p, order);
    forall q | q in after.links ensures Justified(after, q) && after.links[q] == SerialOf(DeviceOf(after, q.apple)) {
      LinkedJustified(r, p, at, order, q);
    }
  }

  lemma {:induction false} LinkedJustified(r: Repo, p: Pair, at: int, order: seq<Observation>, q: Pair)
    requires Good(r) && AllJustified(r) && Lists(order, HistoryOf(r, p.native)) && LinkError(r, p, at, order).None?
    requires q in AfterLink(r, p, order).links
    ensures var after := AfterLink(r, p, order); Justified(after, q) && after.links[q] == SerialOf(DeviceOf(after, q.apple))
  {
    if q == p {
      NewJustified(r, p, at, order);
    } else {
      assert Justified(r, q);
    }
    StillJustified(r, AfterLink(r, p, order), q);
  }

  lemma {:induction false} NewJustified(r: Repo, p: Pair, at: int, order: seq<Observation>)
    requires Good(r) && Lists(order, HistoryOf(r, p.native)) && LinkError(r, p, at, order).None?
    ensures Justified(r, p) && AfterLink(r, p, order).links[p] == SerialOf(DeviceOf(r, p.apple))
  {
    var d := DeviceOf(r, p.apple);
    assert GoodAt(r, p.native);
    MatchSpeaks(d, p.native, HistoryOf(r, p.native), order, Matched(d, Reports(order), |order|)[0]);
    forall o | o in HistoryOf(r, p.native) ensures Usable(d, ReportOf(o)) {
      var i :| 0 <= i < |order| && order[i] == o;
      assert Usable(d, Reports(order)[i]);
    }
  }

  lemma {:induction false} RunKeeps(actions: seq<Action>)
    ensures Good(Run(actions)) && AllJustified(Run(actions))
  {
    if actions != [] {
      var r, a := Run(actions[..|actions| - 1]), actions[|actions| - 1];
      RunKeeps(actions[..|actions| - 1]);
      NextKeeps(r, a);
    } else {
      assert forall ref :: GoodAt(EMPTY, ref);
    }
  }

  lemma {:induction false} NextKeeps(r: Repo, a: Action)
    requires Good(r) && AllJustified(r)
    ensures Good(Next(r, a)) && AllJustified(Next(r, a))
  {
    if Possible(r, a) {
      match a
      case Observe(serial, o) =>
        ObserveGood(r, serial, o);
        ObserveUnlinks(r, serial, o);
        AllStillJustified(r, AfterObserve(r, serial, o));
      case Change(ref, absent, disconnected) =>
        ChangeGood(r, ref, absent, disconnected);
        AllPresent(r);
        ChangeUnlinks(r, ref, absent, disconnected);
        AllStillJustified(r, AfterChange(r, ref, absent, disconnected));
      case DeleteAccount(account) =>
        DeleteGood(r, account);
        DeleteUnlinks(r, account);
        AllStillJustified(r, AfterDeleteAccount(r, account));
      case Link(p, at, order) =>
        LinkGood(r, p, order);
        LinkJustified(r, p, at, order);
    }
  }

  lemma {:induction false} LinkGood(r: Repo, p: Pair, order: seq<Observation>)
    requires Good(r) && p.apple in r.records && Matched(DeviceOf(r, p.apple), Reports(order), |order|) != []
    ensures Good(AfterLink(r, p, order))
  {
    var after := AfterLink(r, p, order);
    assert after.records == r.records && after.history == r.history;
    forall k ensures GoodAt(after, k) { assert GoodAt(r, k); }
  }

  // ----- Main results -----

  /** In every run each record's snapshot is, flags apart, an original of maximal observation time. */
  lemma {:induction false} SnapshotIsLatest(actions: seq<Action>, ref: Ref)
    requires ref in Run(actions).records
    ensures Latest(HistoryOf(Run(actions), ref), Run(actions).records[ref].snapshot)
  {
    RunKeeps(actions);
    assert GoodAt(Run(actions), ref);
  }

  /**
   * A replayed original finds no record exactly when every original of its source was observed before Go's zero time.
   */
  lemma {:induction false} ConflictExactly(actions: seq<Action>, serial: string, o: Observation)
    ensures ObserveError(Run(actions), serial, o) == Some(Conflict) <==>
      && Observable(o) && Prepared(serial, o) in HistoryOf(Run(actions), o.source)
      && forall p :: p in HistoryOf(Run(actions), o.source) ==> p.at < 0
  {
    RunKeeps(actions);
    assert GoodAt(Run(actions), o.source);
  }

  /** So with observation times from year 1 on, an acknowledged replay never conflicts. */
  lemma {:induction false} ReplayAccepted(actions: seq<Action>, serial: string, o: Observation)
    requires Observable(o) && o.at > 0
    ensures ObserveError(Run(actions), serial, o).None?
  {
    ConflictExactly(actions, serial, o);
    assert Prepared(serial, o).at > 0;
  }

  /** One original observed in year 0, sent twice, does conflict. */
  lemma {:induction false} EarlyReplayConflicts(source: Ref)
    requires source.kind != "" && source.resource != ""
    ensures var o := Observation(source, -1, false, false, None, true, Scalar, "");
      ObserveError(Run([Observe("", o)]), "", o) == Some(Conflict)
  {
    var o := Observation(source, -1, false, false, None, true, Scalar, "");
    var actions := [Observe("", o)];
    assert actions[..0] == [];
    assert Run(actions) == AfterObserve(EMPTY, "", o);
  }

  lemma {:induction false} HistoryGrows(r: Repo, a: Action, ref: Ref)
    ensures HistoryOf(r, ref) <= HistoryOf(Next(r, a), ref)
  {
  }

  /** An original once acknowledged is kept forever, and sending it again at any later time changes nothing. */
  lemma {:induction false} ReplayChangesNothing(actions: seq<Action>, i: nat, serial: string, o: Observation)
    requires i < |actions| && actions[i] == Observe(serial, o) && Observable(o)
    ensures Prepared(serial, o) in HistoryOf(Run(actions), o.source)
    ensures AfterObserve(Run(actions), serial, o) == Run(actions)
  {
    var front := actions[..|actions| - 1];
    if i < |actions| - 1 {
      ReplayChangesNothing(front, i, serial, o);
      HistoryGrows(Run(front), actions[|actions| - 1], o.source);
    }
  }

  lemma {:induction false} Relinks(r: Repo, p: Pair, at: int, order: seq<Observation>)
    requires Justified(r, p) && at != 0 && Lists(order, HistoryOf(r, p.native))
    requires forall o :: o in HistoryOf(r, p.native) ==> o.source == p.native
    ensures LinkError(r, p, at, order).None?
    ensures AfterLink(r, p, order).links[p] == SerialOf(DeviceOf(r, p.apple))
  {
    var d, natives := DeviceOf(r, p.apple), HistoryOf(r, p.native);
    forall i | 0 <= i < |order| ensures Usable(d, Reports(order)[i]) { assert order[i] in natives; }
    MatchesWhenSupported(d, p.native, natives, order);
    MatchSpeaks(d, p.native, natives, order, Matched(d, Reports(order), |order|)[0]);
  }

  lemma {:induction false} SameLink(r: Repo, p: Pair, order: seq<Observation>)
    requires p.apple in r.records && Matched(DeviceOf(r, p.apple), Reports(order), |order|) != []
    requires p in r.links && AfterLink(r, p, order).links[p] == r.links[p]
    ensures AfterLink(r, p, order) == r
  {
    assert AfterLink(r, p, order).links == r.links;
  }

  lemma {:induction false} FromHistory(r: Repo, ref: Ref)
    requires Good(r)
    ensures forall o :: o in HistoryOf(r, ref) ==> o.source == ref
  {
    assert GoodAt(r, ref);
  }

  lemma {:induction false} OneJustified(r: Repo, p: Pair)
    requires AllJustified(r) && p in r.links
    ensures Justified(r, p) && r.links[p] == SerialOf(DeviceOf(r, p.apple))
  {
  }

  /** In every run a stored link is what correlating the present evidence would store again. */
  lemma {:induction false} LinksAreCurrent(actions: seq<Action>, p: Pair, at: int, order: seq<Observation>)
    requires p in Run(actions).links && at != 0 && Lists(order, HistoryOf(Run(actions), p.native))
    ensures LinkError(Run(actions), p, at, order).None? && AfterLink(Run(actions), p, order) == Run(actions)
  {
    RunKeeps(actions);
    FromHistory(Run(actions), p.native);
    OneJustified(Run(actions), p);
    Relinks(Run(actions), p, at, order);
    SameLink(Run(actions), p, order);
  }
}
