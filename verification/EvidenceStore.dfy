/** The evidence repository's operations as the code runs them. */
module EvidenceStore {
  import opened Basics
  import opened Correlation
  import opened Evidence

  /** Walks the links and drops those of a source. */
  method DropLinks(links: map<Pair, string>, ref: Ref) returns (left: map<Pair, string>)
    ensures left == map p | p in links && p.apple != ref && p.native != ref :: links[p]
  {
    left := links;
    var rest := links.Keys;
    while rest != {}
      invariant rest <= links.Keys
      invariant forall p :: p in left ==> p in links && left[p] == links[p]
      invariant forall p :: p in links ==> (p in left <==> p in rest || (p.apple != ref && p.native != ref))
      decreases rest
    {
      var p :| p in rest;
      if p.apple == ref || p.native == ref { left := left - {p}; }
      rest := rest - {p};
    }
  }

  class Repository {
    var repo: Repo

    /** Keeps an original, and makes it the snapshot unless a later one is. */
    method Observe(serial: string, o: Observation) returns (error: Option<Error>)
      modifies this
      ensures error == ObserveError(old(repo), serial, o)
      ensures repo == AfterObserve(old(repo), serial, o)
    {
      if o.source.kind == "" || o.source.resource == "" || o.at == 0 || o.raw == Malformed || !o.fieldsValid { return Some(BadInput); }
      var original := o;
      if o.native.Some? {
        var native := o.native.value;
        if native.serial == "" { native := native.(serial := serial); }
        original := o.(native := Some(native));
      }
      var ref := o.source;
      var recorded := ref in repo.records;
      if original in HistoryOf(repo, ref) {
        if !recorded { return Some(Conflict); }
        return None;
      }
      var links := DropLinks(repo.links, ref);
      var history := repo.history[ref := HistoryOf(repo, ref) + {original}];
      repo := repo.(history := history, links := links);
      var latest := if recorded then repo.records[ref].snapshot.at else 0;
      if latest > o.at { return None; }
      var incomplete := !CompleteOriginal(ref, o.raw);
      if !FromApple(ref) { incomplete := incomplete || !KnownProvenance(original.native); }
      var created := if recorded then repo.records[ref].created else o.at;
      repo := repo.(records := repo.records[ref := Record(original, incomplete, created, o.at)]);
      return None;
    }

    /** Marks a source absent or disconnected, or neither, and then drops its links. */
    method ChangeSource(ref: Ref, absent: bool, disconnected: bool) returns (error: Option<Error>)
      modifies this
      ensures error == if ref in old(repo).records then None else Some(NotFound)
      ensures error.Some? ==> repo == old(repo)
      ensures error.None? ==> repo == AfterChange(old(repo), ref, absent, disconnected)
    {
      if ref !in repo.records { return Some(NotFound); }
      var links := repo.links;
      if absent || disconnected { links := DropLinks(links, ref); }
      repo := repo.(records := repo.records[ref := Flagged(repo.records[ref], absent, disconnected)], links := links);
      return None;
    }

    /** Checks the originals of both sources and stores the serial they share. */
    method Link(p: Pair, at: int, order: seq<Observation>) returns (error: Option<Error>)
      requires Lists(order, HistoryOf(repo, p.native))
      modifies this
      ensures error == LinkError(old(repo), p, at, order)
      ensures error.Some? ==> repo == old(repo)
      ensures error.None? ==> repo == AfterLink(old(repo), p, order)
    {
      if p.apple !in repo.records || p.native !in repo.records { return Some(NotFound); }
      var a, n := repo.records[p.apple], repo.records[p.native];
      if p.apple.kind != "axm.device" || a.incomplete || n.incomplete || a.snapshot.absent || a.snapshot.disconnected
        || n.snapshot.absent || n.snapshot.disconnected || at == 0 { return Some(BadInput); }
      var reports := Convert(order);
      var out := Correlate(DeviceOf(repo, p.apple), reports);
      if out.Invalid? { return Some(BadInput); }
      if out.matched == [] { return Some(Conflict); }
      repo := repo.(links := repo.links[p := Canonical(out.matched[0].serial)]);
      return None;
    }
  }

  method Convert(order: seq<Observation>) returns (reports: seq<Report>)
    ensures reports == Reports(order)
  {
    reports := [];
    for i := 0 to |order|
      invariant reports == Reports(order[..i])
    {
      assert order[..i + 1][..i] == order[..i];
      reports := reports + [ReportOf(order[i])];
    }
    assert order[..|order|] == order;
  }
}
