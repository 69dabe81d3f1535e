/**
 One discovery scan: crawl the source, then process and persist each resource, isolating every
 failure to its document, and report the counters.
 */
module DiscoveryService {
  import opened Options
  import opened RawEvidence
  import Crawler

  /** Within a document, later rows carry higher numbers. */
  ghost predicate NumbersIncrease(versions: seq<Version>) {
    forall i, j :: 0 <= i < j < |versions| && versions[i].document == versions[j].document ==>
      versions[i].number < versions[j].number
  }

  lemma {:induction false} LatestRow(versions: seq<Version>, d: Url)
    ensures Latest(versions, d) == None <==> forall i :: 0 <= i < |versions| ==> versions[i].document != d
    ensures Latest(versions, d).Some? ==>
              exists i :: 0 <= i < |versions| && versions[i] == Latest(versions, d).value && versions[i].document == d
  {
    if versions != [] {
      var before := versions[..|versions| - 1];
      LatestRow(before, d);
      assert forall i :: 0 <= i < |before| ==> before[i] == versions[i];
      assert versions[|versions| - 1].document == d || Latest(versions, d) == Latest(before, d);
    }
  }

  class EvidenceDatabase {
    var versions: seq<Version>
    var observations: seq<Observation>

    function Snapshot(): Store
      reads this
    {
      Store(versions, observations)
    }

    ghost predicate Valid()
      reads this
    {
      NumbersIncrease(versions)
    }

    constructor ()
      ensures Valid() && Snapshot() == EMPTY
    {
      versions, observations := [], [];
    }

    /** The row with the highest version number. */
    method LatestVersion(d: Url) returns (latest: Option<Version>)
      requires Valid()
      ensures latest == Latest(versions, d)
    {
      latest := None;
      for i := 0 to |versions|
        invariant latest == Latest(versions[..i], d)
      {
        assert versions[..i + 1][..i] == versions[..i];
        LatestRow(versions[..i], d);
        if versions[i].document == d && (latest == None || versions[i].number > latest.value.number) {
          latest := Some(versions[i]);
        }
      }
      assert versions[..|versions|] == versions;
    }

    /** `raises` is a failure later in the transaction; the rows already written are then rolled back. */
    method PersistResource(scan: Id, d: Url, hash: Hash, text: string, raises: bool) returns (changed: Option<bool>)
      requires Valid()
      modifies this
      ensures Valid()
      ensures raises ==> changed == None && Snapshot() == old(Snapshot())
      ensures !raises ==>
                && changed == Some(Changed(old(versions), d, hash))
                && Snapshot() == Persist(old(Snapshot()), scan, d, hash, text)
    {
      var savedVersions := versions;
      var latest := LatestVersion(d);
      LatestRow(versions, d);
      var isChanged := latest == None || latest.value.hash != hash;
      var number := if latest == None then 0 else latest.value.number;
      if isChanged {
        number := number + 1;
        LatestIsHighest(versions, d);
        versions := versions + [Version(d, number, hash, text, scan)];
        if raises {
          versions := savedVersions;
          return None;
        }
      } else if raises {
        return None;
      }
      observations := observations + [Observation(scan, d, number, hash)];
      changed := Some(isChanged);
    }
  }

  lemma {:induction false} LatestIsHighest(versions: seq<Version>, d: Url)
    requires NumbersIncrease(versions)
    ensures forall i :: 0 <= i < |versions| && versions[i].document == d ==> versions[i].number <= LatestNumber(versions, d)
  {
    if versions != [] {
      var before := versions[..|versions| - 1];
      assert forall i :: 0 <= i < |before| ==> before[i] == versions[i];
      LatestIsHighest(before, d);
    }
  }

  // What extraction, processing, storage and persistence make of a resource.
  datatype Processed = Unprocessable | Ready(document: Url, hash: Hash, text: string, outcome: Outcome)

  function FetchOf(p: Processed, scan: Id): Fetch
    requires p.Ready?
  {
    Fetch(scan, p.document, p.hash, p.text, p.outcome)
  }

  datatype ScanSummary = ScanSummary(pages: nat, discovered: nat, changed: nat, skipped: nat, indexed: nat)

  /** The resources that reach the store, as fetches of the scan. */
  function FetchesOf<R>(resources: seq<R>, process: R -> Processed, scan: Id): seq<Fetch> {
    if resources == [] then [] else
    var p := process(resources[|resources| - 1]);
    FetchesOf(resources[..|resources| - 1], process, scan) + (if p.Ready? then [FetchOf(p, scan)] else [])
  }

  /** The fetches persisted are the processable resources in order, each with its document, hash, text and outcome. */
  lemma {:induction false} FetchesCarry<R>(resources: seq<R>, process: R -> Processed, scan: Id)
    ensures var fetches := FetchesOf(resources, process, scan);
      Processings(fetches) == ReadyOnes(resources, process) && forall f :: f in fetches ==> f.scan == scan
  {
    if resources != [] {
      var (front, p) := (resources[..|resources| - 1], process(resources[|resources| - 1]));
      FetchesCarry(front, process, scan);
      var fetches := FetchesOf(front, process, scan);
      if p.Ready? {
        assert (fetches + [FetchOf(p, scan)])[..|fetches|] == fetches;
      } else {
        assert fetches + [] == fetches;
      }
    }
  }

  function Processings(fetches: seq<Fetch>): seq<Processed> {
    if fetches == [] then [] else
    var f := fetches[|fetches| - 1];
    Processings(fetches[..|fetches| - 1]) + [Ready(f.document, f.hash, f.text, f.outcome)]
  }

  function ReadyOnes<R>(resources: seq<R>, process: R -> Processed): seq<Processed> {
    if resources == [] then [] else
    var p := process(resources[|resources| - 1]);
    ReadyOnes(resources[..|resources| - 1], process) + if p.Ready? then [p] else []
  }

  predicate Acknowledged(p: Processed) {
    p.Ready? ==> !p.outcome.Unacknowledged?
  }

  lemma {:induction false} FetchesAreOfScan<R>(resources: seq<R>, process: R -> Processed, scan: Id)
    ensures |FetchesOf(resources, process, scan)| <= |resources|
    ensures forall f :: f in FetchesOf(resources, process, scan) ==> f.scan == scan
    ensures (forall f :: f in FetchesOf(resources, process, scan) ==> !f.outcome.Unacknowledged?) <==>
            forall i :: 0 <= i < |resources| ==> Acknowledged(process(resources[i]))
  {
    if resources != [] {
      var (front, last) := (resources[..|resources| - 1], resources[|resources| - 1]);
      FetchesAreOfScan(front, process, scan);
      assert forall i :: 0 <= i < |front| ==> front[i] == resources[i];
      var fetches := FetchesOf(resources, process, scan);
      if process(last).Ready? {
        assert fetches[|fetches| - 1] == FetchOf(process(last), scan);
        assert forall f :: f in fetches <==> f in FetchesOf(front, process, scan) || f == FetchOf(process(last), scan);
      } else {
        assert fetches == FetchesOf(front, process, scan);
      }
    }
  }

  /** What a completed scan's counters say of the rows it left in the store. */
  ghost predicate Accounts(before: Store, after: Store, scan: Id, fetches: seq<Fetch>, s: ScanSummary) {
    var tally := Summarized(before, fetches, scan);
    && after == Run(before, fetches)
    && s.discovered == tally.discovered && s.changed == tally.changed && s.skipped == tally.skipped && s.indexed == tally.changed
    && s.discovered == s.changed + s.skipped
    && ObservationsOf(after.observations, scan) == s.discovered + tally.lost
    && VersionsOf(after.versions, scan) == s.changed + tally.lostChanges
    && s.discovered + tally.lost <= s.pages
  }

  lemma SummaryAccounts(before: Store, scan: Id, fetches: seq<Fetch>, s: ScanSummary)
    requires ObservationsOf(before.observations, scan) == 0 && VersionsOf(before.versions, scan) == 0
    requires var tally := Summarized(before, fetches, scan);
      s == ScanSummary(s.pages, tally.discovered, tally.changed, tally.skipped, tally.changed)
    requires |fetches| <= s.pages
    ensures Accounts(before, Run(before, fetches), scan, fetches, s)
  {
    ScanConservation(before, fetches, scan);
    SummaryWithinFetches(before, fetches, scan);
  }

  lemma {:induction false} SummaryWithinFetches(before: Store, fetches: seq<Fetch>, scan: Id)
    ensures var tally := Summarized(before, fetches, scan); tally.discovered + tally.lost <= |fetches|
    decreases |fetches|
  {
    if fetches != [] {
      SummaryWithinFetches(before, fetches[..|fetches| - 1], scan);
    }
  }

  /**
   The counters of a completed scan account for the rows it left, and the count it reports is exact
   iff every commit for the resources of its crawl was acknowledged.  A crawl that raises leaves the
   evidence as it was.
   */
  method RunJob<R>(
    db: EvidenceDatabase, web: Crawler.Web<R>, start: Url, maxPages: nat, scan: Id, process: R -> Processed)
    returns (summary: Option<ScanSummary>, ghost resources: seq<R>)
    requires db.Valid()
    requires ObservationsOf(db.observations, scan) == 0 && VersionsOf(db.versions, scan) == 0
    modifies db
    ensures db.Valid()
    ensures old(db.versions) <= db.versions && old(db.observations) <= db.observations
    ensures summary == None ==> db.Snapshot() == old(db.Snapshot())
    ensures summary.Some? ==>
              && Accounts(old(db.Snapshot()), db.Snapshot(), scan, FetchesOf(resources, process, scan), summary.value)
              && summary.value.pages <= maxPages
              && exists fetched, visited ::
                   Crawler.IsCrawl(web, start, maxPages, Some(Crawler.CrawlResult(resources, summary.value.pages)),
                                   fetched, visited)
    ensures summary.Some? ==>
              (summary.value.discovered == ObservationsOf(db.observations, scan) <==>
               forall i :: 0 <= i < |resources| ==> Acknowledged(process(resources[i])))
  {
    resources := [];
    var result := Crawler.Crawl(web, start, maxPages);
    ghost var fetched, visited :| Crawler.IsCrawl(web, start, maxPages, result, fetched, visited);
    if result == None {
      return None, [];
    }
    Crawler.ResourcesWithinPages(web, fetched);
    ghost var before := db.Snapshot();
    resources := result.value.resources;
    var s := PersistAll(db, scan, result.value.resources, result.value.pagesCrawled, process);
    ghost var fetches := FetchesOf(resources, process, scan);
    FetchesAreOfScan(resources, process, scan);
    SummaryAccounts(before, scan, fetches, s);
    ReportedIffAcknowledged(before, fetches, scan);
    AllAcknowledged(fetches, scan);
    StoreOnlyGrows(before, fetches);
    summary := Some(s);
  }

  lemma AllAcknowledged(fetches: seq<Fetch>, scan: Id)
    requires forall f :: f in fetches ==> f.scan == scan
    ensures (forall f :: f in fetches ==> !f.outcome.Unacknowledged?) <==>
            forall i :: 0 <= i < |fetches| && fetches[i].scan == scan ==> !fetches[i].outcome.Unacknowledged?
  {
    assert forall i :: 0 <= i < |fetches| ==> fetches[i] in fetches;
  }

  function CountOne(s: ScanSummary, changed: bool): ScanSummary {
    s.(discovered := s.discovered + 1,
       changed := s.changed + (if changed then 1 else 0),
       skipped := s.skipped + (if changed then 0 else 1),
       indexed := s.indexed + (if changed then 1 else 0))
  }

  function Reported(pages: nat, tally: Summary): ScanSummary {
    ScanSummary(pages, tally.discovered, tally.changed, tally.skipped, tally.changed)
  }

  lemma RunNext(before: Store, earlier: seq<Fetch>, f: Fetch)
    ensures Run(before, earlier + [f]) == Apply(Run(before, earlier), f)
    ensures var c := Summarized(before, earlier, f.scan);
      Summarized(before, earlier + [f], f.scan)
      == Counted(c, f.outcome, Changed(Run(before, earlier).versions, f.document, f.hash))
  {
    assert (earlier + [f])[..|earlier|] == earlier;
  }

  lemma NextResource<R>(resources: seq<R>, i: nat, process: R -> Processed, scan: Id, before: Store, pages: nat)
    requires i < |resources|
    ensures var (earlier, later) := (FetchesOf(resources[..i], process, scan), FetchesOf(resources[..i + 1], process, scan));
      var p := process(resources[i]);
      && Run(before, later) == (if p.Ready? then Apply(Run(before, earlier), FetchOf(p, scan)) else Run(before, earlier))
      && Reported(pages, Summarized(before, later, scan)) ==
         var s := Reported(pages, Summarized(before, earlier, scan));
         if p.Ready? && p.outcome.Committed? then CountOne(s, Changed(Run(before, earlier).versions, p.document, p.hash)) else s
  {
    assert resources[..i + 1][..i] == resources[..i];
    var (earlier, p) := (FetchesOf(resources[..i], process, scan), process(resources[i]));
    if p.Ready? {
      RunNext(before, earlier, FetchOf(p, scan));
    } else {
      assert earlier + [] == earlier;
    }
  }

  /** One resource: processed, persisted and counted, or left out when either fails. */
  method PersistOne(db: EvidenceDatabase, scan: Id, p: Processed, s: ScanSummary) returns (s': ScanSummary)
    requires db.Valid()
    modifies db
    ensures db.Valid()
    ensures db.Snapshot() == if p.Ready? then Apply(old(db.Snapshot()), FetchOf(p, scan)) else old(db.Snapshot())
    ensures s' == if p.Ready? && p.outcome.Committed? then CountOne(s, Changed(old(db.versions), p.document, p.hash)) else s
  {
    s' := s;
    if p.Ready? {
      var changed := db.PersistResource(scan, p.document, p.hash, p.text, p.outcome.Aborted?);
      if changed.Some? && p.outcome.Committed? {
        s' := CountOne(s, changed.value);
      }
    }
  }

  /** The loop over the fetched resources, each failure isolated to its document. */
  method PersistAll<R>(db: EvidenceDatabase, scan: Id, resources: seq<R>, pages: nat, process: R -> Processed)
    returns (s: ScanSummary)
    requires db.Valid()
    modifies db
    ensures db.Valid() && db.Snapshot() == Run(old(db.Snapshot()), FetchesOf(resources, process, scan))
    ensures s == Reported(pages, Summarized(old(db.Snapshot()), FetchesOf(resources, process, scan), scan))
  {
    ghost var before := db.Snapshot();
    assert resources[..0] == [];
    s := ScanSummary(pages, 0, 0, 0, 0);
    for i := 0 to |resources|
      invariant db.Valid() && db.Snapshot() == Run(before, FetchesOf(resources[..i], process, scan))
      invariant s == Reported(pages, Summarized(before, FetchesOf(resources[..i], process, scan), scan))
    {
      NextResource(resources, i, process, scan, before, pages);
      s := PersistOne(db, scan, process(resources[i]), s);
    }
    assert resources[..|resources|] == resources;
  }
}
