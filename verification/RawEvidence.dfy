/**
 The append-only evidence of what was fetched: one version row per change of a document's
 content hash and one observation per fetch. A fetch is one transaction; one that aborts leaves
 no trace. A hash stands for the content it was computed from.
 */
module RawEvidence {
  import opened Options

  type Url = string
  type Hash = string
  type Id = nat

  datatype Version = Version(document: Url, number: nat, hash: Hash, text: string, scan: Id)

  datatype Observation = Observation(scan: Id, document: Url, version: nat, hash: Hash)

  datatype Store = Store(versions: seq<Version>, observations: seq<Observation>)

  const EMPTY := Store([], [])

  /* ---- One fetch ---- */

  /** The last version row of a document. */
  function Latest(versions: seq<Version>, d: Url): Option<Version> {
    if versions == [] then None
    else if versions[|versions| - 1].document == d then Some(versions[|versions| - 1])
    else Latest(versions[..|versions| - 1], d)
  }

  predicate Changed(versions: seq<Version>, d: Url, hash: Hash) {
    Latest(versions, d) == None || Latest(versions, d).value.hash != hash
  }

  function LatestNumber(versions: seq<Version>, d: Url): nat {
    if Latest(versions, d) == None then 0 else Latest(versions, d).value.number
  }

  function Persist(s: Store, scan: Id, d: Url, hash: Hash, text: string): Store {
    var number := LatestNumber(s.versions, d) + (if Changed(s.versions, d, hash) then 1 else 0);
    Store(
      if Changed(s.versions, d, hash) then s.versions + [Version(d, number, hash, text, scan)] else s.versions,
      s.observations + [Observation(scan, d, number, hash)])
  }

  /* ---- Any sequence of fetches ---- */

  // What became of a fetch: rolled back, committed, or committed although its worker saw an error.
  datatype Outcome = Aborted | Committed | Unacknowledged

  datatype Fetch = Fetch(scan: Id, document: Url, hash: Hash, text: string, outcome: Outcome)

  function Apply(s: Store, f: Fetch): Store {
    if f.outcome.Aborted? then s else Persist(s, f.scan, f.document, f.hash, f.text)
  }

  function Run(s: Store, fetches: seq<Fetch>): Store
    decreases |fetches|
  {
    if fetches == [] then s else Apply(Run(s, fetches[..|fetches| - 1]), fetches[|fetches| - 1])
  }

  function VersionHashes(versions: seq<Version>, d: Url): seq<Hash> {
    if versions == [] then [] else
    VersionHashes(versions[..|versions| - 1], d)
    + (if versions[|versions| - 1].document == d then [versions[|versions| - 1].hash] else [])
  }

  function VersionNumbers(versions: seq<Version>, d: Url): seq<nat> {
    if versions == [] then [] else
    VersionNumbers(versions[..|versions| - 1], d)
    + (if versions[|versions| - 1].document == d then [versions[|versions| - 1].number] else [])
  }

  function ObservedHashes(observations: seq<Observation>, d: Url): seq<Hash> {
    if observations == [] then [] else
    ObservedHashes(observations[..|observations| - 1], d)
    + (if observations[|observations| - 1].document == d then [observations[|observations| - 1].hash] else [])
  }

  function FetchedHashes(fetches: seq<Fetch>, d: Url): seq<Hash> {
    if fetches == [] then [] else
    var last := fetches[|fetches| - 1];
    FetchedHashes(fetches[..|fetches| - 1], d)
    + (if last.document == d && !last.outcome.Aborted? then [last.hash] else [])
  }

  /** A sequence with consecutive repeats removed. */
  function Unstuttered(hashes: seq<Hash>): seq<Hash> {
    if |hashes| <= 1 then hashes else
    var before := Unstuttered(hashes[..|hashes| - 1]);
    if hashes[|hashes| - 2] == hashes[|hashes| - 1] then before else before + [hashes[|hashes| - 1]]
  }

  predicate Reduced(hashes: seq<Hash>) {
    forall i :: 0 < i < |hashes| ==> hashes[i - 1] != hashes[i]
  }

  lemma {:induction false} UnstutteredEnds(hashes: seq<Hash>)
    requires hashes != []
    ensures Unstuttered(hashes) != []
    ensures Unstuttered(hashes)[0] == hashes[0]
    ensures Unstuttered(hashes)[|Unstuttered(hashes)| - 1] == hashes[|hashes| - 1]
  {
    if |hashes| > 1 {
      UnstutteredEnds(hashes[..|hashes| - 1]);
    }
  }

  lemma {:induction false} ReducedFixed(hashes: seq<Hash>)
    requires Reduced(hashes)
    ensures Unstuttered(hashes) == hashes
  {
    if |hashes| > 1 {
      ReducedFixed(hashes[..|hashes| - 1]);
      assert hashes[|hashes| - 1 - 1] != hashes[|hashes| - 1];
    }
  }

  lemma {:induction false} NoNeighboursLeft(hashes: seq<Hash>)
    ensures Reduced(Unstuttered(hashes))
  {
    if |hashes| > 1 {
      NoNeighboursLeft(hashes[..|hashes| - 1]);
      UnstutteredEnds(hashes[..|hashes| - 1]);
    }
  }

  /** What is left has no two equal neighbours and the same ends, and removing repeats again changes nothing. */
  lemma UnstutteredIsReduced(hashes: seq<Hash>)
    ensures Reduced(Unstuttered(hashes)) && Unstuttered(Unstuttered(hashes)) == Unstuttered(hashes)
    ensures hashes != [] ==>
              && Unstuttered(hashes) != [] && Unstuttered(hashes)[0] == hashes[0]
              && Unstuttered(hashes)[|Unstuttered(hashes)| - 1] == hashes[|hashes| - 1]
  {
    NoNeighboursLeft(hashes);
    ReducedFixed(Unstuttered(hashes));
    if hashes != [] {
      UnstutteredEnds(hashes);
    }
  }

  /* ---- What every store keeps ---- */

  function UpTo(n: nat): seq<nat> {
    seq(n, i => i + 1)
  }

  /** The rows of one document: its observations without repeats are its versions, numbered 1..n. */
  ghost predicate DocumentSound(s: Store, d: Url) {
    && VersionHashes(s.versions, d) == Unstuttered(ObservedHashes(s.observations, d))
    && VersionNumbers(s.versions, d) == UpTo(|VersionHashes(s.versions, d)|)
  }

  lemma {:induction false} LatestIsLast(versions: seq<Version>, d: Url)
    ensures |VersionHashes(versions, d)| == |VersionNumbers(versions, d)|
    ensures Latest(versions, d) == None <==> VersionHashes(versions, d) == []
    ensures Latest(versions, d).Some? ==>
              && Latest(versions, d).value in versions
              && Latest(versions, d).value.document == d
              && Latest(versions, d).value.hash == VersionHashes(versions, d)[|VersionHashes(versions, d)| - 1]
              && Latest(versions, d).value.number == VersionNumbers(versions, d)[|VersionHashes(versions, d)| - 1]
  {
    if versions != [] {
      LatestIsLast(versions[..|versions| - 1], d);
    }
  }

  lemma VersionAppended(versions: seq<Version>, v: Version, d: Url)
    ensures VersionHashes(versions + [v], d) == VersionHashes(versions, d) + (if v.document == d then [v.hash] else [])
    ensures VersionNumbers(versions + [v], d) == VersionNumbers(versions, d) + (if v.document == d then [v.number] else [])
  {
    assert (versions + [v])[..|versions|] == versions;
  }

  lemma ObservationAppended(observations: seq<Observation>, o: Observation, d: Url)
    ensures ObservedHashes(observations + [o], d)
         == ObservedHashes(observations, d) + (if o.document == d then [o.hash] else [])
  {
    assert (observations + [o])[..|observations|] == observations;
  }

  lemma UnstutteredAppend(seen: seq<Hash>, hash: Hash)
    ensures Unstuttered(seen + [hash]) ==
            if seen != [] && seen[|seen| - 1] == hash then Unstuttered(seen) else Unstuttered(seen) + [hash]
  {
    var all := seen + [hash];
    assert all[..|all| - 1] == seen;
    if seen == [] {
      assert all == [hash];
    }
  }

  /** The columns of one document's rows, as `DocumentSound` relates them. */
  ghost predicate ColumnsSound(versionHashes: seq<Hash>, numbers: seq<nat>, observed: seq<Hash>) {
    versionHashes == Unstuttered(observed) && numbers == UpTo(|versionHashes|)
  }

  lemma ColumnsNext(versionHashes: seq<Hash>, numbers: seq<nat>, observed: seq<Hash>, hash: Hash)
    requires ColumnsSound(versionHashes, numbers, observed)
    ensures if observed != [] && versionHashes != [] && versionHashes[|versionHashes| - 1] == hash
            then ColumnsSound(versionHashes, numbers, observed + [hash])
            else ColumnsSound(versionHashes + [hash], numbers + [|numbers| + 1], observed + [hash])
  {
    UnstutteredAppend(observed, hash);
    if observed != [] {
      UnstutteredEnds(observed);
    }
  }

  lemma ChangedIff(s: Store, d: Url, hash: Hash)
    requires DocumentSound(s, d)
    ensures var hashes := VersionHashes(s.versions, d);
      && (Changed(s.versions, d, hash) <==> hashes == [] || hashes[|hashes| - 1] != hash)
      && LatestNumber(s.versions, d) == |VersionNumbers(s.versions, d)|
      && (hashes != [] ==> ObservedHashes(s.observations, d) != [])
  {
    LatestIsLast(s.versions, d);
  }

  lemma PersistKeepsOwn(s: Store, scan: Id, d: Url, hash: Hash, text: string)
    requires DocumentSound(s, d)
    ensures DocumentSound(Persist(s, scan, d, hash, text), d)
  {
    var s' := Persist(s, scan, d, hash, text);
    ChangedIff(s, d, hash);
    ColumnsNext(VersionHashes(s.versions, d), VersionNumbers(s.versions, d), ObservedHashes(s.observations, d), hash);
    ObservationAppended(s.observations, s'.observations[|s.observations|], d);
    if Changed(s.versions, d, hash) {
      VersionAppended(s.versions, s'.versions[|s.versions|], d);
    }
  }

  lemma PersistKeepsOther(s: Store, scan: Id, e: Url, hash: Hash, text: string, d: Url)
    requires e != d
    ensures var s' := Persist(s, scan, e, hash, text);
      && VersionHashes(s'.versions, d) == VersionHashes(s.versions, d)
      && VersionNumbers(s'.versions, d) == VersionNumbers(s.versions, d)
      && ObservedHashes(s'.observations, d) == ObservedHashes(s.observations, d)
  {
    var s' := Persist(s, scan, e, hash, text);
    ObservationAppended(s.observations, s'.observations[|s.observations|], d);
    assert ObservedHashes(s.observations, d) + [] == ObservedHashes(s.observations, d);
    if Changed(s.versions, e, hash) {
      VersionAppended(s.versions, s'.versions[|s.versions|], d);
      assert VersionHashes(s.versions, d) + [] == VersionHashes(s.versions, d);
      assert VersionNumbers(s.versions, d) + [] == VersionNumbers(s.versions, d);
    }
  }

  lemma PersistKeeps(s: Store, scan: Id, e: Url, hash: Hash, text: string, d: Url)
    requires DocumentSound(s, d)
    ensures DocumentSound(Persist(s, scan, e, hash, text), d)
  {
    if e == d {
      PersistKeepsOwn(s, scan, d, hash, text);
    } else {
      PersistKeepsOther(s, scan, e, hash, text, d);
    }
  }

  /** The latest row of a document is there for every fetch to point to. */
  ghost predicate Points(s: Store, o: Observation) {
    exists i :: 0 <= i < |s.versions| && s.versions[i].document == o.document
                && s.versions[i].number == o.version && s.versions[i].hash == o.hash
  }

  ghost predicate ObservationsPoint(s: Store) {
    forall j :: 0 <= j < |s.observations| ==> Points(s, s.observations[j])
  }

  lemma PointsStays(s: Store, s': Store, o: Observation)
    requires Points(s, o) && s.versions <= s'.versions
    ensures Points(s', o)
  {
    var i :| 0 <= i < |s.versions| && s.versions[i].document == o.document
             && s.versions[i].number == o.version && s.versions[i].hash == o.hash;
    assert s'.versions[i] == s.versions[i];
  }

  lemma NewObservationPoints(s: Store, scan: Id, d: Url, hash: Hash, text: string)
    ensures var s' := Persist(s, scan, d, hash, text); Points(s', s'.observations[|s.observations|])
  {
    var s' := Persist(s, scan, d, hash, text);
    if Changed(s.versions, d, hash) {
      assert s'.versions[|s.versions|].document == d;
    } else {
      LatestIsLast(s.versions, d);
      var i :| 0 <= i < |s.versions| && s.versions[i] == Latest(s.versions, d).value;
      assert s'.versions[i].document == d;
    }
  }

  lemma PersistPoints(s: Store, scan: Id, d: Url, hash: Hash, text: string)
    requires ObservationsPoint(s)
    ensures ObservationsPoint(Persist(s, scan, d, hash, text))
  {
    var s' := Persist(s, scan, d, hash, text);
    NewObservationPoints(s, scan, d, hash, text);
    forall j | 0 <= j < |s.observations|
      ensures Points(s', s'.observations[j])
    {
      PointsStays(s, s', s.observations[j]);
    }
  }

  /**
   For every document and any interleaving of fetches: the observations are exactly the committed
   fetches in order, the version hashes are those with consecutive repeats removed, and the
   version numbers are 1..n.
   */
  lemma {:induction false} VersionsAreUnstutteredFetches(fetches: seq<Fetch>, d: Url)
    ensures var s := Run(EMPTY, fetches);
      && ObservedHashes(s.observations, d) == FetchedHashes(fetches, d)
      && VersionHashes(s.versions, d) == Unstuttered(FetchedHashes(fetches, d))
      && VersionNumbers(s.versions, d) == UpTo(|VersionHashes(s.versions, d)|)
  {
    if fetches != [] {
      var before, f := fetches[..|fetches| - 1], fetches[|fetches| - 1];
      VersionsAreUnstutteredFetches(before, d);
      var s := Run(EMPTY, before);
      if !f.outcome.Aborted? {
        PersistKeeps(s, f.scan, f.document, f.hash, f.text, d);
        var s' := Apply(s, f);
        ObservationAppended(s.observations, s'.observations[|s.observations|], d);
      }
    }
  }

  /* ---- What the versions hold ---- */

  // What a version keeps of the fetch that stored it.
  datatype Content = Content(hash: Hash, text: string, scan: Id)

  function Contents(versions: seq<Version>, d: Url): seq<Content> {
    if versions == [] then [] else
    var last := versions[|versions| - 1];
    Contents(versions[..|versions| - 1], d) + (if last.document == d then [Content(last.hash, last.text, last.scan)] else [])
  }

  /** The committed fetches of a document whose hash differs from that of the committed fetch before. */
  function ChangingFetches(fetches: seq<Fetch>, d: Url): seq<Content> {
    if fetches == [] then [] else
    var (before, f) := (fetches[..|fetches| - 1], fetches[|fetches| - 1]);
    var seen := FetchedHashes(before, d);
    ChangingFetches(before, d)
    + if f.document == d && !f.outcome.Aborted? && (seen == [] || seen[|seen| - 1] != f.hash)
      then [Content(f.hash, f.text, f.scan)] else []
  }

  lemma ContentAppended(versions: seq<Version>, v: Version, d: Url)
    ensures Contents(versions + [v], d) == Contents(versions, d) + if v.document == d then [Content(v.hash, v.text, v.scan)] else []
  {
    assert (versions + [v])[..|versions|] == versions;
  }

  lemma ChangedIffHashDiffers(fetches: seq<Fetch>, d: Url, hash: Hash)
    ensures var seen := FetchedHashes(fetches, d);
      Changed(Run(EMPTY, fetches).versions, d, hash) <==> seen == [] || seen[|seen| - 1] != hash
  {
    var seen := FetchedHashes(fetches, d);
    VersionsAreUnstutteredFetches(fetches, d);
    LatestIsLast(Run(EMPTY, fetches).versions, d);
    if seen != [] {
      UnstutteredEnds(seen);
    }
  }

  /** Over every run the versions of a document hold hash, text and scan of exactly the fetches that changed it. */
  lemma {:induction false} VersionsHoldChangingFetches(fetches: seq<Fetch>, d: Url)
    ensures Contents(Run(EMPTY, fetches).versions, d) == ChangingFetches(fetches, d)
  {
    if fetches != [] {
      var (before, f) := (fetches[..|fetches| - 1], fetches[|fetches| - 1]);
      VersionsHoldChangingFetches(before, d);
      ChangedIffHashDiffers(before, f.document, f.hash);
      var s := Run(EMPTY, before);
      if !f.outcome.Aborted? && Changed(s.versions, f.document, f.hash) {
        ContentAppended(s.versions, Apply(s, f).versions[|s.versions|], d);
      } else {
        assert Contents(s.versions, d) + [] == Contents(s.versions, d);
      }
    }
  }

  /** Every observation points to a version of its own document with its own hash. */
  lemma {:induction false} EveryObservationPoints(fetches: seq<Fetch>)
    ensures ObservationsPoint(Run(EMPTY, fetches))
  {
    if fetches != [] {
      var before, f := fetches[..|fetches| - 1], fetches[|fetches| - 1];
      EveryObservationPoints(before);
      if !f.outcome.Aborted? {
        PersistPoints(Run(EMPTY, before), f.scan, f.document, f.hash, f.text);
      }
    }
  }

  /** Nothing already stored is ever altered or removed. */
  lemma {:induction false} StoreOnlyGrows(s: Store, fetches: seq<Fetch>)
    ensures s.versions <= Run(s, fetches).versions && s.observations <= Run(s, fetches).observations
    decreases |fetches|
  {
    if fetches != [] {
      StoreOnlyGrows(s, fetches[..|fetches| - 1]);
    }
  }

  /* ---- Conservation over a scan ---- */

  function ObservationsOf(observations: seq<Observation>, scan: Id): nat {
    if observations == [] then 0 else
    ObservationsOf(observations[..|observations| - 1], scan)
    + (if observations[|observations| - 1].scan == scan then 1 else 0)
  }

  function VersionsOf(versions: seq<Version>, scan: Id): nat {
    if versions == [] then 0 else
    VersionsOf(versions[..|versions| - 1], scan) + (if versions[|versions| - 1].scan == scan then 1 else 0)
  }

  // The counters a scan reports, and beside them the commits it was not told about.
  datatype Summary = Summary(discovered: nat, changed: nat, skipped: nat, lost: nat, lostChanges: nat)

  function Counted(c: Summary, outcome: Outcome, changed: bool): Summary {
    match outcome
    case Aborted => c
    case Committed =>
      c.(discovered := c.discovered + 1,
         changed := c.changed + (if changed then 1 else 0), skipped := c.skipped + (if changed then 0 else 1))
    case Unacknowledged => c.(lost := c.lost + 1, lostChanges := c.lostChanges + (if changed then 1 else 0))
  }

  function Summarized(s: Store, fetches: seq<Fetch>, scan: Id): Summary
    decreases |fetches|
  {
    if fetches == [] then Summary(0, 0, 0, 0, 0) else
    var before, f := fetches[..|fetches| - 1], fetches[|fetches| - 1];
    if f.scan == scan
    then Counted(Summarized(s, before, scan), f.outcome, Changed(Run(s, before).versions, f.document, f.hash))
    else Summarized(s, before, scan)
  }

  lemma CountsAppended(s: Store, v: Version, o: Observation, scan: Id)
    ensures VersionsOf(s.versions + [v], scan) == VersionsOf(s.versions, scan) + (if v.scan == scan then 1 else 0)
    ensures ObservationsOf(s.observations + [o], scan)
         == ObservationsOf(s.observations, scan) + (if o.scan == scan then 1 else 0)
  {
    assert (s.versions + [v])[..|s.versions|] == s.versions;
    assert (s.observations + [o])[..|s.observations|] == s.observations;
  }

  /** The counters of a scan against the numbers of observations and versions tagged with it. */
  ghost predicate Balanced(c: Summary, observations: nat, versions: nat) {
    && c.discovered == c.changed + c.skipped
    && observations == c.discovered + c.lost
    && versions == c.changed + c.lostChanges
    && c.lostChanges <= c.lost
  }

  ghost predicate Conserved(c: Summary, s: Store, scan: Id) {
    Balanced(c, ObservationsOf(s.observations, scan), VersionsOf(s.versions, scan))
  }

  lemma BalancedStep(c: Summary, observations: nat, versions: nat, outcome: Outcome, changed: bool)
    requires Balanced(c, observations, versions) && !outcome.Aborted?
    ensures Balanced(Counted(c, outcome, changed), observations + 1, versions + if changed then 1 else 0)
  {
  }

  lemma ApplyCounts(s: Store, f: Fetch, scan: Id)
    requires !f.outcome.Aborted?
    ensures var (s', mine) := (Apply(s, f), if f.scan == scan then 1 else 0);
      && ObservationsOf(s'.observations, scan) == ObservationsOf(s.observations, scan) + mine
      && VersionsOf(s'.versions, scan)
         == VersionsOf(s.versions, scan) + if Changed(s.versions, f.document, f.hash) then mine else 0
  {
    var number := LatestNumber(s.versions, f.document) + (if Changed(s.versions, f.document, f.hash) then 1 else 0);
    CountsAppended(s, Version(f.document, number, f.hash, f.text, f.scan),
                   Observation(f.scan, f.document, number, f.hash), scan);
  }

  lemma ConservedStep(c: Summary, s: Store, f: Fetch, scan: Id)
    requires Conserved(c, s, scan)
    ensures var c' := if f.scan == scan then Counted(c, f.outcome, Changed(s.versions, f.document, f.hash)) else c;
      Conserved(c', Apply(s, f), scan)
  {
    if !f.outcome.Aborted? {
      ApplyCounts(s, f, scan);
      if f.scan == scan {
        BalancedStep(c, ObservationsOf(s.observations, scan), VersionsOf(s.versions, scan), f.outcome,
                     Changed(s.versions, f.document, f.hash));
      }
    }
  }

  /**
   Whatever other scans do in between: discovered = changed + skipped, the observations tagged
   with a scan are those it counted plus those it was not told about, and likewise its versions.
   */
  lemma {:induction false} ScanConservation(s: Store, fetches: seq<Fetch>, scan: Id)
    requires ObservationsOf(s.observations, scan) == 0 && VersionsOf(s.versions, scan) == 0
    ensures Conserved(Summarized(s, fetches, scan), Run(s, fetches), scan)
    decreases |fetches|
  {
    if fetches != [] {
      var before, f := fetches[..|fetches| - 1], fetches[|fetches| - 1];
      ScanConservation(s, before, scan);
      ConservedStep(Summarized(s, before, scan), Run(s, before), f, scan);
    }
  }

  lemma {:induction false} LostCounts(s: Store, fetches: seq<Fetch>, scan: Id)
    ensures Summarized(s, fetches, scan).lost == 0 <==>
              forall i :: 0 <= i < |fetches| && fetches[i].scan == scan ==> !fetches[i].outcome.Unacknowledged?
    decreases |fetches|
  {
    if fetches != [] {
      LostCounts(s, fetches[..|fetches| - 1], scan);
    }
  }

  /** The count reported equals the observations stored iff every commit of the scan was acknowledged. */
  lemma ReportedIffAcknowledged(s: Store, fetches: seq<Fetch>, scan: Id)
    requires ObservationsOf(s.observations, scan) == 0 && VersionsOf(s.versions, scan) == 0
    ensures Summarized(s, fetches, scan).discovered == ObservationsOf(Run(s, fetches).observations, scan) <==>
              forall i :: 0 <= i < |fetches| && fetches[i].scan == scan ==> !fetches[i].outcome.Unacknowledged?
  {
    ScanConservation(s, fetches, scan);
    LostCounts(s, fetches, scan);
  }
}
