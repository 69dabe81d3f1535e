/**
 The guarantees of the refresh protocol, over every reachable state and every continuation.
 */
module IngestionTheorems {
  import opened IngestionProtocol
  import opened Leases
  import opened Options
  import opened IngestionInvariants

  ghost predicate Reachable(s: State) {
    exists now: Time, events: seq<Event> :: s == Execute(Initial(now), events)
  }

  lemma ReachableIsInvariant(s: State)
    requires Reachable(s)
    ensures Invariant(s)
  {
    var now: Time, events: seq<Event> :| s == Execute(Initial(now), events);
    ReachableInvariant(now, events);
  }

  /* ---- What a completed refresh means ---- */

  /**
   A completed row was served by one scan of its own source that started after the row was
   queued, no other row was served by that scan, and both carry the same counts.
   */
  lemma CompletedRefresh(s: State, k: RowKey)
    requires Reachable(s)
    requires k in s.db.rows && s.db.rows[k].status.Completed?
    ensures var row := s.db.rows[k];
      && row.scan.Some? && row.scan.value in s.db.scans && k.run in s.db.runs
      && (var scan := s.db.scans[row.scan.value];
          && scan.source == k.source
          && k.run < row.scan.value
          && s.db.runs[k.run].requestedAt <= scan.startedAt
          && row.startedAt == Some(scan.startedAt)
          && row.counts == scan.counts
          && !scan.status.Active())
      && forall l | l in s.db.rows && l != k :: s.db.rows[l].scan != row.scan
  {
    ReachableIsInvariant(s);
  }

  /** The only step that completes a row is the completion reported by the worker of its own scan. */
  lemma CompletedOnlyByItsScan(s: State, e: Event, k: RowKey)
    requires Reachable(s)
    requires k in Step(s, e).db.rows && Step(s, e).db.rows[k].status.Completed?
    requires k !in s.db.rows || !s.db.rows[k].status.Completed?
    ensures k in s.db.rows && s.db.rows[k].status.Running?
    ensures e.ScanCompleted? && e.token in s.workers
    ensures s.workers[e.token].phase == Scanning(s.workers[e.token].phase.scan)
    ensures s.db.rows[k].scan == Some(s.workers[e.token].phase.scan)
    ensures s.workers[e.token].source == k.source
    ensures Step(s, e).db.rows[k].counts == e.counts
  {
    if e.ScanFailed? && Enabled(s, e) {
      FailScanRowsOnly(s.db, s.workers[e.token].source, e.token, s.workers[e.token].KnownScan(), k);
    }
  }

  lemma FailScanRowsOnly(t: Tables, source: SourceId, token: Id, scan: Option<Id>, k: RowKey)
    requires scan.Some? ==> scan.value in t.scans
    ensures var t' := FailScan(t, source, token, scan);
      k in t'.rows ==> k in t.rows && (t'.rows[k] == t.rows[k] || t'.rows[k].status.Failed?)
  {
  }

  /* ---- Run status ---- */

  ghost predicate SomeStarted(rows: map<RowKey, Row>, run: Id) {
    exists k :: k in rows && k.run == run && !rows[k].status.Queued?
  }

  /** A run's stored status is decided by its rows, and each source has at most one active row. */
  lemma RunStatusFollowsRows(s: State, r: Id)
    requires Reachable(s)
    requires r in s.db.runs
    ensures var (status, rows) := (s.db.runs[r].status, s.db.rows);
      && HasRows(rows, r)
      && (status.Queued? <==> !SomeStarted(rows, r))
      && (status.Running? <==> SomeStarted(rows, r) && AnyActive(rows, r))
      && (status.Completed? <==> !AnyActive(rows, r) && AnyCompleted(rows, r))
      && (status.Failed? <==> !AnyActive(rows, r) && !AnyCompleted(rows, r))
  {
    ReachableIsInvariant(s);
    var rows := s.db.rows;
    var k :| k in rows && k.run == r;
    assert SomeStarted(rows, r) <==> !AllQueued(rows, r);
    if AllQueued(rows, r) {
      assert rows[k].status.Active();
    }
    if AnyCompleted(rows, r) {
      var c :| c in rows && c.run == r && rows[c].status.Completed?;
      assert SomeStarted(rows, r);
    }
    if !AnyActive(rows, r) {
      assert !rows[k].status.Active();
    }
  }

  lemma OneRefreshPerSource(s: State, k: RowKey, l: RowKey)
    requires Reachable(s)
    requires k in s.db.rows && l in s.db.rows && k.source == l.source
    requires s.db.rows[k].status.Active() && s.db.rows[l].status.Active()
    ensures k == l
  {
    ReachableIsInvariant(s);
  }

  ghost predicate EndedRowsKept(before: map<RowKey, Row>, after: map<RowKey, Row>) {
    forall k | k in before && !before[k].status.Active() :: k in after && after[k] == before[k]
  }

  ghost predicate EndedRunsKept(before: map<Id, Run>, after: map<Id, Run>) {
    forall r | r in before && !before[r].status.Active() :: r in after && after[r] == before[r]
  }

  lemma EnqueueKeepsEnded(t: Tables, target: Option<SourceId>, cooldown: int)
    requires RowsOwned(t.runs, t.rows) && t.nextId !in t.runs
    ensures EndedRowsKept(t.rows, Enqueue(t, target, cooldown).rows)
    ensures EndedRunsKept(t.runs, Enqueue(t, target, cooldown).runs)
  {
  }

  lemma StartScanKeepsEnded(t: Tables, source: SourceId)
    ensures EndedRowsKept(t.rows, StartScan(t, source).rows)
    ensures EndedRunsKept(t.runs, StartScan(t, source).runs)
  {
  }

  lemma CompleteScanKeepsEnded(t: Tables, source: SourceId, interval: nat, token: Id, scan: Id, counts: Counts)
    requires scan in t.scans
    ensures EndedRowsKept(t.rows, CompleteScan(t, source, interval, token, scan, counts).rows)
    ensures EndedRunsKept(t.runs, CompleteScan(t, source, interval, token, scan, counts).runs)
  {
  }

  lemma FailScanKeepsEnded(t: Tables, source: SourceId, token: Id, scan: Option<Id>)
    requires scan.Some? ==> scan.value in t.scans
    ensures EndedRowsKept(t.rows, FailScan(t, source, token, scan).rows)
    ensures EndedRunsKept(t.runs, FailScan(t, source, token, scan).runs)
  {
  }

  lemma EndedStaysOneStep(s: State, e: Event)
    requires RowsOwned(s.db.runs, s.db.rows) && s.db.nextId !in s.db.runs
    ensures EndedRowsKept(s.db.rows, Step(s, e).db.rows)
    ensures EndedRunsKept(s.db.runs, Step(s, e).db.runs)
  {
    if Enabled(s, e) {
      match e
      case RefreshRequested(target, cooldown) => EnqueueKeepsEnded(s.db, target, cooldown);
      case ScanStarted(token, _) => StartScanKeepsEnded(s.db, s.workers[token].source);
      case ScanCompleted(token, counts, _) =>
        var w := s.workers[token];
        CompleteScanKeepsEnded(s.db, w.source, w.interval, token, w.phase.scan, counts);
      case ScanFailed(token) =>
        FailScanKeepsEnded(s.db, s.workers[token].source, token, s.workers[token].KnownScan());
      case _ =>
    }
  }

  /** Ended rows and ended runs never change again, whatever happens afterwards. */
  lemma {:induction false} EndedNeverChanges(s: State, events: seq<Event>)
    requires Invariant(s)
    ensures Invariant(Execute(s, events))
    ensures EndedRowsKept(s.db.rows, Execute(s, events).db.rows)
    ensures EndedRunsKept(s.db.runs, Execute(s, events).db.runs)
    decreases |events|
  {
    if events != [] {
      var before := events[..|events| - 1];
      EndedNeverChanges(s, before);
      StepKeeps(Execute(s, before), events[|events| - 1]);
      EndedStaysOneStep(Execute(s, before), events[|events| - 1]);
    }
  }

  /* ---- Leases ---- */

  /** Two workers never both hold an unexpired lease on one source. */
  lemma LeaseExclusive(s: State, t: Id, u: Id)
    requires Reachable(s)
    requires t in s.workers && u in s.workers && s.workers[t].source == s.workers[u].source
    requires Holds(s.workers[t], s.db.now) && Holds(s.workers[u], s.db.now)
    ensures t == u
  {
    ReachableIsInvariant(s);
  }

  /**
   A job changes only when it is rescheduled earlier, claimed while nobody holds an unexpired
   lease, or released by the worker whose token is stored; so a worker whose token is no
   longer stored changes neither schedule nor lease.
   */
  lemma JobChangesOnlyByHolder(s: State, e: Event, x: SourceId)
    requires Invariant(s)
    requires x in s.db.jobs
    ensures x in Step(s, e).db.jobs
    ensures var (job, job') := (s.db.jobs[x], Step(s, e).db.jobs[x]);
      || job' == job
      || ((e.SourceTouched? || e.RefreshRequested?) && job' == job.(runAfter := job'.runAfter) && job'.runAfter < job.runAfter)
      || (e == JobClaimed(x) && Unleased(job, s.db.now) && job.runAfter <= s.db.now)
      || (e.ScanCompleted? && Leased(s.db.jobs, x, e.token))
      || (e.ScanFailed? && Leased(s.db.jobs, x, e.token))
  {
    if e.ScanFailed? && Enabled(s, e) {
      FailScanJobs(s.db, s.workers[e.token].source, e.token, s.workers[e.token].KnownScan());
    }
  }

  lemma FailScanJobs(t: Tables, source: SourceId, token: Id, scan: Option<Id>)
    requires scan.Some? ==> scan.value in t.scans
    ensures FailScan(t, source, token, scan).jobs.Keys == t.jobs.Keys
    ensures forall x | x in t.jobs :: FailScan(t, source, token, scan).jobs[x] != t.jobs[x] ==> Leased(t.jobs, x, token)
  {
  }

  /** Schedules stay within the longest interval the source has had, or the longest retry delay, of the clock. */
  lemma SchedulesBounded(s: State, x: SourceId)
    requires Reachable(s)
    requires x in s.db.jobs
    ensures x in s.db.sources
    ensures s.db.jobs[x].runAfter <= s.db.now + Max(s.db.sources[x].longest, 3600)
    ensures s.db.jobs[x].lease.Some? ==> s.db.jobs[x].lease.value.until <= s.db.now + 600
  {
    ReachableIsInvariant(s);
  }

  /** No job is lost: if nothing happens for long enough, an active source can be claimed again. */
  lemma EveryJobComesBack(s: State, x: SourceId, seconds: nat)
    requires Reachable(s)
    requires x in s.db.sources && s.db.sources[x].isActive
    requires seconds > Max(s.db.sources[x].longest, 3600)
    ensures Due(Step(s, Tick(seconds)).db, x)
  {
    ReachableIsInvariant(s);
  }

  /* ---- What the protocol does not promise ---- */

  /** A running row whose scan no worker knows about. */
  ghost predicate Stuck(s: State, k: RowKey) {
    && k in s.db.rows
    && s.db.rows[k].status.Running?
    && s.db.rows[k].scan.Some?
    && forall t | t in s.workers :: s.workers[t].KnownScan() != s.db.rows[k].scan
  }

  lemma OtherScanCompletes(t: Tables, source: SourceId, interval: nat, token: Id, scan: Id, counts: Counts, k: RowKey)
    requires scan in t.scans && k in t.rows && t.rows[k].scan != Some(scan)
    ensures var t' := CompleteScan(t, source, interval, token, scan, counts);
      k in t'.rows && t'.rows[k] == t.rows[k]
  {
  }

  lemma OtherScanFails(t: Tables, source: SourceId, token: Id, scan: Option<Id>, k: RowKey)
    requires scan.Some? ==> scan.value in t.scans
    requires k in t.rows && t.rows[k].scan.Some? && t.rows[k].scan != scan
    ensures var t' := FailScan(t, source, token, scan);
      k in t'.rows && t'.rows[k] == t.rows[k]
  {
  }

  lemma RequestKeepsRow(t: Tables, target: Option<SourceId>, cooldown: int, k: RowKey)
    requires RowsOwned(t.runs, t.rows) && t.nextId !in t.runs && k in t.rows
    ensures var t' := Enqueue(t, target, cooldown); k in t'.rows && t'.rows[k] == t.rows[k]
  {
  }

  lemma StartKeepsRunningRow(t: Tables, source: SourceId, k: RowKey)
    requires k in t.rows && t.rows[k].status.Running?
    ensures var t' := StartScan(t, source); k in t'.rows && t'.rows[k] == t.rows[k]
  {
  }

  lemma StuckRowStays(s: State, e: Event, k: RowKey)
    requires RowsOwned(s.db.runs, s.db.rows) && s.db.nextId !in s.db.runs && Stuck(s, k)
    ensures k in Step(s, e).db.rows && Step(s, e).db.rows[k] == s.db.rows[k]
  {
    if Enabled(s, e) {
      match e
      case RefreshRequested(target, cooldown) => RequestKeepsRow(s.db, target, cooldown, k);
      case ScanStarted(token, _) => StartKeepsRunningRow(s.db, s.workers[token].source, k);
      case ScanCompleted(token, counts, _) =>
        var w := s.workers[token];
        assert w.KnownScan() != s.db.rows[k].scan;
        OtherScanCompletes(s.db, w.source, w.interval, token, w.phase.scan, counts, k);
      case ScanFailed(token) =>
        assert s.workers[token].KnownScan() != s.db.rows[k].scan;
        OtherScanFails(s.db, s.workers[token].source, token, s.workers[token].KnownScan(), k);
      case _ =>
    }
  }

  lemma NobodyLearns(s: State, e: Event, scan: Id)
    requires scan < s.db.nextId && forall t | t in s.workers :: s.workers[t].KnownScan() != Some(scan)
    ensures forall t | t in Step(s, e).workers :: Step(s, e).workers[t].KnownScan() != Some(scan)
  {
  }

  lemma StuckOneStep(s: State, e: Event, k: RowKey)
    requires Invariant(s) && Stuck(s, k)
    ensures Stuck(Step(s, e), k)
    ensures Step(s, e).db.rows[k] == s.db.rows[k]
  {
    var scan := s.db.rows[k].scan.value;
    assert Serves(k, s.db.rows[k], s.db.runs[k.run].requestedAt, scan, s.db.scans);
    StuckRowStays(s, e, k);
    NobodyLearns(s, e, scan);
  }

  lemma StuckRefuses(t: Tables, k: RowKey, target: Option<SourceId>, cooldown: int)
    requires k in t.rows && t.rows[k].status.Running? && k.source in Targets(t, target)
    ensures EnqueueRefusal(t, target, cooldown).Some?
  {
  }

  /**
   Such a row runs for ever, and from then on every refresh request that covers its source
   is refused.
   */
  lemma {:induction false} StuckForever(s: State, k: RowKey, events: seq<Event>, target: Option<SourceId>, cooldown: int)
    requires Invariant(s) && Stuck(s, k)
    ensures Invariant(Execute(s, events)) && Stuck(Execute(s, events), k)
    ensures k.source in Targets(Execute(s, events).db, target) ==>
              EnqueueRefusal(Execute(s, events).db, target, cooldown).Some?
    decreases |events|
  {
    if events != [] {
      var before := events[..|events| - 1];
      StuckForever(s, k, before, target, cooldown);
      StepKeeps(Execute(s, before), events[|events| - 1]);
      StuckOneStep(Execute(s, before), events[|events| - 1], k);
    }
    if k.source in Targets(Execute(s, events).db, target) {
      StuckRefuses(Execute(s, events).db, k, target, cooldown);
    }
  }

  lemma ServedRowCompletes(t: Tables, source: SourceId, interval: nat, token: Id, scan: Id, counts: Counts, k: RowKey)
    requires scan in t.scans && k in t.rows && ServedBy(k, t.rows[k], source, scan)
    ensures var t' := CompleteScan(t, source, interval, token, scan, counts);
      k in t'.rows && !t'.rows[k].status.Active()
  {
  }

  /** A worker that knows the scan of a running row is the one scanning for it. */
  lemma KnownIsScanning(s: State, k: RowKey, t: Id)
    requires Invariant(s) && k in s.db.rows && s.db.rows[k].status.Running?
    requires t in s.workers && s.workers[t].KnownScan().Some? && s.workers[t].KnownScan() == s.db.rows[k].scan
    ensures s.workers[t].phase.Scanning? && s.workers[t].phase.scan in s.db.scans && s.workers[t].source == k.source
  {
    assert Serves(k, s.db.rows[k], s.db.runs[k.run].requestedAt, s.db.rows[k].scan.value, s.db.scans);
    assert Knows(s.workers[t], s.db.scans);
  }

  /** The completion reported by the worker that knows the scan ends the row. */
  lemma KnownRowEnds(s: State, k: RowKey, t: Id)
    requires Invariant(s) && k in s.db.rows && s.db.rows[k].status.Running?
    requires t in s.workers && s.workers[t].KnownScan().Some? && s.workers[t].KnownScan() == s.db.rows[k].scan
    ensures EndsAfter(s, k, [ScanCompleted(t, NO_COUNTS, true)])
  {
    KnownIsScanning(s, k, t);
    var w := s.workers[t];
    ServedRowCompletes(s.db, w.source, w.interval, t, w.phase.scan, NO_COUNTS, k);
    ExecuteOne(s, ScanCompleted(t, NO_COUNTS, true));
  }

  lemma ExecuteOne(s: State, e: Event)
    ensures Execute(s, [e]) == Step(s, e)
  {
    assert [e][..0] == [] && Execute(s, []) == s;
  }

  ghost predicate EndsAfter(s: State, k: RowKey, events: seq<Event>) {
    k in Execute(s, events).db.rows && !Execute(s, events).db.rows[k].status.Active()
  }

  /** A running row can still end iff some worker knows the scan that serves it. */
  lemma RunningRowEndsIff(s: State, k: RowKey)
    requires Invariant(s) && k in s.db.rows && s.db.rows[k].status.Running?
    ensures (exists events :: EndsAfter(s, k, events)) <==>
            exists t :: t in s.workers && s.workers[t].KnownScan() == s.db.rows[k].scan
  {
    RunningRowHasScan(s, k);
    if t :| t in s.workers && s.workers[t].KnownScan() == s.db.rows[k].scan {
      KnownRowEnds(s, k, t);
    } else {
      assert Stuck(s, k);
      forall events
        ensures !EndsAfter(s, k, events)
      {
        StuckForever(s, k, events, None, 0);
      }
    }
  }

  lemma RunningRowHasScan(s: State, k: RowKey)
    requires Invariant(s) && k in s.db.rows && s.db.rows[k].status.Running?
    ensures s.db.rows[k].scan.Some?
  {
  }

  /** A scan row, once created, changes only by its own worker's completion or failure. */
  lemma ScanChanges(s: State, e: Event, scan: Id)
    requires scan in s.db.scans && scan < s.db.nextId
    ensures scan in Step(s, e).db.scans
    ensures Step(s, e).db.scans[scan] == s.db.scans[scan]
         || (e.ScanCompleted? && e.token in s.workers && s.workers[e.token].phase == Scanning(scan))
         || (e.ScanFailed? && e.token in s.workers && s.workers[e.token].KnownScan() == Some(scan)
             && !FailRaises(s.db, s.workers[e.token].source, e.token)
             && Step(s, e).db.scans[scan].status.Failed?)
  {
  }

  lemma FailureReaches(s: State, token: Id, scan: Id)
    requires scan in s.db.scans && token in s.workers && s.workers[token].phase == Reported(scan)
    requires !FailRaises(s.db, s.workers[token].source, token)
    ensures Step(s, ScanFailed(token)).db.scans[scan].status.Failed?
  {
  }

  /**
   A scan that completed is later marked failed exactly when its completion was committed but
   not acknowledged and its worker then reports failure; the refresh row keeps its completion.
   */
  lemma CompletedScanFailsIff(s: State, e: Event, k: RowKey)
    requires Reachable(s)
    requires k in s.db.rows && s.db.rows[k].status.Completed?
    requires s.db.rows[k].scan.Some? && s.db.rows[k].scan.value in s.db.scans
    requires s.db.scans[s.db.rows[k].scan.value].status.Completed?
    ensures k in Step(s, e).db.rows && Step(s, e).db.rows[k] == s.db.rows[k]
    ensures s.db.rows[k].scan.value in Step(s, e).db.scans
    ensures !Step(s, e).db.scans[s.db.rows[k].scan.value].status.Completed? <==>
              && e.ScanFailed? && e.token in s.workers
              && s.workers[e.token].phase == Reported(s.db.rows[k].scan.value)
              && !FailRaises(s.db, s.workers[e.token].source, e.token)
  {
    ReachableIsInvariant(s);
    EndedStaysOneStep(s, e);
    var scan := s.db.rows[k].scan.value;
    ScanChanges(s, e, scan);
    forall t | t in s.workers && s.workers[t].KnownScan() == Some(scan)
      ensures s.workers[t].phase == Reported(scan)
    {
      assert Knows(s.workers[t], s.db.scans);
    }
    if e.ScanFailed? && e.token in s.workers && s.workers[e.token].phase == Reported(scan)
       && !FailRaises(s.db, s.workers[e.token].source, e.token) {
      FailureReaches(s, e.token, scan);
    }
  }

  ghost predicate Acknowledged(e: Event) {
    e.ScanCompleted? ==> e.acknowledged
  }

  /** Every started row has the status of the scan that serves it. */
  ghost predicate StatusesAgree(s: State) {
    && (forall t | t in s.workers :: !s.workers[t].phase.Reported?)
    && (forall k | k in s.db.rows && s.db.rows[k].scan.Some? ::
          && s.db.rows[k].scan.value in s.db.scans
          && s.db.rows[k].status == s.db.scans[s.db.rows[k].scan.value].status)
  }

  lemma ReportedStaysAway(s: State, e: Event)
    requires Acknowledged(e)
    requires forall t | t in s.workers :: !s.workers[t].phase.Reported?
    ensures forall t | t in Step(s, e).workers :: !Step(s, e).workers[t].phase.Reported?
  {
  }

  /** The scan of a completed row stays completed while no worker knows it. */
  lemma CompletedScanStays(s: State, e: Event, k: RowKey)
    requires Invariant(s) && StatusesAgree(s)
    requires k in s.db.rows && s.db.rows[k].status.Completed? && s.db.rows[k].scan.Some?
    ensures var scan := s.db.rows[k].scan.value;
      scan in Step(s, e).db.scans && Step(s, e).db.scans[scan].status.Completed?
  {
    var scan := s.db.rows[k].scan.value;
    assert Serves(k, s.db.rows[k], s.db.runs[k.run].requestedAt, scan, s.db.scans);
    ScanChanges(s, e, scan);
    forall t | t in s.workers
      ensures s.workers[t].KnownScan() != Some(scan)
    {
      assert Knows(s.workers[t], s.db.scans);
    }
  }

  /** With acknowledged completions so far, the scan of a completed row is completed. */
  lemma AgreeingRow(s: State, e: Event, k: RowKey)
    requires Invariant(s) && StatusesAgree(s)
    requires k in Step(s, e).db.rows && Step(s, e).db.rows[k].status.Completed?
    ensures var row := Step(s, e).db.rows[k];
      row.scan.Some? && row.scan.value in Step(s, e).db.scans && Step(s, e).db.scans[row.scan.value].status.Completed?
  {
    if k in s.db.rows && s.db.rows[k].status.Completed? {
      EndedStaysOneStep(s, e);
      CompletedRowHasScan(s, k);
      CompletedScanStays(s, e, k);
    } else {
      NewlyCompleted(s, e, k);
    }
  }

  lemma CompletedRowHasScan(s: State, k: RowKey)
    requires Invariant(s) && k in s.db.rows && s.db.rows[k].status.Completed?
    ensures s.db.rows[k].scan.Some?
  {
  }

  lemma NewlyCompleted(s: State, e: Event, k: RowKey)
    requires k in Step(s, e).db.rows && Step(s, e).db.rows[k].status.Completed?
    requires k !in s.db.rows || !s.db.rows[k].status.Completed?
    ensures e.ScanCompleted? && e.token in s.workers && s.workers[e.token].phase.Scanning?
    ensures Step(s, e).db.rows[k].scan == Some(s.workers[e.token].phase.scan)
    ensures s.workers[e.token].phase.scan in Step(s, e).db.scans
    ensures Step(s, e).db.scans[s.workers[e.token].phase.scan].status.Completed?
  {
    if e.ScanFailed? && Enabled(s, e) {
      FailScanRowsOnly(s.db, s.workers[e.token].source, e.token, s.workers[e.token].KnownScan(), k);
    }
  }

  lemma StatusesAgreeOneStep(s: State, e: Event)
    requires Invariant(s) && StatusesAgree(s) && Acknowledged(e)
    ensures StatusesAgree(Step(s, e))
  {
    StepKeeps(s, e);
    ReportedStaysAway(s, e);
    var s' := Step(s, e);
    forall k | k in s'.db.rows && s'.db.rows[k].scan.Some?
      ensures s'.db.rows[k].scan.value in s'.db.scans
      ensures s'.db.rows[k].status == s'.db.scans[s'.db.rows[k].scan.value].status
    {
      assert Serves(k, s'.db.rows[k], s'.db.runs[k.run].requestedAt, s'.db.rows[k].scan.value, s'.db.scans);
      if s'.db.rows[k].status.Completed? {
        AgreeingRow(s, e, k);
      }
    }
  }

  /** If every committed completion is acknowledged, each started row has the status of its scan. */
  lemma {:induction false} AcknowledgedRunsAgree(now: Time, events: seq<Event>)
    requires forall i | 0 <= i < |events| :: Acknowledged(events[i])
    ensures StatusesAgree(Execute(Initial(now), events))
    decreases |events|
  {
    if events != [] {
      var before := events[..|events| - 1];
      AcknowledgedRunsAgree(now, before);
      ReachableInvariant(now, before);
      StatusesAgreeOneStep(Execute(Initial(now), before), events[|events| - 1]);
    }
  }
}
