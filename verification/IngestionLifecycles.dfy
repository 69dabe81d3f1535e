/**
 The life of one refresh row, one scan and one run, step by step: which events change it, and to
 what.  Together with the theorem that ended rows and runs never change these cover every step.
 */
module IngestionLifecycles {
  import opened IngestionProtocol
  import opened IngestionInvariants
  import opened IngestionTheorems
  import opened Leases
  import opened Options

  /* ---- Events as one source and one scan see them ---- */

  predicate Starts(s: State, e: Event, source: SourceId) {
    e.ScanStarted? && e.token in s.workers && s.workers[e.token].phase.Claimed? && s.workers[e.token].source == source
  }

  predicate Completes(s: State, e: Event, scan: Id) {
    e.ScanCompleted? && e.token in s.workers && s.workers[e.token].phase == Scanning(scan)
  }

  /** Reports a failure of the scan, and the transaction does not raise. */
  predicate Fails(s: State, e: Event, scan: Id) {
    && e.ScanFailed? && e.token in s.workers && s.workers[e.token].KnownScan() == Some(scan)
    && !FailRaises(s.db, s.workers[e.token].source, e.token)
  }

  /** The tables of a refresh after an event, by the transaction that the event is. */
  lemma RefreshTables(s: State, e: Event)
    ensures var (t, t') := (s.db, Step(s, e).db);
      if !Enabled(s, e) then t' == t
      else match e
        case RefreshRequested(target, cooldown) => t' == Enqueue(t, target, cooldown)
        case ScanStarted(token, _) => t' == StartScan(t, s.workers[token].source)
        case ScanCompleted(token, counts, _) =>
          var w := s.workers[token]; t' == CompleteScan(t, w.source, w.interval, token, w.phase.scan, counts)
        case ScanFailed(token) => t' == FailScan(t, s.workers[token].source, token, s.workers[token].KnownScan())
        case _ => t'.rows == t.rows && t'.scans == t.scans && t'.runs == t.runs
  {
  }

  /* ---- Rows ---- */

  lemma StartRow(t: Tables, source: SourceId, k: RowKey)
    requires k in t.rows && t.rows[k].status.Queued?
    ensures var t' := StartScan(t, source);
      && k in t'.rows
      && t'.rows[k] == if k.source == source
                       then t.rows[k].(status := Running, startedAt := Some(t.now), scan := Some(t.nextId)) else t.rows[k]
  {
  }

  lemma RequestKeepsOldRow(t: Tables, target: Option<SourceId>, cooldown: int, k: RowKey)
    requires RowsOwned(t.runs, t.rows) && t.nextId !in t.runs && k in t.rows
    ensures var t' := Enqueue(t, target, cooldown); k in t'.rows && t'.rows[k] == t.rows[k]
  {
  }

  /** What of the invariant the life of a row needs. */
  ghost predicate RowTracked(s: State, k: RowKey) {
    && RowsOwned(s.db.runs, s.db.rows) && s.db.nextId !in s.db.runs && k in s.db.rows
    && (s.db.rows[k].status.Queued? ==> s.db.rows[k].scan == None)
    && (s.db.rows[k].status.Running? ==> s.db.rows[k].scan.Some?)
    && (forall t :: t in s.workers && s.workers[t].KnownScan().Some? && s.workers[t].KnownScan() == s.db.rows[k].scan ==>
          s.workers[t].source == k.source)
  }

  lemma InvariantTracks(s: State, k: RowKey)
    requires Invariant(s) && k in s.db.rows
    ensures RowTracked(s, k)
  {
    assert s.db.rows[k].scan.Some? ==>
        Serves(k, s.db.rows[k], s.db.runs[k.run].requestedAt, s.db.rows[k].scan.value, s.db.scans);
    forall t | t in s.workers && s.workers[t].KnownScan().Some? && s.workers[t].KnownScan() == s.db.rows[k].scan
      ensures s.workers[t].source == k.source
    {
      assert Knows(s.workers[t], s.db.scans);
    }
  }

  lemma CompleteLeavesRow(t: Tables, w: Worker, token: Id, scan: Id, counts: Counts, k: RowKey)
    requires scan in t.scans && k in t.rows && !ServedBy(k, t.rows[k], w.source, scan)
    ensures var t' := CompleteScan(t, w.source, w.interval, token, scan, counts); k in t'.rows && t'.rows[k] == t.rows[k]
  {
  }

  lemma FailLeavesRow(t: Tables, source: SourceId, token: Id, scan: Option<Id>, k: RowKey)
    requires scan.Some? ==> scan.value in t.scans
    requires k in t.rows && (scan == None || FailRaises(t, source, token) || !ServedBy(k, t.rows[k], source, scan.value))
    ensures var t' := FailScan(t, source, token, scan); k in t'.rows && t'.rows[k] == t.rows[k]
  {
  }

  lemma QueuedRowStep(s: State, e: Event, k: RowKey)
    requires RowTracked(s, k) && s.db.rows[k].status.Queued?
    ensures var (row, rows') := (s.db.rows[k], Step(s, e).db.rows);
      && k in rows'
      && rows'[k] == if Starts(s, e, k.source)
                     then row.(status := Running, startedAt := Some(s.db.now), scan := Some(s.db.nextId)) else row
  {
    RefreshTables(s, e);
    if Enabled(s, e) {
      match e
      case RefreshRequested(target, cooldown) => RequestKeepsOldRow(s.db, target, cooldown, k);
      case ScanStarted(token, _) => StartRow(s.db, s.workers[token].source, k);
      case ScanCompleted(token, counts, _) =>
        CompleteLeavesRow(s.db, s.workers[token], token, s.workers[token].phase.scan, counts, k);
      case ScanFailed(token) => FailLeavesRow(s.db, s.workers[token].source, token, s.workers[token].KnownScan(), k);
      case _ =>
    }
  }

  /** A queued row waits for the next scan of its source, and that scan serves it. */
  lemma QueuedRowLife(s: State, e: Event, k: RowKey)
    requires Invariant(s) && k in s.db.rows && s.db.rows[k].status.Queued?
    ensures var (row, rows') := (s.db.rows[k], Step(s, e).db.rows);
      && k in rows'
      && rows'[k] == if Starts(s, e, k.source)
                     then row.(status := Running, startedAt := Some(s.db.now), scan := Some(s.db.nextId)) else row
  {
    InvariantTracks(s, k);
    QueuedRowStep(s, e, k);
  }

  lemma CompleteRow(t: Tables, w: Worker, token: Id, scan: Id, counts: Counts, k: RowKey)
    requires scan in t.scans && k in t.rows && ServedBy(k, t.rows[k], w.source, scan)
    ensures var t' := CompleteScan(t, w.source, w.interval, token, scan, counts);
      k in t'.rows && t'.rows[k] == t.rows[k].(status := Completed, completedAt := Some(t.now), counts := counts)
  {
  }

  lemma FailRow(t: Tables, source: SourceId, token: Id, scan: Id, k: RowKey)
    requires scan in t.scans && k in t.rows && ServedBy(k, t.rows[k], source, scan) && !FailRaises(t, source, token)
    ensures var t' := FailScan(t, source, token, Some(scan));
      k in t'.rows && t'.rows[k] == t.rows[k].(status := Failed, completedAt := Some(t.now))
  {
  }

  lemma RunningRowCompletion(s: State, token: Id, counts: Counts, k: RowKey)
    requires RowTracked(s, k) && s.db.rows[k].status.Running?
    requires Enabled(s, ScanCompleted(token, counts, true))
    ensures var (w, row) := (s.workers[token], s.db.rows[k]);
      var rows' := CompleteScan(s.db, w.source, w.interval, token, w.phase.scan, counts).rows;
      && k in rows'
      && rows'[k] == if w.phase == Scanning(row.scan.value)
                     then row.(status := Completed, completedAt := Some(s.db.now), counts := counts) else row
  {
    var (w, row) := (s.workers[token], s.db.rows[k]);
    if w.phase.scan == row.scan.value {
      CompleteRow(s.db, w, token, w.phase.scan, counts, k);
    } else {
      CompleteLeavesRow(s.db, w, token, w.phase.scan, counts, k);
    }
  }

  lemma RunningRowFailure(s: State, token: Id, k: RowKey)
    requires RowTracked(s, k) && s.db.rows[k].status.Running?
    requires Enabled(s, ScanFailed(token))
    ensures var (w, row) := (s.workers[token], s.db.rows[k]);
      var rows' := FailScan(s.db, w.source, token, w.KnownScan()).rows;
      && k in rows'
      && rows'[k] == if w.KnownScan() == row.scan && !FailRaises(s.db, w.source, token)
                     then row.(status := Failed, completedAt := Some(s.db.now)) else row
  {
    var (w, row) := (s.workers[token], s.db.rows[k]);
    if w.KnownScan() == row.scan && !FailRaises(s.db, w.source, token) {
      FailRow(s.db, w.source, token, row.scan.value, k);
    } else {
      FailLeavesRow(s.db, w.source, token, w.KnownScan(), k);
    }
  }

  lemma RunningRowStep(s: State, e: Event, k: RowKey)
    requires RowTracked(s, k) && s.db.rows[k].status.Running?
    ensures var (row, scan, rows') := (s.db.rows[k], s.db.rows[k].scan.value, Step(s, e).db.rows);
      && k in rows'
      && rows'[k] == if Completes(s, e, scan) && Enabled(s, e)
                     then row.(status := Completed, completedAt := Some(s.db.now), counts := e.counts)
                     else if Fails(s, e, scan) && Enabled(s, e) then row.(status := Failed, completedAt := Some(s.db.now))
                     else row
  {
    RefreshTables(s, e);
    if Enabled(s, e) {
      match e
      case RefreshRequested(target, cooldown) => RequestKeepsOldRow(s.db, target, cooldown, k);
      case ScanStarted(token, _) => StartKeepsRunningRow(s.db, s.workers[token].source, k);
      case ScanCompleted(token, counts, _) => RunningRowCompletion(s, token, counts, k);
      case ScanFailed(token) => RunningRowFailure(s, token, k);
      case _ =>
    }
  }

  lemma ReportsAreEnabled(s: State, e: Event, scan: Id)
    requires Invariant(s) && (Completes(s, e, scan) || Fails(s, e, scan))
    ensures Enabled(s, e)
  {
    assert Knows(s.workers[e.token], s.db.scans);
  }

  /** A running row ends with the report of its scan's worker: completed with the counts reported, or failed. */
  lemma RunningRowLife(s: State, e: Event, k: RowKey)
    requires Invariant(s) && k in s.db.rows && s.db.rows[k].status.Running? && s.db.rows[k].scan.Some?
    ensures var (row, scan, rows') := (s.db.rows[k], s.db.rows[k].scan.value, Step(s, e).db.rows);
      && k in rows'
      && rows'[k] == if Completes(s, e, scan)
                     then row.(status := Completed, completedAt := Some(s.db.now), counts := e.counts)
                     else if Fails(s, e, scan) then row.(status := Failed, completedAt := Some(s.db.now))
                     else row
  {
    InvariantTracks(s, k);
    var scan := s.db.rows[k].scan.value;
    if Completes(s, e, scan) || Fails(s, e, scan) {
      ReportsAreEnabled(s, e, scan);
    }
    RunningRowStep(s, e, k);
  }

  /* ---- Scans ---- */

  /** A scan row changes only by the reports of its own worker, and then to what they say. */
  lemma ScanLife(s: State, e: Event, scan: Id)
    requires Invariant(s) && scan in s.db.scans
    ensures var (row, scans') := (s.db.scans[scan], Step(s, e).db.scans);
      && scan in scans'
      && scans'[scan] == if Completes(s, e, scan)
                         then row.(status := Completed, completedAt := Some(s.db.now), counts := e.counts)
                         else if Fails(s, e, scan) then row.(status := Failed, completedAt := Some(s.db.now))
                         else row
  {
    if e.ScanFailed? && Enabled(s, e) {
      FailScanScans(s.db, s.workers[e.token].source, e.token, s.workers[e.token].KnownScan());
    }
  }

  lemma FailScanScans(t: Tables, source: SourceId, token: Id, scan: Option<Id>)
    requires scan.Some? ==> scan.value in t.scans
    ensures FailScan(t, source, token, scan).scans ==
            if scan == None || FailRaises(t, source, token) then t.scans
            else t.scans[scan.value := t.scans[scan.value].(status := Failed, completedAt := Some(t.now))]
  {
  }

  /** A new scan row is the running scan that its worker has just started, and the worker learns of it or not. */
  lemma ScanBorn(s: State, e: Event, scan: Id)
    requires Invariant(s) && scan !in s.db.scans
    ensures scan in Step(s, e).db.scans <==> e.ScanStarted? && Enabled(s, e) && scan == s.db.nextId
    ensures scan in Step(s, e).db.scans ==>
              && Step(s, e).db.scans[scan] == Scan(s.workers[e.token].source, Running, s.db.now, None, NO_COUNTS)
              && Step(s, e).workers[e.token].phase == if e.acknowledged then Scanning(scan) else Orphaned
  {
    if e.ScanFailed? && Enabled(s, e) {
      FailScanScans(s.db, s.workers[e.token].source, e.token, s.workers[e.token].KnownScan());
    }
  }

  /* ---- Runs ---- */

  /** A run starts and ends at the instants at which its status says so, and keeps its request time. */
  ghost predicate RunMoved(before: Run, after: Run, now: Time) {
    && after.requestedAt == before.requestedAt
    && after.startedAt == (if before.status.Queued? && after.status.Running? && before.startedAt == None then Some(now)
                           else before.startedAt)
    && after.completedAt == if before.status.Active() && !after.status.Active() then Some(now) else before.completedAt
  }

  lemma ClosingMoves(runs: map<Id, Run>, rows: map<RowKey, Row>, now: Time, r: Id)
    requires r in runs
    ensures r in ClosedRuns(runs, rows, now) && RunMoved(runs[r], ClosedRuns(runs, rows, now)[r], now)
  {
  }

  lemma FailScanRuns(t: Tables, source: SourceId, token: Id, scan: Option<Id>, r: Id)
    requires r in t.runs && (scan.Some? ==> scan.value in t.scans)
    ensures var t' := FailScan(t, source, token, scan); r in t'.runs && RunMoved(t.runs[r], t'.runs[r], t.now)
  {
    if scan.Some? && !FailRaises(t, source, token) {
      var rows := map k | k in t.rows ::
        if ServedBy(k, t.rows[k], source, scan.value) then FailedRow(t.rows[k], t.now) else t.rows[k];
      ClosingMoves(t.runs, rows, t.now, r);
    }
  }

  lemma StartScanRun(t: Tables, source: SourceId, r: Id)
    requires r in t.runs
    ensures r in StartScan(t, source).runs && RunMoved(t.runs[r], StartScan(t, source).runs[r], t.now)
  {
  }

  lemma RequestKeepsRun(t: Tables, target: Option<SourceId>, cooldown: int, r: Id)
    requires r in t.runs && t.nextId !in t.runs
    ensures var t' := Enqueue(t, target, cooldown); r in t'.runs && t'.runs[r] == t.runs[r]
  {
  }

  /** Every step moves a run only as its status moves. */
  lemma RunLife(s: State, e: Event, r: Id)
    requires Invariant(s) && r in s.db.runs
    ensures r in Step(s, e).db.runs && RunMoved(s.db.runs[r], Step(s, e).db.runs[r], s.db.now)
  {
    RefreshTables(s, e);
    if Enabled(s, e) {
      match e
      case RefreshRequested(target, cooldown) => RequestKeepsRun(s.db, target, cooldown, r);
      case ScanStarted(token, _) => StartScanRun(s.db, s.workers[token].source, r);
      case ScanCompleted(token, counts, _) =>
        var w := s.workers[token];
        ClosingMoves(s.db.runs, CompleteScan(s.db, w.source, w.interval, token, w.phase.scan, counts).rows, s.db.now, r);
      case ScanFailed(token) => FailScanRuns(s.db, s.workers[token].source, token, s.workers[token].KnownScan(), r);
      case _ =>
    }
  }

  /* ---- Scheduling a source ---- */

  /** Adding or touching an active source makes it due no later than now; nothing else is rescheduled. */
  lemma SourceSchedules(s: State, e: Event, x: SourceId, isActive: bool)
    requires Enabled(s, e) && (e.SourceTouched? || e.SourceAdded?) && e.source == x && isActive == e.isActive
    ensures var (jobs, jobs') := (s.db.jobs, Step(s, e).db.jobs);
      && x in Step(s, e).db.sources && Step(s, e).db.sources[x].isActive == isActive
      && (forall y :: y != x ==> (y in jobs' <==> y in jobs) && (y in jobs ==> jobs'[y] == jobs[y]))
      && (!isActive ==> jobs' == jobs)
      && (isActive ==> x in jobs')
      && (isActive && x in jobs ==> jobs'[x] == jobs[x].(runAfter := Min(jobs[x].runAfter, s.db.now)))
      && (isActive && x !in jobs ==> jobs'[x] == Job(s.db.now, None, 0, s.db.now))
      && (isActive && (x in jobs ==> Unleased(jobs[x], s.db.now)) ==> Due(Step(s, e).db, x))
  {
  }

  /** A changed interval is the source's from then on, and reschedules nothing. */
  lemma IntervalTaken(s: State, x: SourceId, interval: nat)
    requires Enabled(s, IntervalChanged(x, interval))
    ensures var (t, t') := (s.db, Step(s, IntervalChanged(x, interval)).db);
      && t'.jobs == t.jobs && t'.sources.Keys == t.sources.Keys
      && t'.sources[x].interval == interval && t'.sources[x].isActive == t.sources[x].isActive
      && forall y :: y in t.sources && y != x ==> t'.sources[y] == t.sources[y]
  {
  }

  /** A worker claims, starts a scan that it learns of or not, reports, and is done once its report is acknowledged. */
  lemma WorkerLife(s: State, e: Event, token: Id)
    requires Invariant(s) && token in s.workers
    ensures token in Step(s, e).workers
    ensures var (w, phase') := (s.workers[token], Step(s, e).workers[token].phase);
      phase' == match e
        case ScanStarted(t, acknowledged) =>
          if t == token && w.phase.Claimed? then if acknowledged then Scanning(s.db.nextId) else Orphaned else w.phase
        case ScanCompleted(t, _, acknowledged) =>
          if t == token && w.phase.Scanning? then if acknowledged then Done else Reported(w.phase.scan) else w.phase
        case ScanFailed(t) => if t == token then Done else w.phase
        case _ => w.phase
  {
    assert Knows(s.workers[token], s.db.scans);
  }

  /** The clock moves with the ticks, second by second, and with nothing else. */
  lemma ClockMoves(s: State, e: Event)
    ensures Step(s, e).db.now == s.db.now + if e.Tick? then e.seconds else 0
  {
    if e.ScanFailed? && Enabled(s, e) {
      FailScanScans(s.db, s.workers[e.token].source, e.token, s.workers[e.token].KnownScan());
    }
  }
}
