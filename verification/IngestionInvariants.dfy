/**
 What every run of the refresh protocol keeps, whatever the interleaving of requests,
 claims, scans, completions, failures, crashes and late returns.

 Each part of the invariant speaks of the few tables it needs, so a transaction that
 leaves those tables alone keeps that part without further argument.
 */
module IngestionInvariants {
  import opened IngestionProtocol
  import opened Leases
  import opened Options

  /* ---- The invariant ---- */

  ghost predicate AllQueued(rows: map<RowKey, Row>, run: Id) {
    forall k :: k in rows && k.run == run ==> rows[k].status.Queued?
  }

  ghost predicate HasRows(rows: map<RowKey, Row>, run: Id) {
    exists k :: k in rows && k.run == run
  }

  /** The status a run deserves, read off its rows alone. */
  ghost function RunStatus(rows: map<RowKey, Row>, run: Id): Status {
    if AllQueued(rows, run) then Queued
    else if AnyActive(rows, run) then Running
    else if AnyCompleted(rows, run) then Completed
    else Failed
  }

  ghost predicate IdsIssued(runs: map<Id, Run>, scans: map<Id, Scan>, workers: map<Id, Worker>, next: Id) {
    && (forall r :: r in runs ==> r < next)
    && (forall k :: k in scans ==> k < next)
    && (forall t :: t in workers ==> t < next)
  }

  ghost predicate RequestsPast(runs: map<Id, Run>, now: Time) {
    forall r :: r in runs ==> runs[r].requestedAt <= now
  }

  ghost predicate RowsOwned(runs: map<Id, Run>, rows: map<RowKey, Row>) {
    forall k :: k in rows ==> k.run in runs
  }

  ghost predicate RunsFollowRows(runs: map<Id, Run>, rows: map<RowKey, Row>) {
    forall r :: r in runs ==> HasRows(rows, r) && runs[r].status == RunStatus(rows, r)
  }

  /** The scan named by a row: same source, issued and started after the row was queued. */
  ghost predicate Serves(k: RowKey, row: Row, requestedAt: Time, scan: Id, scans: map<Id, Scan>) {
    && scan in scans
    && scans[scan].source == k.source
    && k.run < scan
    && requestedAt <= scans[scan].startedAt
    && row.startedAt == Some(scans[scan].startedAt)
    && match row.status
       case Queued => false
       case Running => scans[scan].status.Running?
       case Failed => scans[scan].status.Failed?
       case Completed =>
         && (scans[scan].status.Completed? || scans[scan].status.Failed?)
         && scans[scan].counts == row.counts
  }

  ghost predicate RowsServed(runs: map<Id, Run>, rows: map<RowKey, Row>, scans: map<Id, Scan>)
    requires RowsOwned(runs, rows)
  {
    forall k :: k in rows ==>
      match rows[k].scan
      case None => rows[k].status.Queued?
      case Some(scan) => Serves(k, rows[k], runs[k.run].requestedAt, scan, scans)
  }

  ghost predicate ScansShareNoRow(rows: map<RowKey, Row>) {
    forall k, l | k in rows && l in rows && rows[k].scan.Some? :: rows[k].scan == rows[l].scan ==> k == l
  }

  ghost predicate OneActiveRow(rows: map<RowKey, Row>) {
    forall k, l | k in rows && l in rows && k.source == l.source ::
      rows[k].status.Active() && rows[l].status.Active() ==> k == l
  }

  ghost predicate Knows(w: Worker, scans: map<Id, Scan>) {
    w.KnownScan().Some? ==>
      && w.KnownScan().value in scans
      && scans[w.KnownScan().value].source == w.source
      && (w.phase.Scanning? ==> scans[w.KnownScan().value].status.Running?)
      && (w.phase.Reported? ==> scans[w.KnownScan().value].status.Completed?)
  }

  ghost predicate WorkersKnow(workers: map<Id, Worker>, scans: map<Id, Scan>) {
    && (forall t :: t in workers ==> Knows(workers[t], scans))
    && (forall t, u | t in workers && u in workers && workers[t].KnownScan().Some? ::
          workers[t].KnownScan() == workers[u].KnownScan() ==> t == u)
  }

  /** A worker that neither released its job nor outlived its lease. */
  predicate Holds(w: Worker, now: Time) {
    (w.phase.Claimed? || w.phase.Orphaned? || w.phase.Scanning?) && now <= w.until
  }

  ghost predicate LeasesStored(jobs: map<SourceId, Job>, workers: map<Id, Worker>, now: Time) {
    forall t | t in workers && Holds(workers[t], now) ::
      && workers[t].source in jobs
      && jobs[workers[t].source].lease == Some(Lease(t, workers[t].until))
  }

  ghost predicate JobBounded(job: Job, interval: nat, now: Time) {
    && job.runAfter <= now + Max(interval, MAX_BACKOFF_SECONDS)
    && (job.lease.Some? ==> job.lease.value.until <= now + LEASE_SECONDS)
  }

  ghost predicate JobsBounded(sources: map<SourceId, Source>, jobs: map<SourceId, Job>, now: Time) {
    && (forall x :: x in jobs ==> x in sources && JobBounded(jobs[x], sources[x].longest, now))
    && (forall x :: x in sources && sources[x].isActive ==> x in jobs)
  }

  ghost predicate IntervalsKnown(sources: map<SourceId, Source>, workers: map<Id, Worker>) {
    && (forall x :: x in sources ==> sources[x].interval <= sources[x].longest)
    && (forall t :: t in workers ==>
          workers[t].source in sources && workers[t].interval <= sources[workers[t].source].longest)
  }

  ghost predicate Invariant(s: State) {
    && IdsIssued(s.db.runs, s.db.scans, s.workers, s.db.nextId)
    && RequestsPast(s.db.runs, s.db.now)
    && RowsOwned(s.db.runs, s.db.rows)
    && RunsFollowRows(s.db.runs, s.db.rows)
    && RowsServed(s.db.runs, s.db.rows, s.db.scans)
    && ScansShareNoRow(s.db.rows)
    && OneActiveRow(s.db.rows)
    && WorkersKnow(s.workers, s.db.scans)
    && LeasesStored(s.db.jobs, s.workers, s.db.now)
    && JobsBounded(s.db.sources, s.db.jobs, s.db.now)
    && IntervalsKnown(s.db.sources, s.workers)
  }

  /* ---- Each step keeps it ---- */

  lemma TickKeeps(s: State, seconds: nat)
    requires Invariant(s)
    ensures Invariant(Apply(s, Tick(seconds)))
  {
  }

  lemma PutSourceKeeps(s: State, source: SourceId, config: Source)
    requires Invariant(s)
    requires config.interval <= config.longest
    requires source in s.db.sources ==> s.db.sources[source].longest <= config.longest
    ensures Invariant(s.(db := PutSource(s.db, source, config)))
  {
  }

  lemma ChangeIntervalKeeps(s: State, source: SourceId, interval: nat)
    requires Invariant(s) && source in s.db.sources
    ensures Invariant(Apply(s, IntervalChanged(source, interval)))
  {
  }

  lemma RowsOfRunUnchanged(before: map<RowKey, Row>, after: map<RowKey, Row>, run: Id)
    requires forall k: RowKey | k.run == run :: k in before <==> k in after
    requires forall k | k in before && k.run == run :: before[k].status == after[k].status
    ensures HasRows(before, run) == HasRows(after, run)
    ensures RunStatus(before, run) == RunStatus(after, run)
  {
  }

  lemma EnqueueRuns(runs: map<Id, Run>, rows: map<RowKey, Row>, run: Id, wanted: set<SourceId>, now: Time)
    requires run !in runs && RowsOwned(runs, rows) && RunsFollowRows(runs, rows)
    requires wanted != {}
    ensures RowsOwned(runs[run := Run(Queued, now, None, None)], rows + NewRows(run, wanted))
    ensures RunsFollowRows(runs[run := Run(Queued, now, None, None)], rows + NewRows(run, wanted))
  {
    var rows' := rows + NewRows(run, wanted);
    var x :| x in wanted;
    assert RowKey(run, x) in rows';
    forall r | r in runs
      ensures HasRows(rows', r) && RunStatus(rows', r) == RunStatus(rows, r)
    {
      RowsOfRunUnchanged(rows, rows', r);
    }
  }

  lemma EnqueueRows(
    runs: map<Id, Run>, rows: map<RowKey, Row>, scans: map<Id, Scan>, run: Id, wanted: set<SourceId>, now: Time)
    requires run !in runs && RowsOwned(runs, rows)
    requires RowsServed(runs, rows, scans) && ScansShareNoRow(rows) && OneActiveRow(rows)
    requires !RefreshActive(rows, wanted)
    requires RowsOwned(runs[run := Run(Queued, now, None, None)], rows + NewRows(run, wanted))
    ensures RowsServed(runs[run := Run(Queued, now, None, None)], rows + NewRows(run, wanted), scans)
    ensures ScansShareNoRow(rows + NewRows(run, wanted))
    ensures OneActiveRow(rows + NewRows(run, wanted))
  {
  }

  lemma EnqueueJobs(t: Tables, workers: map<Id, Worker>, wanted: set<SourceId>, pulled: map<SourceId, Job>)
    requires pulled == map x | x in t.jobs :: if x in wanted then PulledForward(t.jobs[x], t.now) else t.jobs[x]
    requires LeasesStored(t.jobs, workers, t.now) && JobsBounded(t.sources, t.jobs, t.now)
    ensures LeasesStored(pulled, workers, t.now) && JobsBounded(t.sources, pulled, t.now)
  {
  }

  lemma EnqueueIds(s: State, run: Id, now: Time)
    requires IdsIssued(s.db.runs, s.db.scans, s.workers, run) && RequestsPast(s.db.runs, now)
    ensures IdsIssued(s.db.runs[run := Run(Queued, now, None, None)], s.db.scans, s.workers, run + 1)
    ensures RequestsPast(s.db.runs[run := Run(Queued, now, None, None)], now)
  {
  }

  lemma EnqueueAccepted(s: State, wanted: set<SourceId>, pulled: map<SourceId, Job>)
    requires Invariant(s) && wanted != {} && !RefreshActive(s.db.rows, wanted)
    requires pulled == map x | x in s.db.jobs :: if x in wanted then PulledForward(s.db.jobs[x], s.db.now) else s.db.jobs[x]
    ensures Invariant(s.(db := s.db.(
              nextId := s.db.nextId + 1, runs := s.db.runs[s.db.nextId := Run(Queued, s.db.now, None, None)],
              rows := s.db.rows + NewRows(s.db.nextId, wanted), jobs := pulled)))
  {
    EnqueueRuns(s.db.runs, s.db.rows, s.db.nextId, wanted, s.db.now);
    EnqueueRows(s.db.runs, s.db.rows, s.db.scans, s.db.nextId, wanted, s.db.now);
    EnqueueJobs(s.db, s.workers, wanted, pulled);
    EnqueueIds(s, s.db.nextId, s.db.now);
  }

  lemma EnqueueKeeps(s: State, target: Option<SourceId>, cooldown: int)
    requires Invariant(s)
    ensures Invariant(Apply(s, RefreshRequested(target, cooldown)))
  {
    if EnqueueRefusal(s.db, target, cooldown) == None {
      EnqueueAccepted(s, Targets(s.db, target), Enqueue(s.db, target, cooldown).jobs);
    }
  }

  lemma ClaimKeeps(s: State, source: SourceId)
    requires Invariant(s)
    requires Due(s.db, source)
    ensures Invariant(Apply(s, JobClaimed(source)))
  {
  }

  lemma StartScanRuns(t: Tables, source: SourceId)
    requires RunsFollowRows(t.runs, t.rows)
    ensures RunsFollowRows(StartScan(t, source).runs, StartScan(t, source).rows)
  {
    var t' := StartScan(t, source);
    forall r | r in t.runs
      ensures HasRows(t'.rows, r) && t'.runs[r].status == RunStatus(t'.rows, r)
    {
      var k :| k in t.rows && k.run == r;
      assert k in t'.rows;
      var own := RowKey(r, source);
      if own in t.rows && t.rows[own].status.Queued? {
        assert t'.rows[own].status.Running?;
      } else {
        RowsOfRunUnchanged(t.rows, t'.rows, r);
      }
    }
  }

  lemma StartScanOwned(t: Tables, source: SourceId)
    requires RequestsPast(t.runs, t.now) && RowsOwned(t.runs, t.rows)
    ensures RequestsPast(StartScan(t, source).runs, t.now)
    ensures RowsOwned(StartScan(t, source).runs, StartScan(t, source).rows)
    ensures forall r :: r in t.runs ==>
              r in StartScan(t, source).runs && StartScan(t, source).runs[r].requestedAt == t.runs[r].requestedAt
  {
  }

  /** A row that was queued is served by the new scan; any other keeps its scan. */
  lemma StartScanServesRow(t: Tables, source: SourceId, k: RowKey)
    requires RequestsPast(t.runs, t.now) && RowsOwned(t.runs, t.rows) && k in t.rows
    requires k.run < t.nextId && forall scan :: scan in t.scans ==> scan < t.nextId
    requires match t.rows[k].scan
             case None => t.rows[k].status.Queued?
             case Some(scan) => Serves(k, t.rows[k], t.runs[k.run].requestedAt, scan, t.scans)
    ensures var t' := StartScan(t, source);
      match t'.rows[k].scan
      case None => t'.rows[k].status.Queued?
      case Some(scan) => Serves(k, t'.rows[k], t.runs[k.run].requestedAt, scan, t'.scans)
  {
  }

  lemma StartScanServed(t: Tables, source: SourceId)
    requires RequestsPast(t.runs, t.now) && RowsOwned(t.runs, t.rows)
    requires forall r :: r in t.runs ==> r < t.nextId
    requires forall k :: k in t.scans ==> k < t.nextId
    requires RowsServed(t.runs, t.rows, t.scans)
    ensures RequestsPast(StartScan(t, source).runs, t.now)
    ensures RowsOwned(StartScan(t, source).runs, StartScan(t, source).rows)
    ensures RowsServed(StartScan(t, source).runs, StartScan(t, source).rows, StartScan(t, source).scans)
  {
    StartScanOwned(t, source);
    var t' := StartScan(t, source);
    forall k | k in t'.rows
      ensures match t'.rows[k].scan
              case None => t'.rows[k].status.Queued?
              case Some(scan) => Serves(k, t'.rows[k], t'.runs[k.run].requestedAt, scan, t'.scans)
    {
      StartScanServesRow(t, source, k);
    }
  }

  lemma StartScanRows(t: Tables, source: SourceId)
    requires RowsOwned(t.runs, t.rows)
    requires forall k :: k in t.scans ==> k < t.nextId
    requires RowsServed(t.runs, t.rows, t.scans) && ScansShareNoRow(t.rows) && OneActiveRow(t.rows)
    ensures ScansShareNoRow(StartScan(t, source).rows)
    ensures OneActiveRow(StartScan(t, source).rows)
  {
    var t' := StartScan(t, source);
    forall k, l | k in t'.rows && l in t'.rows && t'.rows[k].scan.Some? && t'.rows[k].scan == t'.rows[l].scan
      ensures k == l
    {
      if t.rows[k].status.Queued? && t.rows[l].status.Queued? {
        assert k.source == l.source;
      }
    }
  }

  lemma StartScanKeeps(s: State, token: Id, acknowledged: bool)
    requires Invariant(s)
    requires Enabled(s, ScanStarted(token, acknowledged))
    ensures Invariant(Apply(s, ScanStarted(token, acknowledged)))
  {
    StartScanRuns(s.db, s.workers[token].source);
    StartScanServed(s.db, s.workers[token].source);
    StartScanRows(s.db, s.workers[token].source);
  }

  /** One row of a scan ended: its run follows, every other run stays. */
  lemma ClosingRuns(runs: map<Id, Run>, before: map<RowKey, Row>, after: map<RowKey, Row>, now: Time)
    requires RunsFollowRows(runs, before)
    requires before.Keys == after.Keys
    requires forall k | k in before :: before[k].status == after[k].status
                                    || (before[k].status.Running? && !after[k].status.Active())
    ensures RunsFollowRows(ClosedRuns(runs, after, now), after)
  {
    forall r | r in runs
      ensures HasRows(after, r) && ClosedRuns(runs, after, now)[r].status == RunStatus(after, r)
    {
      var k :| k in before && k.run == r;
      assert k in after;
      if forall k | k in before && k.run == r :: before[k].status == after[k].status {
        RowsOfRunUnchanged(before, after, r);
      } else {
        var own :| own in before && own.run == r && before[own].status.Running? && !after[own].status.Active();
        assert own in after;
        assert !AllQueued(after, r);
        assert AnyActive(before, r);
      }
    }
  }

  /** `after` is `before` with the row that `scan` serves ended as its scan ended. */
  ghost predicate EndsServedRow(before: map<RowKey, Row>, after: map<RowKey, Row>, source: SourceId, scan: Id, ended: Scan) {
    && before.Keys == after.Keys
    && forall k | k in before ::
         if ServedBy(k, before[k], source, scan)
         then after[k] == before[k].(status := ended.status, completedAt := ended.completedAt, counts := after[k].counts)
              && (ended.status.Completed? ==> after[k].counts == ended.counts)
         else after[k] == before[k]
  }

  lemma EndedRows(
    runs: map<Id, Run>, before: map<RowKey, Row>, after: map<RowKey, Row>, scans: map<Id, Scan>,
    source: SourceId, scan: Id, ended: Scan)
    requires RowsOwned(runs, before) && RowsOwned(runs, after)
    requires RowsServed(runs, before, scans)
    requires scan in scans && scans[scan].source == source == ended.source
    requires ended.startedAt == scans[scan].startedAt
    requires EndsServedRow(before, after, source, scan, ended)
    requires ended.status.Completed? ==> scans[scan].status.Running?
    requires ended.status.Failed? ==> !scans[scan].status.Queued? && ended.counts == scans[scan].counts
    requires ended.status.Completed? || ended.status.Failed?
    ensures RowsServed(runs, after, scans[scan := ended])
  {
    forall k | k in after
      ensures match after[k].scan
              case None => after[k].status.Queued?
              case Some(x) => Serves(k, after[k], runs[k.run].requestedAt, x, scans[scan := ended])
    {
      assert before[k].scan.Some? ==> Serves(k, before[k], runs[k.run].requestedAt, before[k].scan.value, scans);
    }
  }

  lemma EndedRowsStaySingle(before: map<RowKey, Row>, after: map<RowKey, Row>, source: SourceId, scan: Id, ended: Scan)
    requires EndsServedRow(before, after, source, scan, ended)
    requires !ended.status.Active()
    requires ScansShareNoRow(before) && OneActiveRow(before)
    ensures ScansShareNoRow(after) && OneActiveRow(after)
  {
  }

  lemma ClosedRunsKeepRequests(
    runs: map<Id, Run>, rows: map<RowKey, Row>, scans: map<Id, Scan>, now: Time)
    requires RowsOwned(runs, rows) && RowsServed(runs, rows, scans) && RequestsPast(runs, now)
    ensures RowsOwned(ClosedRuns(runs, rows, now), rows)
    ensures RowsServed(ClosedRuns(runs, rows, now), rows, scans) && RequestsPast(ClosedRuns(runs, rows, now), now)
  {
  }

  /** The part of the invariant that ending a scan touches. */
  ghost predicate RefreshPart(t: Tables) {
    && RequestsPast(t.runs, t.now) && RowsOwned(t.runs, t.rows) && RunsFollowRows(t.runs, t.rows)
    && RowsServed(t.runs, t.rows, t.scans) && ScansShareNoRow(t.rows) && OneActiveRow(t.rows)
  }

  lemma EndedScan(t: Tables, source: SourceId, scan: Id, ended: Scan, after: map<RowKey, Row>)
    requires RefreshPart(t)
    requires scan in t.scans && t.scans[scan].source == source == ended.source
    requires ended.startedAt == t.scans[scan].startedAt
    requires EndsServedRow(t.rows, after, source, scan, ended)
    requires ended.status.Completed? ==> t.scans[scan].status.Running?
    requires ended.status.Failed? ==> !t.scans[scan].status.Queued? && ended.counts == t.scans[scan].counts
    requires ended.status.Completed? || ended.status.Failed?
    ensures RefreshPart(t.(scans := t.scans[scan := ended], rows := after, runs := ClosedRuns(t.runs, after, t.now)))
  {
    assert RowsOwned(t.runs, after);
    EndedRows(t.runs, t.rows, after, t.scans, source, scan, ended);
    EndedRowsStaySingle(t.rows, after, source, scan, ended);
    ClosingRuns(t.runs, t.rows, after, t.now);
    ClosedRunsKeepRequests(t.runs, after, t.scans[scan := ended], t.now);
  }

  lemma EndedWorker(workers: map<Id, Worker>, scans: map<Id, Scan>, token: Id, scan: Id, ended: Scan, phase: Phase)
    requires WorkersKnow(workers, scans)
    requires token in workers && workers[token].KnownScan() == Some(scan)
    requires scan in scans && ended.source == scans[scan].source
    requires phase.Done? || (phase == Reported(scan) && ended.status.Completed?)
    ensures WorkersKnow(workers[token := workers[token].(phase := phase)], scans[scan := ended])
  {
  }

  /** The last statement of both ending transactions: only the holder of the stored token reschedules. */
  function Released(jobs: map<SourceId, Job>, source: SourceId, token: Id, runAfter: Time): map<SourceId, Job> {
    if Leased(jobs, source, token) then jobs[source := jobs[source].(runAfter := runAfter, lease := None)] else jobs
  }

  lemma ReleasedJobs(t: Tables, workers: map<Id, Worker>, token: Id, phase: Phase, runAfter: Time)
    requires token in workers && (phase.Done? || phase.Reported?)
    requires LeasesStored(t.jobs, workers, t.now) && JobsBounded(t.sources, t.jobs, t.now)
    requires IntervalsKnown(t.sources, workers)
    requires runAfter <= t.now + Max(workers[token].interval, MAX_BACKOFF_SECONDS)
    ensures var w := workers[token];
      && LeasesStored(Released(t.jobs, w.source, token, runAfter), workers[token := w.(phase := phase)], t.now)
      && LeasesStored(t.jobs, workers[token := w.(phase := phase)], t.now)
      && JobsBounded(t.sources, Released(t.jobs, w.source, token, runAfter), t.now)
      && IntervalsKnown(t.sources, workers[token := w.(phase := phase)])
  {
  }

  lemma CompleteScanKeeps(s: State, token: Id, counts: Counts, acknowledged: bool)
    requires Invariant(s)
    requires Enabled(s, ScanCompleted(token, counts, acknowledged))
    ensures Invariant(Apply(s, ScanCompleted(token, counts, acknowledged)))
  {
    var w, t := s.workers[token], s.db;
    assert Knows(w, t.scans);
    var scan := w.phase.scan;
    var t' := CompleteScan(t, w.source, w.interval, token, scan, counts);
    var phase := if acknowledged then Done else Reported(scan);
    EndedScan(t, w.source, scan, t'.scans[scan], t'.rows);
    EndedWorker(s.workers, t.scans, token, scan, t'.scans[scan], phase);
    ReleasedJobs(t, s.workers, token, phase, t.now + w.interval);
    assert IdsIssued(t'.runs, t'.scans, s.workers[token := w.(phase := phase)], t.nextId);
  }

  lemma BackoffCapped(attempts: nat)
    ensures 60 <= Backoff(attempts) <= MAX_BACKOFF_SECONDS
  {
    Pow2Positive(attempts);
  }

  lemma {:induction false} Pow2Positive(n: nat)
    ensures Pow2(n) >= 1
  {
    if n > 0 {
      Pow2Positive(n - 1);
    }
  }

  lemma FailKnownScanKeeps(s: State, token: Id, scan: Id)
    requires Invariant(s)
    requires token in s.workers && s.workers[token].KnownScan() == Some(scan) && scan in s.db.scans
    requires !FailRaises(s.db, s.workers[token].source, token)
    ensures Invariant(Apply(s, ScanFailed(token)))
  {
    var w, t := s.workers[token], s.db;
    assert Knows(w, t.scans);
    var t' := FailScan(t, w.source, token, Some(scan));
    EndedScan(t, w.source, scan, t'.scans[scan], t'.rows);
    EndedWorker(s.workers, t.scans, token, scan, t'.scans[scan], Done);
    var attempts := if w.source in t.jobs then t.jobs[w.source].attempts else 0;
    BackoffCapped(attempts);
    ReleasedJobs(t, s.workers, token, Done, t.now + Backoff(attempts));
    assert IdsIssued(t'.runs, t'.scans, s.workers[token := w.(phase := Done)], t.nextId);
  }

  lemma FailScanKeeps(s: State, token: Id)
    requires Invariant(s)
    requires Enabled(s, ScanFailed(token))
    ensures Invariant(Apply(s, ScanFailed(token)))
  {
    var w, t := s.workers[token], s.db;
    var attempts := if w.source in t.jobs then t.jobs[w.source].attempts else 0;
    BackoffCapped(attempts);
    if w.KnownScan().Some? && !FailRaises(t, w.source, token) {
      FailKnownScanKeeps(s, token, w.KnownScan().value);
    } else {
      ReleasedJobs(t, s.workers, token, Done, t.now + Backoff(attempts));
      FailScanOnlyReleases(t, w.source, token, w.KnownScan(), t.now + Backoff(attempts));
      assert WorkersKnow(s.workers[token := w.(phase := Done)], t.scans);
      assert IdsIssued(t.runs, t.scans, s.workers[token := w.(phase := Done)], t.nextId);
    }
  }

  lemma FailScanOnlyReleases(t: Tables, source: SourceId, token: Id, scan: Option<Id>, runAfter: Time)
    requires scan.Some? ==> scan.value in t.scans
    requires scan == None || FailRaises(t, source, token)
    requires source in t.jobs ==> runAfter == t.now + Backoff(t.jobs[source].attempts)
    ensures FailScan(t, source, token, scan) == t
         || FailScan(t, source, token, scan) == t.(jobs := Released(t.jobs, source, token, runAfter))
  {
  }

  lemma SourceKeeps(s: State, e: Event)
    requires Invariant(s) && Enabled(s, e)
    requires e.SourceAdded? || e.SourceTouched?
    ensures Invariant(Apply(s, e))
  {
    match e
    case SourceAdded(source, interval, isActive) => PutSourceKeeps(s, source, Source(interval, isActive, interval));
    case SourceTouched(source, isActive) => PutSourceKeeps(s, source, s.db.sources[source].(isActive := isActive));
  }

  lemma EventKeeps(s: State, e: Event)
    requires Invariant(s) && Enabled(s, e)
    ensures Invariant(Apply(s, e))
  {
    match e
    case Tick(seconds) => TickKeeps(s, seconds);
    case SourceAdded(_, _, _) => SourceKeeps(s, e);
    case SourceTouched(_, _) => SourceKeeps(s, e);
    case IntervalChanged(source, interval) => ChangeIntervalKeeps(s, source, interval);
    case RefreshRequested(target, cooldown) => EnqueueKeeps(s, target, cooldown);
    case JobClaimed(source) => ClaimKeeps(s, source);
    case ScanStarted(token, acknowledged) => StartScanKeeps(s, token, acknowledged);
    case ScanCompleted(token, counts, acknowledged) => CompleteScanKeeps(s, token, counts, acknowledged);
    case ScanFailed(token) => FailScanKeeps(s, token);
  }

  lemma StepKeeps(s: State, e: Event)
    requires Invariant(s)
    ensures Invariant(Step(s, e))
  {
    if Enabled(s, e) {
      EventKeeps(s, e);
    }
  }

  /** Every reachable state, over every finite run of the protocol, satisfies the invariant. */
  lemma {:induction false} ReachableInvariant(now: Time, events: seq<Event>)
    ensures Invariant(Execute(Initial(now), events))
    decreases |events|
  {
    if events != [] {
      ReachableInvariant(now, events[..|events| - 1]);
      StepKeeps(Execute(Initial(now), events[..|events| - 1]), events[|events| - 1]);
    }
  }
}
