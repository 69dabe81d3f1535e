/**
 The refresh protocol of the ingestion worker as a state machine: the five tables that
 the protocol's transactions share, one function per transaction, and one function per
 observable step of a worker.

 Every transaction is one atomic step. `nextId` is a single supply of fresh identifiers
 for runs, scans and lease tokens, so comparing two identifiers compares the moments at
 which they were issued.
 */
module IngestionProtocol {
  import opened Leases
  import opened Options

  type Id = nat
  type SourceId = nat
  type Time = int

  const MAX_BACKOFF_SECONDS := 3600
  // power(2, n) on double precision raises "value out of range" from this exponent on.
  const POWER_OVERFLOW := 1024

  datatype Status = Queued | Running | Completed | Failed {
    predicate Active() {
      Queued? || Running?
    }
  }

  datatype Counts = Counts(pages: nat, discovered: nat, changed: nat, skipped: nat, indexed: nat)

  const NO_COUNTS := Counts(0, 0, 0, 0, 0)

  // `longest` remembers the longest interval the source has had.
  datatype Source = Source(interval: nat, isActive: bool, longest: nat)

  datatype Run = Run(status: Status, requestedAt: Time, startedAt: Option<Time>, completedAt: Option<Time>)

  datatype RowKey = RowKey(run: Id, source: SourceId)

  datatype Row = Row(
    status: Status, scan: Option<Id>, startedAt: Option<Time>, completedAt: Option<Time>, counts: Counts)

  datatype Scan = Scan(
    source: SourceId, status: Status, startedAt: Time, completedAt: Option<Time>, counts: Counts)

  // The lease columns are both null or both set (discovery_jobs_lease_pair_check).
  datatype Job = Job(runAfter: Time, lease: Option<Lease>, attempts: nat, createdAt: Time)

  datatype Tables = Tables(
    now: Time,
    nextId: Id,
    sources: map<SourceId, Source>,
    runs: map<Id, Run>,
    rows: map<RowKey, Row>,
    scans: map<Id, Scan>,
    jobs: map<SourceId, Job>)

  /* ---- Sources and the trigger that schedules them ---- */

  function Scheduled(jobs: map<SourceId, Job>, source: SourceId, now: Time): map<SourceId, Job> {
    if source in jobs
    then jobs[source := jobs[source].(runAfter := Min(jobs[source].runAfter, now))]
    else jobs[source := Job(now, None, 0, now)]
  }

  /** Inserting a source, or updating its activity, URL or policy, fires the trigger. */
  function PutSource(t: Tables, source: SourceId, config: Source): Tables {
    t.(sources := t.sources[source := config],
       jobs := if config.isActive then Scheduled(t.jobs, source, t.now) else t.jobs)
  }

  /** A new interval alone does not fire the trigger. */
  function ChangeInterval(t: Tables, source: SourceId, interval: nat): Tables
    requires source in t.sources
  {
    var config := t.sources[source];
    t.(sources := t.sources[source := config.(interval := interval, longest := Max(config.longest, interval))])
  }

  /* ---- Founder refresh ---- */

  datatype Refusal = RecentlyRequested | NoEnabledConnector | AlreadyRefreshing

  function Targets(t: Tables, target: Option<SourceId>): set<SourceId> {
    set x | x in t.sources && t.sources[x].isActive && (target == None || target == Some(x))
  }

  predicate RequestedSince(t: Tables, cutoff: Time) {
    exists r :: r in t.runs && t.runs[r].requestedAt > cutoff
  }

  predicate RefreshActive(rows: map<RowKey, Row>, wanted: set<SourceId>) {
    exists k :: k in rows && k.source in wanted && rows[k].status.Active()
  }

  function EnqueueRefusal(t: Tables, target: Option<SourceId>, cooldown: int): Option<Refusal> {
    if RequestedSince(t, t.now - cooldown) then Some(RecentlyRequested)
    else if Targets(t, target) == {} then Some(NoEnabledConnector)
    else if RefreshActive(t.rows, Targets(t, target)) then Some(AlreadyRefreshing)
    else None
  }

  const NEW_ROW := Row(Queued, None, None, None, NO_COUNTS)

  predicate Unleased(job: Job, now: Time) {
    job.lease == None || job.lease.value.until < now
  }

  function PulledForward(job: Job, now: Time): Job {
    if Unleased(job, now) then job.(runAfter := Min(job.runAfter, now)) else job
  }

  function NewRows(run: Id, wanted: set<SourceId>): map<RowKey, Row> {
    var keys := set x | x in wanted :: RowKey(run, x);
    map k | k in keys :: NEW_ROW
  }

  /** A refused request leaves every table as it was. */
  function Enqueue(t: Tables, target: Option<SourceId>, cooldown: int): Tables {
    if EnqueueRefusal(t, target, cooldown).Some? then t else
    var wanted := Targets(t, target);
    t.(nextId := t.nextId + 1,
       runs := t.runs[t.nextId := Run(Queued, t.now, None, None)],
       rows := t.rows + NewRows(t.nextId, wanted),
       jobs := map x | x in t.jobs :: if x in wanted then PulledForward(t.jobs[x], t.now) else t.jobs[x])
  }

  /* ---- Claiming a due job ---- */

  predicate Due(t: Tables, source: SourceId) {
    && source in t.jobs
    && source in t.sources
    && t.sources[source].isActive
    && t.jobs[source].runAfter <= t.now
    && Unleased(t.jobs[source], t.now)
  }

  /** The lease handed out carries the fresh token `t.nextId`. */
  function Claim(t: Tables, source: SourceId): Tables
    requires Due(t, source)
  {
    var job := t.jobs[source];
    t.(nextId := t.nextId + 1,
       jobs := t.jobs[source := job.(lease := Some(Lease(t.nextId, t.now + LEASE_SECONDS)), attempts := job.attempts + 1)])
  }

  /* ---- Starting a scan ---- */

  function StartedRow(key: RowKey, row: Row, source: SourceId, scan: Id, now: Time): Row {
    if key.source == source && row.status.Queued?
    then row.(status := Running, startedAt := Some(now), scan := Some(scan))
    else row
  }

  function StartedRun(id: Id, run: Run, rows: map<RowKey, Row>, source: SourceId, now: Time): Run {
    if run.status.Queued? && RowKey(id, source) in rows && rows[RowKey(id, source)].status.Running?
    then run.(status := Running, startedAt := if run.startedAt.Some? then run.startedAt else Some(now))
    else run
  }

  /** The scan created is `t.nextId`. */
  function StartScan(t: Tables, source: SourceId): Tables {
    var rows := map k | k in t.rows :: StartedRow(k, t.rows[k], source, t.nextId, t.now);
    t.(nextId := t.nextId + 1,
       scans := t.scans[t.nextId := Scan(source, Running, t.now, None, NO_COUNTS)],
       rows := rows,
       runs := map r | r in t.runs :: StartedRun(r, t.runs[r], rows, source, t.now))
  }

  /* ---- Ending a scan ---- */

  predicate AnyActive(rows: map<RowKey, Row>, run: Id) {
    exists k :: k in rows && k.run == run && rows[k].status.Active()
  }

  predicate AnyCompleted(rows: map<RowKey, Row>, run: Id) {
    exists k :: k in rows && k.run == run && rows[k].status.Completed?
  }

  function ClosedRun(id: Id, run: Run, rows: map<RowKey, Row>, now: Time): Run {
    if run.status.Active() && !AnyActive(rows, id)
    then run.(status := if AnyCompleted(rows, id) then Completed else Failed, completedAt := Some(now))
    else run
  }

  function ClosedRuns(runs: map<Id, Run>, rows: map<RowKey, Row>, now: Time): map<Id, Run> {
    map r | r in runs :: ClosedRun(r, runs[r], rows, now)
  }

  function CompletedRow(row: Row, now: Time, counts: Counts): Row {
    row.(status := Completed, completedAt := Some(now), counts := counts)
  }

  function FailedRow(row: Row, now: Time): Row {
    row.(status := Failed, completedAt := Some(now))
  }

  predicate ServedBy(key: RowKey, row: Row, source: SourceId, scan: Id) {
    key.source == source && row.scan == Some(scan) && row.status.Running?
  }

  predicate Leased(jobs: map<SourceId, Job>, source: SourceId, token: Id) {
    source in jobs && jobs[source].lease.Some? && jobs[source].lease.value.token == token
  }

  function CompleteScan(t: Tables, source: SourceId, interval: nat, token: Id, scan: Id, counts: Counts): Tables
    requires scan in t.scans
  {
    var rows := map k | k in t.rows ::
      if ServedBy(k, t.rows[k], source, scan) then CompletedRow(t.rows[k], t.now, counts) else t.rows[k];
    t.(scans := t.scans[scan := t.scans[scan].(status := Completed, completedAt := Some(t.now), counts := counts)],
       rows := rows,
       runs := ClosedRuns(t.runs, rows, t.now),
       jobs := if Leased(t.jobs, source, token)
               then t.jobs[source := t.jobs[source].(runAfter := t.now + interval, lease := None)]
               else t.jobs)
  }

  function Backoff(attempts: nat): int {
    60 * Min(60, Pow2(attempts))
  }

  /** The failing transaction's last statement raises when it reaches a row whose exponent overflows. */
  predicate FailRaises(t: Tables, source: SourceId, token: Id) {
    Leased(t.jobs, source, token) && t.jobs[source].attempts >= POWER_OVERFLOW
  }

  function FailScan(t: Tables, source: SourceId, token: Id, scan: Option<Id>): Tables
    requires scan.Some? ==> scan.value in t.scans
  {
    if FailRaises(t, source, token) then t else
    var ended :=
      if scan == None then t else
      var rows := map k | k in t.rows ::
        if ServedBy(k, t.rows[k], source, scan.value) then FailedRow(t.rows[k], t.now) else t.rows[k];
      t.(scans := t.scans[scan.value := t.scans[scan.value].(status := Failed, completedAt := Some(t.now))],
         rows := rows,
         runs := ClosedRuns(t.runs, rows, t.now));
    ended.(jobs :=
      if Leased(t.jobs, source, token)
      then t.jobs[source := t.jobs[source].(runAfter := t.now + Backoff(t.jobs[source].attempts), lease := None)]
      else t.jobs)
  }

  /* ---- Workers ---- */

  /**
   What a worker knows about the job it claimed. A transaction may commit although the
   worker sees an error: `Orphaned` is a worker whose scan was created but never told to it,
   `Reported` one whose completion was committed but not acknowledged. Both go on to report
   failure. A crashed worker is one that takes no further step.
   */
  datatype Phase = Claimed | Orphaned | Scanning(scan: Id) | Reported(scan: Id) | Done

  datatype Worker = Worker(source: SourceId, interval: nat, until: Time, phase: Phase) {
    function KnownScan(): Option<Id> {
      if phase.Scanning? || phase.Reported? then Some(phase.scan) else None
    }
  }

  datatype State = State(db: Tables, workers: map<Id, Worker>)

  datatype Event =
    | Tick(seconds: nat)
    | SourceAdded(source: SourceId, interval: nat, isActive: bool)
    | SourceTouched(source: SourceId, isActive: bool)
    | IntervalChanged(source: SourceId, interval: nat)
    | RefreshRequested(target: Option<SourceId>, cooldown: int)
    | JobClaimed(source: SourceId)
    | ScanStarted(token: Id, acknowledged: bool)
    | ScanCompleted(token: Id, counts: Counts, acknowledged: bool)
    | ScanFailed(token: Id)

  predicate Enabled(s: State, e: Event) {
    match e
    case Tick(_) => true
    case SourceAdded(source, _, _) => source !in s.db.sources
    case SourceTouched(source, _) => source in s.db.sources
    case IntervalChanged(source, _) => source in s.db.sources
    case RefreshRequested(_, _) => true
    case JobClaimed(source) => Due(s.db, source)
    case ScanStarted(token, _) => token in s.workers && s.workers[token].phase.Claimed?
    case ScanCompleted(token, _, _) =>
      token in s.workers && s.workers[token].phase.Scanning? && s.workers[token].phase.scan in s.db.scans
    case ScanFailed(token) =>
      && token in s.workers && !s.workers[token].phase.Done?
      && (s.workers[token].KnownScan().Some? ==> s.workers[token].KnownScan().value in s.db.scans)
  }

  function Apply(s: State, e: Event): State
    requires Enabled(s, e)
  {
    match e
    case Tick(seconds) =>
      s.(db := s.db.(now := s.db.now + seconds))
    case SourceAdded(source, interval, isActive) =>
      s.(db := PutSource(s.db, source, Source(interval, isActive, interval)))
    case SourceTouched(source, isActive) =>
      s.(db := PutSource(s.db, source, s.db.sources[source].(isActive := isActive)))
    case IntervalChanged(source, interval) =>
      s.(db := ChangeInterval(s.db, source, interval))
    case RefreshRequested(target, cooldown) =>
      s.(db := Enqueue(s.db, target, cooldown))
    case JobClaimed(source) =>
      State(Claim(s.db, source),
            s.workers[s.db.nextId := Worker(source, s.db.sources[source].interval, s.db.now + LEASE_SECONDS, Claimed)])
    case ScanStarted(token, acknowledged) =>
      var w := s.workers[token];
      State(StartScan(s.db, w.source),
            s.workers[token := w.(phase := if acknowledged then Scanning(s.db.nextId) else Orphaned)])
    case ScanCompleted(token, counts, acknowledged) =>
      var w := s.workers[token];
      State(CompleteScan(s.db, w.source, w.interval, token, w.phase.scan, counts),
            s.workers[token := w.(phase := if acknowledged then Done else Reported(w.phase.scan))])
    case ScanFailed(token) =>
      var w := s.workers[token];
      State(FailScan(s.db, w.source, token, w.KnownScan()), s.workers[token := w.(phase := Done)])
  }

  /** A step that its actor cannot take changes nothing. */
  function Step(s: State, e: Event): State {
    if Enabled(s, e) then Apply(s, e) else s
  }

  function Execute(s: State, events: seq<Event>): State
    decreases |events|
  {
    if events == [] then s else Step(Execute(s, events[..|events| - 1]), events[|events| - 1])
  }

  function Initial(now: Time): State {
    State(Tables(now, 0, map[], map[], map[], map[], map[]), map[])
  }
}
