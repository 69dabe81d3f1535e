/**
 When a source is scanned again: the end of a scan sets the schedule, a claim shuts out everybody
 else for ten minutes, and only a touch of the source or a request for it brings a scan forward.
 */
module IngestionSchedules {
  import opened IngestionProtocol
  import opened IngestionInvariants
  import opened IngestionRequests
  import opened Leases
  import opened Options

  /* ---- What the ends of a scan write ---- */

  /** A completed scan frees the job its worker still holds and schedules it one interval ahead; nothing else. */
  lemma CompletionReschedules(s: State, token: Id, counts: Counts, acknowledged: bool)
    requires Enabled(s, ScanCompleted(token, counts, acknowledged))
    ensures var (w, t, t') := (s.workers[token], s.db, Step(s, ScanCompleted(token, counts, acknowledged)).db);
      t'.jobs == if Leased(t.jobs, w.source, token)
                 then t.jobs[w.source := t.jobs[w.source].(runAfter := t.now + w.interval, lease := None)]
                 else t.jobs
  {
  }

  /** A failed scan frees the job and delays it by a minute doubled with every attempt, an hour at most. */
  lemma FailureReschedules(s: State, token: Id)
    requires Enabled(s, ScanFailed(token))
    ensures var (w, t, t') := (s.workers[token], s.db, Step(s, ScanFailed(token)).db);
      if !Leased(t.jobs, w.source, token) then t'.jobs == t.jobs
      else if t.jobs[w.source].attempts >= 1024 then t' == t
      else t'.jobs == t.jobs[w.source := t.jobs[w.source].(
                         runAfter := t.now + 60 * Min(60, Pow2(t.jobs[w.source].attempts)), lease := None)]
  {
    FailScanOnlyJobs(s.db, s.workers[token].source, token, s.workers[token].KnownScan());
  }

  lemma FailScanOnlyJobs(t: Tables, source: SourceId, token: Id, scan: Option<Id>)
    requires scan.Some? ==> scan.value in t.scans
    ensures var t' := FailScan(t, source, token, scan);
      if !Leased(t.jobs, source, token) then t'.jobs == t.jobs
      else if t.jobs[source].attempts >= 1024 then t' == t
      else t'.jobs == t.jobs[source := t.jobs[source].(
                        runAfter := t.now + 60 * Min(60, Pow2(t.jobs[source].attempts)), lease := None)]
  {
  }

  /** The delay is one minute after no attempt and doubles up to an hour. */
  lemma DelayDoubles(attempts: nat)
    ensures 60 * Min(60, Pow2(0)) == 60
    ensures 60 * Min(60, Pow2(attempts + 1)) == Min(3600, 2 * (60 * Min(60, Pow2(attempts))))
  {
  }

  /** A claim leases the job for ten minutes to a worker that carries the source's interval of that moment. */
  lemma ClaimLeases(s: State, x: SourceId)
    requires Enabled(s, JobClaimed(x))
    ensures var (t, s') := (s.db, Step(s, JobClaimed(x)));
      && s'.db == t.(nextId := t.nextId + 1, jobs := t.jobs[x := s'.db.jobs[x]])
      && s'.db.jobs[x] == t.jobs[x].(lease := Some(Lease(t.nextId, t.now + 600)), attempts := t.jobs[x].attempts + 1)
      && s'.workers == s.workers[t.nextId := Worker(x, t.sources[x].interval, t.now + 600, Claimed)]
  {
  }

  lemma WorkerStays(s: State, e: Event, token: Id)
    requires token in s.workers && token < s.db.nextId
    ensures token in Step(s, e).workers && token < Step(s, e).db.nextId
    ensures var (w, w') := (s.workers[token], Step(s, e).workers[token]);
      w'.source == w.source && w'.interval == w.interval && w'.until == w.until
  {
  }

  /** A worker keeps its source and the interval it was given, whatever the source's interval becomes. */
  lemma {:induction false} WorkerKeepsInterval(s: State, events: seq<Event>, token: Id)
    requires token in s.workers && token < s.db.nextId
    ensures token in Execute(s, events).workers && token < Execute(s, events).db.nextId
    ensures var (w, w') := (s.workers[token], Execute(s, events).workers[token]);
      w'.source == w.source && w'.interval == w.interval && w'.until == w.until
    decreases |events|
  {
    if events != [] {
      var before := events[..|events| - 1];
      WorkerKeepsInterval(s, before, token);
      WorkerStays(Execute(s, before), events[|events| - 1], token);
    }
  }

  /* ---- Waiting for the schedule ---- */

  /** The events that may bring a scan of `x` forward. */
  predicate BringsForward(e: Event, x: SourceId) {
    (e.SourceTouched? && e.source == x) || (e.RefreshRequested? && Names(e.target, x))
  }

  ghost predicate NothingBringsForward(events: seq<Event>, x: SourceId) {
    forall i :: 0 <= i < |events| ==> !BringsForward(events[i], x)
  }

  lemma TimeForward(s: State, e: Event)
    ensures s.db.now <= Step(s, e).db.now
  {
  }

  /** Nobody holds the job of `x`, which stands as `job`; the source is active as told. */
  ghost predicate Waits(s: State, x: SourceId, job: Job, isActive: bool) {
    && x in s.db.jobs && s.db.jobs[x] == job && job.lease == None
    && x in s.db.sources && s.db.sources[x].isActive == isActive
  }

  lemma RequestLeavesWaiting(s: State, target: Option<SourceId>, cooldown: int, x: SourceId, job: Job, isActive: bool)
    requires Waits(s, x, job, isActive) && !Names(target, x)
    ensures Waits(s.(db := Enqueue(s.db, target, cooldown)), x, job, isActive)
  {
    RequestTouchesOnly(s.db, target.value, cooldown);
  }

  lemma WaitingStep(s: State, e: Event, x: SourceId, job: Job, isActive: bool)
    requires Waits(s, x, job, isActive) && !BringsForward(e, x) && (e == JobClaimed(x) ==> !Due(s.db, x))
    ensures Waits(Step(s, e), x, job, isActive)
  {
    if Enabled(s, e) {
      match e
      case RefreshRequested(target, cooldown) => RequestLeavesWaiting(s, target, cooldown, x, job, isActive);
      case ScanFailed(token) =>
        FailScanOnlyJobs(s.db, s.workers[token].source, token, s.workers[token].KnownScan());
      case _ =>
    }
  }

  /** A job nobody holds waits for its schedule. */
  lemma {:induction false} WaitsForSchedule(s: State, events: seq<Event>, x: SourceId, job: Job, isActive: bool)
    requires Waits(s, x, job, isActive) && NothingBringsForward(events, x)
    ensures s.db.now <= Execute(s, events).db.now
    ensures Execute(s, events).db.now < job.runAfter ==>
              Waits(Execute(s, events), x, job, isActive) && !Due(Execute(s, events).db, x)
    decreases |events|
  {
    if events != [] {
      var (before, e) := (events[..|events| - 1], events[|events| - 1]);
      assert !BringsForward(e, x);
      assert NothingBringsForward(before, x);
      WaitsForSchedule(s, before, x, job, isActive);
      TimeForward(Execute(s, before), e);
      if Execute(s, events).db.now < job.runAfter {
        WaitingStep(Execute(s, before), e, x, job, isActive);
      }
    }
  }

  /** Until it is claimed it can be claimed exactly from its schedule on, if its source is active. */
  lemma {:induction false} DueFromSchedule(s: State, events: seq<Event>, x: SourceId, job: Job, isActive: bool)
    requires Waits(s, x, job, isActive) && NothingBringsForward(events, x) && JobClaimed(x) !in events
    ensures Waits(Execute(s, events), x, job, isActive)
    ensures Due(Execute(s, events).db, x) <==> isActive && job.runAfter <= Execute(s, events).db.now
    decreases |events|
  {
    if events != [] {
      var (before, e) := (events[..|events| - 1], events[|events| - 1]);
      assert !BringsForward(e, x) && e in events;
      assert NothingBringsForward(before, x);
      DueFromSchedule(s, before, x, job, isActive);
      WaitingStep(Execute(s, before), e, x, job, isActive);
    }
  }

  /**
   The pace of scanning: after a completed scan no continuation lets the source be claimed before
   its interval has passed, unless it is touched or a refresh names it; left unclaimed, it can be
   claimed exactly from then on.
   */
  lemma ScanPace(s: State, token: Id, counts: Counts, acknowledged: bool, events: seq<Event>)
    requires Invariant(s) && Enabled(s, ScanCompleted(token, counts, acknowledged))
    requires Leased(s.db.jobs, s.workers[token].source, token)
    requires NothingBringsForward(events, s.workers[token].source)
    ensures var (w, s') := (s.workers[token], Execute(Step(s, ScanCompleted(token, counts, acknowledged)), events));
      && (s'.db.now < s.db.now + w.interval ==> !Due(s'.db, w.source))
      && (JobClaimed(w.source) !in events ==>
            (Due(s'.db, w.source) <==> s.db.sources[w.source].isActive && s.db.now + w.interval <= s'.db.now))
  {
    var (x, ended) := (s.workers[token].source, Step(s, ScanCompleted(token, counts, acknowledged)));
    CompletionReschedules(s, token, counts, acknowledged);
    assert Waits(ended, x, ended.db.jobs[x], s.db.sources[x].isActive);
    WaitsForSchedule(ended, events, x, ended.db.jobs[x], s.db.sources[x].isActive);
    if JobClaimed(x) !in events {
      DueFromSchedule(ended, events, x, ended.db.jobs[x], s.db.sources[x].isActive);
    }
  }

  /** After a failed scan the same holds of the retry delay. */
  lemma RetryPace(s: State, token: Id, events: seq<Event>)
    requires Invariant(s) && Enabled(s, ScanFailed(token))
    requires Leased(s.db.jobs, s.workers[token].source, token) && s.db.jobs[s.workers[token].source].attempts < 1024
    requires NothingBringsForward(events, s.workers[token].source)
    ensures var (x, s') := (s.workers[token].source, Execute(Step(s, ScanFailed(token)), events));
      var retryAt := s.db.now + 60 * Min(60, Pow2(s.db.jobs[x].attempts));
      && (s'.db.now < retryAt ==> !Due(s'.db, x))
      && (JobClaimed(x) !in events ==> (Due(s'.db, x) <==> s.db.sources[x].isActive && retryAt <= s'.db.now))
  {
    var (x, ended) := (s.workers[token].source, Step(s, ScanFailed(token)));
    FailureReschedules(s, token);
    FailureLeavesSources(s, token);
    assert Waits(ended, x, ended.db.jobs[x], s.db.sources[x].isActive);
    WaitsForSchedule(ended, events, x, ended.db.jobs[x], s.db.sources[x].isActive);
    if JobClaimed(x) !in events {
      DueFromSchedule(ended, events, x, ended.db.jobs[x], s.db.sources[x].isActive);
    }
  }

  lemma FailureLeavesSources(s: State, token: Id)
    requires Enabled(s, ScanFailed(token))
    ensures Step(s, ScanFailed(token)).db.sources == s.db.sources && Step(s, ScanFailed(token)).db.now == s.db.now
  {
  }

  /* ---- A claim shuts others out ---- */

  predicate Reports(e: Event, token: Id) {
    (e.ScanCompleted? || e.ScanFailed?) && e.token == token
  }

  ghost predicate LeasedUntil(s: State, x: SourceId, token: Id, until: Time) {
    x in s.db.jobs && s.db.jobs[x].lease == Some(Lease(token, until))
  }

  lemma LeaseStays(s: State, e: Event, x: SourceId, token: Id, until: Time)
    requires LeasedUntil(s, x, token, until) && s.db.now <= until && !Reports(e, token)
    ensures LeasedUntil(Step(s, e), x, token, until)
  {
    if e.ScanFailed? && Enabled(s, e) {
      FailScanOnlyJobs(s.db, s.workers[e.token].source, e.token, s.workers[e.token].KnownScan());
    }
  }

  lemma {:induction false} LeaseLasts(s: State, events: seq<Event>, x: SourceId, token: Id, until: Time)
    requires LeasedUntil(s, x, token, until) && forall i :: 0 <= i < |events| ==> !Reports(events[i], token)
    ensures Execute(s, events).db.now <= until ==> LeasedUntil(Execute(s, events), x, token, until)
    decreases |events|
  {
    if events != [] {
      var (before, e) := (events[..|events| - 1], events[|events| - 1]);
      LeaseLasts(s, before, x, token, until);
      TimeForward(Execute(s, before), e);
      if Execute(s, events).db.now <= until {
        LeaseStays(Execute(s, before), e, x, token, until);
      }
    }
  }

  /** Unless the worker reports, nothing lets anyone else claim its source for ten minutes. */
  lemma ClaimExcludes(s: State, x: SourceId, events: seq<Event>)
    requires Enabled(s, JobClaimed(x)) && forall i :: 0 <= i < |events| ==> !Reports(events[i], s.db.nextId)
    ensures var s' := Execute(Step(s, JobClaimed(x)), events); s'.db.now <= s.db.now + 600 ==> !Due(s'.db, x)
  {
    LeaseLasts(Step(s, JobClaimed(x)), events, x, s.db.nextId, s.db.now + 600);
  }
}
