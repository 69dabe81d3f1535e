/**
 The protocol's transactions as they are written, statement by statement over tables that
 are updated in place, each proved to be the atomic step of the state machine.
 */
module IngestionDatabase {
  import opened IngestionProtocol
  import opened Leases
  import opened Options

  const MAX_BATCH := 100

  function BatchLimit(limit: int): nat {
    Max(1, Min(limit, MAX_BATCH))
  }

  function DueSources(t: Tables): set<SourceId> {
    set x | x in t.jobs && Due(t, x)
  }

  function ClaimAll(t: Tables, picked: seq<SourceId>): Tables
    decreases |picked|
  {
    if picked == [] then t else
    var before := ClaimAll(t, picked[..|picked| - 1]);
    var source := picked[|picked| - 1];
    if Due(before, source) then Claim(before, source) else before
  }

  function ClaimEvents(picked: seq<SourceId>): seq<Event> {
    seq(|picked|, i requires 0 <= i < |picked| => JobClaimed(picked[i]))
  }

  /** Claiming a batch is claiming its jobs one after another at the same instant. */
  lemma {:induction false} BatchIsClaims(s: State, picked: seq<SourceId>)
    ensures Execute(s, ClaimEvents(picked)).db == ClaimAll(s.db, picked)
    decreases |picked|
  {
    if picked != [] {
      var before := picked[..|picked| - 1];
      BatchIsClaims(s, before);
      assert ClaimEvents(picked)[..|picked| - 1] == ClaimEvents(before);
    }
  }

  /** The order of a claim: by schedule, then by creation. */
  predicate NoLater(a: Job, b: Job) {
    a.runAfter < b.runAfter || (a.runAfter == b.runAfter && a.createdAt <= b.createdAt)
  }

  /**
   `picked` are `limit` distinct due jobs, or all of them, in the order of schedule and creation; no
   due job left out comes earlier in that order.
   */
  ghost predicate EarliestDue(t: Tables, picked: seq<SourceId>, limit: nat) {
    && (forall i | 0 <= i < |picked| :: picked[i] in t.jobs && Due(t, picked[i]))
    && (forall i, j | 0 <= i < j < |picked| :: picked[i] != picked[j])
    && |picked| <= limit
    && (|picked| < limit ==> forall x :: x in t.jobs && Due(t, x) ==> x in picked)
    && (forall i, j | 0 <= i < j < |picked| ::
          t.jobs[picked[i]].runAfter < t.jobs[picked[j]].runAfter
          || (t.jobs[picked[i]].runAfter == t.jobs[picked[j]].runAfter
              && t.jobs[picked[i]].createdAt <= t.jobs[picked[j]].createdAt))
    && (forall i, x | 0 <= i < |picked| && x in t.jobs && Due(t, x) && x !in picked ::
          t.jobs[picked[i]].runAfter < t.jobs[x].runAfter
          || (t.jobs[picked[i]].runAfter == t.jobs[x].runAfter && t.jobs[picked[i]].createdAt <= t.jobs[x].createdAt))
  }

  /** Part way through a claim: `picked` are claimed, `due` are the due jobs left. */
  ghost predicate Picking(before: Tables, after: Tables, picked: seq<SourceId>, due: set<SourceId>) {
    && after == ClaimAll(before, picked) && after.sources == before.sources && after.now == before.now
    && due <= DueSources(before)
    && (forall x | x in due :: x in after.jobs && after.jobs[x] == before.jobs[x] && x !in picked)
    && (forall x | x in DueSources(before) :: x in due || x in picked)
    && (forall i | 0 <= i < |picked| :: picked[i] in DueSources(before))
    && (forall i, j | 0 <= i < j < |picked| :: picked[i] != picked[j])
    && |due| + |picked| == |DueSources(before)|
    && (forall i, j | 0 <= i < j < |picked| :: NoLater(before.jobs[picked[i]], before.jobs[picked[j]]))
    && (forall i, x | 0 <= i < |picked| && x in due :: NoLater(before.jobs[picked[i]], before.jobs[x]))
  }

  lemma PickedEarliest(before: Tables, after: Tables, picked: seq<SourceId>, due: set<SourceId>, limit: nat)
    requires Picking(before, after, picked, due) && |picked| <= limit && (due == {} || |picked| == limit)
    ensures EarliestDue(before, picked, limit)
  {
  }

  lemma PickNext(before: Tables, after: Tables, picked: seq<SourceId>, due: set<SourceId>, source: SourceId)
    requires Picking(before, after, picked, due) && source in due
    requires forall x | x in due :: NoLater(after.jobs[source], after.jobs[x])
    ensures Due(after, source) && Picking(before, Claim(after, source), picked + [source], due - {source})
  {
    assert (picked + [source])[..|picked|] == picked;
  }

  class Database {
    var now: Time
    var nextId: Id
    var sources: map<SourceId, Source>
    var runs: map<Id, Run>
    var rows: map<RowKey, Row>
    var scans: map<Id, Scan>
    var jobs: map<SourceId, Job>

    function Snapshot(): Tables
      reads this
    {
      Tables(now, nextId, sources, runs, rows, scans, jobs)
    }

    constructor (now: Time)
      ensures Snapshot() == Initial(now).db
    {
      this.now, nextId := now, 0;
      sources, runs, rows, scans, jobs := map[], map[], map[], map[], map[];
    }

    method EnqueueDiscoveryJob(source: SourceId, config: Source)
      modifies this
      ensures Snapshot() == PutSource(old(Snapshot()), source, config)
    {
      sources := sources[source := config];
      if config.isActive {
        if source !in jobs {
          jobs := jobs[source := Job(now, None, 0, now)];
        } else {
          jobs := jobs[source := jobs[source].(runAfter := Min(jobs[source].runAfter, now))];
        }
      }
    }

    /** `run` is the identifier the queued run receives unless the request is refused. */
    method Enqueue(target: Option<SourceId>, cooldown: int) returns (refusal: Option<Refusal>, run: Id)
      modifies this
      ensures Snapshot() == IngestionProtocol.Enqueue(old(Snapshot()), target, cooldown)
      ensures refusal == EnqueueRefusal(old(Snapshot()), target, cooldown)
      ensures run == old(nextId)
    {
      run := nextId;
      if exists r :: r in runs && runs[r].requestedAt > now - cooldown {
        return Some(RecentlyRequested), run;
      }
      var wanted := set x | x in sources && sources[x].isActive && (target == None || target == Some(x));
      if wanted == {} {
        return Some(NoEnabledConnector), run;
      }
      if exists k :: k in rows && k.source in wanted && rows[k].status.Active() {
        return Some(AlreadyRefreshing), run;
      }
      assert wanted == Targets(Snapshot(), target) && EnqueueRefusal(Snapshot(), target, cooldown) == None;
      nextId := nextId + 1;
      runs := runs[run := Run(Queued, now, None, None)];
      rows := rows + NewRows(run, wanted);
      jobs := map x | x in jobs :: if x in wanted then PulledForward(jobs[x], now) else jobs[x];
      refusal := None;
    }

    /** The due jobs with the earliest schedule, up to the clamped limit, each under a fresh lease. */
    method ClaimDiscoveryJobs(limit: int) returns (picked: seq<SourceId>)
      modifies this
      ensures Snapshot() == ClaimAll(old(Snapshot()), picked)
      ensures EarliestDue(old(Snapshot()), picked, if limit < 1 then 1 else if limit > 100 then 100 else limit)
    {
      ghost var before := Snapshot();
      var due := DueSources(Snapshot());
      picked := [];
      while due != {} && |picked| < BatchLimit(limit)
        invariant Picking(before, Snapshot(), picked, due) && |picked| <= BatchLimit(limit)
        decreases due
      {
        var source := Earliest(due);
        PickNext(before, Snapshot(), picked, due, source);
        ClaimOne(source);
        picked := picked + [source];
        due := due - {source};
      }
      PickedEarliest(before, Snapshot(), picked, due, BatchLimit(limit));
    }

    method ClaimOne(source: SourceId)
      requires Due(Snapshot(), source)
      modifies this`jobs, this`nextId
      ensures Snapshot() == Claim(old(Snapshot()), source)
    {
      var job := jobs[source];
      jobs := jobs[source := job.(lease := Some(Lease(nextId, now + LEASE_SECONDS)), attempts := job.attempts + 1)];
      nextId := nextId + 1;
    }

    method Earliest(due: set<SourceId>) returns (source: SourceId)
      requires due != {} && due <= jobs.Keys
      ensures source in due
      ensures forall x | x in due :: NoLater(jobs[source], jobs[x])
    {
      source :| source in due;
      var left := due - {source};
      while left != {}
        invariant source in due && left <= due
        invariant forall x | x in due - left :: NoLater(jobs[source], jobs[x])
        decreases left
      {
        var x :| x in left;
        if !NoLater(jobs[source], jobs[x]) {
          source := x;
        }
        left := left - {x};
      }
    }

    method StartScan(source: SourceId) returns (scan: Id)
      modifies this
      ensures Snapshot() == IngestionProtocol.StartScan(old(Snapshot()), source)
      ensures scan == old(nextId)
    {
      scan := nextId;
      nextId := nextId + 1;
      scans := scans[scan := Scan(source, Running, now, None, NO_COUNTS)];
      rows := map k | k in rows :: StartedRow(k, rows[k], source, scan, now);
      runs := map r | r in runs :: StartedRun(r, runs[r], rows, source, now);
    }

    method CompleteJob(source: SourceId, interval: nat, token: Id, scan: Id, counts: Counts)
      requires scan in scans
      modifies this
      ensures Snapshot() == CompleteScan(old(Snapshot()), source, interval, token, scan, counts)
    {
      scans := scans[scan := scans[scan].(status := Completed, completedAt := Some(now), counts := counts)];
      rows := map k | k in rows ::
        if ServedBy(k, rows[k], source, scan) then CompletedRow(rows[k], now, counts) else rows[k];
      CompleteIngestionRuns();
      if source in jobs && jobs[source].lease.Some? && jobs[source].lease.value.token == token {
        jobs := jobs[source := jobs[source].(runAfter := now + interval, lease := None)];
      }
    }

    method CompleteIngestionRuns()
      modifies this`runs
      ensures runs == ClosedRuns(old(runs), rows, now)
    {
      runs := map r | r in runs ::
        if runs[r].status.Active() && !(exists k :: k in rows && k.run == r && rows[k].status.Active())
        then runs[r].(
          status := if exists k :: k in rows && k.run == r && rows[k].status.Completed? then Completed else Failed,
          completedAt := Some(now))
        else runs[r];
    }

    /** `raised` reports the statement that overflowed; the transaction then leaves no trace. */
    method FailJob(source: SourceId, token: Id, scan: Option<Id>) returns (raised: bool)
      requires scan.Some? ==> scan.value in scans
      modifies this
      ensures Snapshot() == FailScan(old(Snapshot()), source, token, scan)
      ensures raised <==> FailRaises(old(Snapshot()), source, token)
    {
      var savedScans, savedRows, savedRuns := scans, rows, runs;
      if scan.Some? {
        scans := scans[scan.value := scans[scan.value].(status := Failed, completedAt := Some(now))];
        rows := map k | k in rows ::
          if ServedBy(k, rows[k], source, scan.value) then FailedRow(rows[k], now) else rows[k];
        CompleteIngestionRuns();
      }
      raised := false;
      if source in jobs && jobs[source].lease.Some? && jobs[source].lease.value.token == token {
        if jobs[source].attempts >= POWER_OVERFLOW {
          scans, rows, runs := savedScans, savedRows, savedRuns;
          raised := true;
        } else {
          jobs := jobs[source := jobs[source].(runAfter := now + Backoff(jobs[source].attempts), lease := None)];
        }
      }
    }
  }
}
