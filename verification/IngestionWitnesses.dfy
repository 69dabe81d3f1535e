/**
 Two runs of the refresh protocol that end where the guarantees stop: a refresh that no worker
 can end, and a completed refresh whose scan is recorded as failed.
 */
module IngestionWitnesses {
  import opened IngestionProtocol
  import opened Leases
  import opened Options
  import opened IngestionTheorems

  const SETUP: seq<Event> := [SourceAdded(0, 3600, true), RefreshRequested(None, 300), JobClaimed(0)]

  const REFRESH := RowKey(0, 0)

  /** After the set-up the worker with token 1 holds source 0 and the refresh is queued. */
  ghost predicate Claimed1(s: State, now: Time) {
    && s.db.now == now && s.db.nextId == 2
    && s.workers == map[1 := Worker(0, 3600, now + LEASE_SECONDS, Claimed)]
    && s.db.rows == map[REFRESH := NEW_ROW]
    && s.db.runs == map[0 := Run(Queued, now, None, None)]
    && s.db.scans == map[]
    && s.db.jobs == map[0 := Job(now, Some(Lease(1, now + LEASE_SECONDS)), 1, now)]
  }

  lemma AfterSource(now: Time)
    ensures var s := Step(Initial(now), SETUP[0]);
      && s.db == Tables(now, 0, map[0 := Source(3600, true, 3600)], map[], map[], map[], map[0 := Job(now, None, 0, now)])
      && s.workers == map[]
  {
  }

  lemma AfterRequest(s: State, now: Time)
    requires s.db == Tables(now, 0, map[0 := Source(3600, true, 3600)], map[], map[], map[], map[0 := Job(now, None, 0, now)])
    requires s.workers == map[]
    ensures var s' := Step(s, SETUP[1]);
      && s'.db == Tables(now, 1, map[0 := Source(3600, true, 3600)], map[0 := Run(Queued, now, None, None)],
                         map[REFRESH := NEW_ROW], map[], map[0 := Job(now, None, 0, now)])
      && s'.workers == map[]
  {
    assert Targets(s.db, None) == {0};
    assert NewRows(0, {0}) == map[REFRESH := NEW_ROW];
  }

  lemma AfterSetup(now: Time)
    ensures Claimed1(Execute(Initial(now), SETUP), now)
  {
    AfterSource(now);
    AfterRequest(Step(Initial(now), SETUP[0]), now);
    assert SETUP[..2][..1] == SETUP[..1] && SETUP[..1][..0] == [];
    assert Execute(Initial(now), SETUP[..1]) == Step(Initial(now), SETUP[0]);
    assert Execute(Initial(now), SETUP[..2]) == Step(Step(Initial(now), SETUP[0]), SETUP[1]);
  }

  lemma ReachableNext(now: Time, events: seq<Event>, e: Event)
    ensures Execute(Initial(now), events + [e]) == Step(Execute(Initial(now), events), e)
    ensures Reachable(Execute(Initial(now), events + [e]))
  {
    assert (events + [e])[..|events|] == events;
  }

  lemma StuckStep(s: State, now: Time)
    requires Claimed1(s, now)
    ensures Stuck(Step(s, ScanStarted(1, false)), REFRESH)
  {
  }

  /** A scan that starts without the worker learning of it leaves a refresh that nothing ends. */
  lemma StuckIsReachable(now: Time)
    ensures exists s: State :: Reachable(s) && Stuck(s, REFRESH)
  {
    AfterSetup(now);
    StuckStep(Execute(Initial(now), SETUP), now);
    ReachableNext(now, SETUP, ScanStarted(1, false));
  }

  /** The worker has a scan, completed or not, and the refresh row follows it. */
  ghost predicate Serving(s: State, phase: Phase, status: Status)
    requires 1 in s.workers && REFRESH in s.db.rows && 2 in s.db.scans
  {
    && s.workers == map[1 := s.workers[1]] && s.workers[1].source == 0 && s.workers[1].phase == phase
    && s.db.rows == map[REFRESH := s.db.rows[REFRESH]] && s.db.rows[REFRESH].scan == Some(2)
    && s.db.rows[REFRESH].status == status && s.db.scans == map[2 := s.db.scans[2]] && s.db.scans[2].status == status
  }

  lemma Started(s: State, now: Time)
    requires Claimed1(s, now)
    ensures var s' := Step(s, ScanStarted(1, true));
      1 in s'.workers && REFRESH in s'.db.rows && 2 in s'.db.scans && Serving(s', Scanning(2), Running)
  {
  }

  lemma Finished(s: State)
    requires 1 in s.workers && REFRESH in s.db.rows && 2 in s.db.scans && Serving(s, Scanning(2), Running)
    ensures var s' := Step(s, ScanCompleted(1, NO_COUNTS, false));
      && 1 in s'.workers && REFRESH in s'.db.rows && 2 in s'.db.scans && Serving(s', Reported(2), Completed)
      && !Leased(s'.db.jobs, 0, 1)
  {
  }

  /** A completed refresh whose scan is recorded as failed. */
  ghost predicate Disagrees(s: State) {
    && REFRESH in s.db.rows && s.db.rows[REFRESH].status.Completed? && s.db.rows[REFRESH].scan == Some(2)
    && 2 in s.db.scans && s.db.scans[2].status.Failed?
  }

  lemma ReportedFailed(s: State)
    requires 1 in s.workers && REFRESH in s.db.rows && 2 in s.db.scans && Serving(s, Reported(2), Completed)
    requires !Leased(s.db.jobs, 0, 1)
    ensures Disagrees(Step(s, ScanFailed(1)))
  {
  }

  /** A completion committed but not acknowledged ends as a completed refresh with a failed scan. */
  lemma DisagreementIsReachable(now: Time)
    ensures exists s: State :: Reachable(s) && Disagrees(s)
  {
    var (a, b, c) := (ScanStarted(1, true), ScanCompleted(1, NO_COUNTS, false), ScanFailed(1));
    AfterSetup(now);
    Started(Execute(Initial(now), SETUP), now);
    ReachableNext(now, SETUP, a);
    Finished(Execute(Initial(now), SETUP + [a]));
    ReachableNext(now, SETUP + [a], b);
    ReportedFailed(Execute(Initial(now), SETUP + [a] + [b]));
    ReachableNext(now, SETUP + [a] + [b], c);
  }
}
