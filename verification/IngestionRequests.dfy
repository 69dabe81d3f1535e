/**
 Which sources a refresh request queues, when it is refused, and how far apart two accepted
 requests are.  Nothing here speaks through the selection the request itself computes.
 */
module IngestionRequests {
  import opened IngestionProtocol
  import opened IngestionInvariants
  import opened Leases
  import opened Options

  /** A request without a source names every source. */
  predicate Names(target: Option<SourceId>, x: SourceId) {
    target.Some? ==> target.value == x
  }

  predicate ActivelyNamed(t: Tables, target: Option<SourceId>, x: SourceId) {
    x in t.sources && t.sources[x].isActive && Names(target, x)
  }

  ghost predicate Accepted(t: Tables, target: Option<SourceId>, cooldown: int) {
    EnqueueRefusal(t, target, cooldown) == None
  }

  /** The three refusals, in the order in which they are tried. */
  lemma RefusedIff(t: Tables, target: Option<SourceId>, cooldown: int)
    ensures var refusal := EnqueueRefusal(t, target, cooldown);
      var recent := exists r :: r in t.runs && t.runs[r].requestedAt > t.now - cooldown;
      var named := exists x :: ActivelyNamed(t, target, x);
      var running := exists k :: k in t.rows && t.rows[k].status.Active() && ActivelyNamed(t, target, k.source);
      && (refusal == Some(RecentlyRequested) <==> recent)
      && (refusal == Some(NoEnabledConnector) <==> !recent && !named)
      && (refusal == Some(AlreadyRefreshing) <==> !recent && running)
      && (refusal == None <==> !recent && named && !running)
      && (refusal.Some? ==> Enqueue(t, target, cooldown) == t)
  {
    NamedAreTargets(t, target);
    if x :| ActivelyNamed(t, target, x) {
      assert x in Targets(t, target);
    } else {
      assert Targets(t, target) == {};
    }
    if k :| k in t.rows && t.rows[k].status.Active() && ActivelyNamed(t, target, k.source) {
      assert RefreshActive(t.rows, Targets(t, target)) && ActivelyNamed(t, target, k.source);
    }
  }

  lemma NamedAreTargets(t: Tables, target: Option<SourceId>)
    ensures forall x :: x in Targets(t, target) <==> ActivelyNamed(t, target, x)
  {
  }

  /**
   An accepted request adds one queued run and one queued row for exactly each active source it
   names; every other row and run stays.
   */
  lemma AcceptedQueuesNamed(t: Tables, target: Option<SourceId>, cooldown: int, k: RowKey)
    requires Accepted(t, target, cooldown) && RowsOwned(t.runs, t.rows) && t.nextId !in t.runs
    ensures var t' := Enqueue(t, target, cooldown);
      && t'.runs == t.runs[t.nextId := Run(Queued, t.now, None, None)]
      && t'.nextId == t.nextId + 1 && t'.scans == t.scans && t'.sources == t.sources && t'.now == t.now
      && (k in t'.rows <==> k in t.rows || (k.run == t.nextId && ActivelyNamed(t, target, k.source)))
      && (k in t.rows ==> t'.rows[k] == t.rows[k])
      && (k in t'.rows && k !in t.rows ==> t'.rows[k] == Row(Queued, None, None, None, NO_COUNTS))
  {
    NamedAreTargets(t, target);
    var added := NewRows(t.nextId, Targets(t, target));
    assert k in added <==> k.run == t.nextId && ActivelyNamed(t, target, k.source) by {
      if k.run == t.nextId && ActivelyNamed(t, target, k.source) {
        assert k == RowKey(t.nextId, k.source);
      }
    }
  }

  /**
   It makes every free job of such a source due at once; a job under an unexpired lease, and the
   job of any other source, stays as it is.
   */
  lemma AcceptedPullsNamed(t: Tables, target: Option<SourceId>, cooldown: int, x: SourceId)
    requires Accepted(t, target, cooldown) && x in t.jobs
    ensures var (t', free) := (Enqueue(t, target, cooldown), t.jobs[x].lease.Some? ==> t.jobs[x].lease.value.until < t.now);
      && t'.jobs.Keys == t.jobs.Keys
      && (ActivelyNamed(t, target, x) && free ==>
            Due(t', x) && t'.jobs[x] == t.jobs[x].(runAfter := Min(t.jobs[x].runAfter, t.now)))
      && (!(ActivelyNamed(t, target, x) && free) ==> t'.jobs[x] == t.jobs[x])
  {
    NamedAreTargets(t, target);
  }

  /** A request for one source, accepted or not, touches no row and no job of another. */
  lemma RequestTouchesOnly(t: Tables, x: SourceId, cooldown: int)
    ensures var t' := Enqueue(t, Some(x), cooldown);
      && (forall k :: k in t'.rows ==> (k in t.rows && t'.rows[k] == t.rows[k]) || k == RowKey(t.nextId, x))
      && t'.jobs.Keys == t.jobs.Keys
      && (forall y :: y in t.jobs && y != x ==> t'.jobs[y] == t.jobs[y])
  {
    NamedAreTargets(t, Some(x));
  }

  /* ---- The cooldown over runs ---- */

  lemma RunStays(s: State, e: Event, r: Id)
    requires r in s.db.runs && r < s.db.nextId
    ensures r in Step(s, e).db.runs && Step(s, e).db.runs[r].requestedAt == s.db.runs[r].requestedAt
    ensures s.db.nextId <= Step(s, e).db.nextId
  {
  }

  lemma {:induction false} RunStaysOverRuns(s: State, events: seq<Event>, r: Id)
    requires r in s.db.runs && r < s.db.nextId
    ensures var s' := Execute(s, events);
      r in s'.db.runs && r < s'.db.nextId && s'.db.runs[r].requestedAt == s.db.runs[r].requestedAt
    decreases |events|
  {
    if events != [] {
      var before := events[..|events| - 1];
      RunStaysOverRuns(s, before, r);
      RunStays(Execute(s, before), events[|events| - 1], r);
    }
  }

  /** Whatever happens in between, a request is accepted only its cooldown after any earlier accepted one. */
  lemma AcceptedSpaced(
    s: State, target: Option<SourceId>, cooldown: int, events: seq<Event>, target': Option<SourceId>, cooldown': int)
    requires Accepted(s.db, target, cooldown)
    requires var s' := Execute(Step(s, RefreshRequested(target, cooldown)), events); Accepted(s'.db, target', cooldown')
    ensures Execute(Step(s, RefreshRequested(target, cooldown)), events).db.now >= s.db.now + cooldown'
  {
    var first := Step(s, RefreshRequested(target, cooldown));
    var s' := Execute(first, events);
    assert first.db.runs[s.db.nextId].requestedAt == s.db.now;
    RunStaysOverRuns(first, events, s.db.nextId);
    RefusedIff(s'.db, target', cooldown');
    assert !(s'.db.runs[s.db.nextId].requestedAt > s'.db.now - cooldown');
  }
}
