/**
 The briefing transactions over tables updated in place. Completion and failure run their
 statements in the order the repository issues them and undo them when the last one finds no
 matching job, which is proved to be the atomic step of the state machine.
 */
module BriefingDatabase {
  import opened Leases
  import opened Options
  import opened BriefingJobs

  /** `jobs` after the organizations `done` were taken, and how many were added. */
  ghost predicate JobsInserted(
    before: map<Key, Job>, done: set<Id>, date: Time, now: Time, jobs: map<Key, Job>, count: nat)
  {
    jobs == NewJobs(done, date, now) + before && |jobs| == |before| + count
  }

  lemma NoJobsYet(before: map<Key, Job>, date: Time, now: Time)
    ensures JobsInserted(before, {}, date, now, before, 0)
  {
  }

  lemma NothingTaken(all: set<Id>)
    ensures all - all == {}
  {
  }

  lemma OneMoreTaken(all: set<Id>, left: set<Id>, o: Id)
    requires o in left && left <= all
    ensures all - (left - {o}) == (all - left) + {o}
  {
  }

  lemma AllTaken(all: set<Id>, left: set<Id>)
    requires left == {}
    ensures all - left == all
  {
  }

  lemma NewJobsNext(done: set<Id>, date: Time, now: Time, o: Id)
    ensures NewJobs(done + {o}, date, now) == NewJobs(done, date, now)[Key(o, date) := Job(Pending, now, None, 0)]
  {
    assert forall x: Key :: x in NewJobs(done + {o}, date, now) <==> x.organization in done + {o} && x.date == date;
    assert forall x: Key :: x in NewJobs(done, date, now) <==> x.organization in done && x.date == date;
  }

  lemma UpdatedUnder<K, V>(m: map<K, V>, kept: map<K, V>, k: K, v: V)
    ensures m[k := v] + kept == if k in kept then m + kept else (m + kept)[k := v]
  {
  }

  lemma OneMoreJob(
    before: map<Key, Job>, done: set<Id>, date: Time, now: Time, jobs: map<Key, Job>, count: nat, o: Id)
    requires JobsInserted(before, done, date, now, jobs, count)
    ensures var k := Key(o, date);
      if k in jobs then JobsInserted(before, done + {o}, date, now, jobs, count)
      else JobsInserted(before, done + {o}, date, now, jobs[k := Job(Pending, now, None, 0)], count + 1)
  {
    var (k, job, fewer) := (Key(o, date), Job(Pending, now, None, 0), NewJobs(done, date, now));
    NewJobsNext(done, date, now, o);
    UpdatedUnder(fewer, before, k, job);
    if k in fewer {
      assert fewer[k := job] == fewer;
    }
  }

  class Database<C> {
    var now: Time
    var nextId: Id
    var subscriptions: map<Id, Subscription>
    var jobs: map<Key, Job>
    var briefings: map<Key, Briefing<C>>
    var deliveries: map<DeliveryKey, Delivery>

    function Snapshot(): Tables<C>
      reads this
    {
      Tables(now, nextId, subscriptions, jobs, briefings, deliveries)
    }

    constructor (now: Time)
      ensures Snapshot() == Initial(now).db
    {
      this.now, nextId := now, 0;
      subscriptions, jobs, briefings, deliveries := map[], map[], map[], map[];
    }

    /** The insert, or the update of the row it conflicts with. */
    method Subscribe(organization: Id, user: Id)
      requires SubscriptionsUnique(subscriptions)
      modifies this`subscriptions, this`nextId
      ensures Snapshot() == BriefingJobs.Subscribe(old(Snapshot()), organization, user)
    {
      if x :| x in subscriptions && SubscribedAs(Snapshot(), organization, user, x) {
        subscriptions := subscriptions[x := subscriptions[x].(isActive := true)];
      } else {
        subscriptions := subscriptions[nextId := Subscription(organization, user, true)];
        nextId := nextId + 1;
      }
    }

    method Unsubscribe(organization: Id, user: Id, x: Id) returns (found: bool)
      modifies this`subscriptions
      ensures Snapshot() == BriefingJobs.Unsubscribe(old(Snapshot()), organization, user, x)
      ensures found <==> SubscribedAs(old(Snapshot()), organization, user, x)
    {
      found := x in subscriptions && subscriptions[x].organization == organization && subscriptions[x].user == user;
      if found {
        subscriptions := subscriptions[x := subscriptions[x].(isActive := false)];
      }
    }

    method ClaimOne(k: Key) returns (token: Id)
      requires Due(Snapshot(), k)
      modifies this`jobs, this`nextId
      ensures Snapshot() == Claim(old(Snapshot()), k) && token == old(nextId)
    {
      token := nextId;
      var job := jobs[k];
      jobs := jobs[k := Job(Processing, job.runAfter, Some(Lease(token, now + LEASE_SECONDS)), job.attempts + 1)];
      nextId := nextId + 1;
    }

    /** One new job per organization with an active subscription and no job for the date yet. */
    method EnqueueForDate(date: Time) returns (count: nat)
      modifies this`jobs
      ensures Snapshot() == Enqueue(old(Snapshot()), SubscribedOrganizations(old(Snapshot())), date)
      ensures |jobs| == |old(jobs)| + count
    {
      count := InsertJobs(SubscribedOrganizations(Snapshot()), date);
    }

    method InsertJobs(organizations: set<Id>, date: Time) returns (count: nat)
      modifies this`jobs
      ensures jobs == NewJobs(organizations, date, now) + old(jobs)
      ensures |jobs| == |old(jobs)| + count
    {
      var left := organizations;
      var before, inserted := jobs, jobs;
      count := 0;
      NothingTaken(organizations);
      NoJobsYet(before, date, now);
      while left != {}
        invariant left <= organizations
        invariant JobsInserted(before, organizations - left, date, now, inserted, count)
        decreases left
      {
        var o :| o in left;
        OneMoreJob(before, organizations - left, date, now, inserted, count, o);
        OneMoreTaken(organizations, left, o);
        if Key(o, date) !in inserted {
          inserted := inserted[Key(o, date) := Job(Pending, now, None, 0)];
          count := count + 1;
        }
        left := left - {o};
      }
      AllTaken(organizations, left);
      jobs := inserted;
    }

    method CompleteJob(k: Key, token: Id, content: C) returns (leaseLost: bool)
      modifies this`briefings, this`deliveries, this`jobs
      ensures Snapshot() == Complete(old(Snapshot()), k, token, content)
      ensures leaseLost <==> !Leased(old(jobs), k, token)
    {
      var savedBriefings, savedDeliveries := briefings, deliveries;
      briefings := briefings[k := Briefing(content, now)];
      InsertDeliveries(k);
      if k in jobs && jobs[k].status.Processing? && jobs[k].lease.Some? && jobs[k].lease.value.token == token {
        jobs := jobs[k := jobs[k].(status := Completed, lease := None)];
        leaseLost := false;
      } else {
        briefings, deliveries := savedBriefings, savedDeliveries;
        leaseLost := true;
      }
    }

    /** Insert one delivery per active subscription, skipping those that already have one. */
    method InsertDeliveries(k: Key)
      modifies this`deliveries
      ensures deliveries == Delivered(subscriptions, k, now) + old(deliveries)
    {
      ghost var before := deliveries;
      var left := set x | x in subscriptions && subscriptions[x].organization == k.organization && subscriptions[x].isActive;
      while left != {}
        invariant left <= (set x | x in subscriptions && subscriptions[x].organization == k.organization
                                   && subscriptions[x].isActive)
        invariant forall d | d in before :: d in deliveries && deliveries[d] == before[d]
        invariant forall d | d in deliveries && d !in before ::
                    d in Delivered(subscriptions, k, now) && deliveries[d] == Delivery(now, None)
        invariant forall d | d in Delivered(subscriptions, k, now) :: d in deliveries || d.subscription in left
        decreases left
      {
        var x :| x in left;
        if DeliveryKey(k, x) !in deliveries {
          deliveries := deliveries[DeliveryKey(k, x) := Delivery(now, None)];
        }
        left := left - {x};
      }
    }

    method FailJob(k: Key, token: Id) returns (raised: bool)
      modifies this`jobs
      ensures Snapshot() == Fail(old(Snapshot()), k, token)
      ensures raised <==> Leased(old(jobs), k, token) && old(jobs)[k].attempts >= INTEGER_OVERFLOW
    {
      raised := false;
      if k in jobs && jobs[k].status.Processing? && jobs[k].lease.Some? && jobs[k].lease.value.token == token {
        if jobs[k].attempts >= INTEGER_OVERFLOW {
          raised := true;
        } else {
          jobs := jobs[k := jobs[k].(
            status := Failed, lease := None, runAfter := now + Min(MAX_BACKOFF_SECONDS, Pow2(jobs[k].attempts)))];
        }
      }
    }

    method MarkRead(briefing: Key, user: Id)
      modifies this`deliveries
      ensures Snapshot() == BriefingJobs.MarkRead(old(Snapshot()), briefing, user)
    {
      ghost var before := deliveries;
      var left := deliveries.Keys;
      while left != {}
        invariant left <= before.Keys && deliveries.Keys == before.Keys
        invariant forall d | d in left :: deliveries[d] == before[d]
        invariant forall d | d in before.Keys - left ::
                    deliveries[d] == BriefingJobs.MarkRead(old(Snapshot()), briefing, user).deliveries[d]
        decreases left
      {
        var d :| d in left;
        if d.briefing == briefing && d.subscription in subscriptions
           && subscriptions[d.subscription].organization == briefing.organization
           && subscriptions[d.subscription].user == user
        {
          if deliveries[d].readAt == None {
            deliveries := deliveries[d := deliveries[d].(readAt := Some(now))];
          }
        }
        left := left - {d};
      }
    }
  }
}
