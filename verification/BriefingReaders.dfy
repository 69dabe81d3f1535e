/**
 Who receives a briefing and who has read it, from what the readers asked for: the last word of a
 reader decides, over every run.
 */
module BriefingReaders {
  import opened BriefingJobs
  import opened Leases
  import opened Options

  /* ---- Subscribing ---- */

  ghost predicate ActiveReader(subscriptions: map<Id, Subscription>, organization: Id, user: Id) {
    exists x :: x in subscriptions && subscriptions[x] == Subscription(organization, user, true)
  }

  /** After subscribing the reader has an active subscription, and nobody else's has changed. */
  lemma SubscribeActivates<C>(t: Tables<C>, organization: Id, user: Id)
    requires t.nextId !in t.subscriptions
    ensures var after := Subscribe(t, organization, user).subscriptions;
      && ActiveReader(after, organization, user)
      && (forall x :: x in t.subscriptions ==> x in after)
      && (forall x :: x in after ==>
            if x in t.subscriptions && (t.subscriptions[x].organization != organization || t.subscriptions[x].user != user)
            then after[x] == t.subscriptions[x] else after[x] == Subscription(organization, user, true))
  {
    var after := Subscribe(t, organization, user).subscriptions;
    if x :| x in t.subscriptions && SubscribedAs(t, organization, user, x) {
      assert after[x] == Subscription(organization, user, true);
    } else {
      assert after[t.nextId] == Subscription(organization, user, true);
    }
  }

  /** The row named is the reader's own. */
  predicate Owns(subscriptions: map<Id, Subscription>, organization: Id, user: Id, x: Id) {
    x in subscriptions && subscriptions[x].organization == organization && subscriptions[x].user == user
  }

  /** Unsubscribing deactivates the reader's own row and no other; with one row a reader no active one is left. */
  lemma UnsubscribeDeactivates<C>(t: Tables<C>, organization: Id, user: Id, x: Id)
    ensures var after := Unsubscribe(t, organization, user, x).subscriptions;
      && after.Keys == t.subscriptions.Keys
      && (forall y :: y in after ==>
            after[y] == if y == x && Owns(t.subscriptions, organization, user, x) then Subscription(organization, user, false)
                        else t.subscriptions[y])
      && (SubscriptionsUnique(t.subscriptions) && Owns(t.subscriptions, organization, user, x) ==>
            !ActiveReader(after, organization, user))
  {
  }

  /* ---- The last word of a reader ---- */

  predicate AsksFor<C>(e: Event<C>, organization: Id, user: Id) {
    e.Subscribed? && e.organization == organization && e.user == user
  }

  /** An unsubscription that finds the reader's own row. */
  predicate CallsOff<C>(s: State<C>, e: Event<C>, organization: Id, user: Id) {
    && e.Unsubscribed? && e.organization == organization && e.user == user
    && Owns(s.db.subscriptions, organization, user, e.subscription)
  }

  /** The reader's last subscription or effective unsubscription was a subscription. */
  predicate Wants<C>(s: State<C>, events: seq<Event<C>>, organization: Id, user: Id)
    decreases |events|
  {
    if events == [] then false else
    var (before, e) := (events[..|events| - 1], events[|events| - 1]);
    if AsksFor(e, organization, user) then true
    else if CallsOff(Execute(s, before), e, organization, user) then false
    else Wants(s, before, organization, user)
  }

  lemma OthersKeepReader<C>(t: Tables<C>, other: Id, someone: Id, organization: Id, user: Id)
    requires t.nextId !in t.subscriptions && (other != organization || someone != user)
    ensures ActiveReader(Subscribe(t, other, someone).subscriptions, organization, user) <==>
            ActiveReader(t.subscriptions, organization, user)
  {
    SubscribeActivates(t, other, someone);
  }

  lemma UnsubscribeKeepsReader<C>(t: Tables<C>, other: Id, someone: Id, x: Id, organization: Id, user: Id)
    requires other != organization || someone != user || !Owns(t.subscriptions, organization, user, x)
    ensures ActiveReader(Unsubscribe(t, other, someone, x).subscriptions, organization, user) <==>
            ActiveReader(t.subscriptions, organization, user)
  {
    UnsubscribeDeactivates(t, other, someone, x);
  }

  lemma ReaderStep<C>(s: State<C>, e: Event<C>, organization: Id, user: Id)
    requires s.db.nextId !in s.db.subscriptions && SubscriptionsUnique(s.db.subscriptions)
    ensures ActiveReader(Step(s, e).db.subscriptions, organization, user) <==>
            if AsksFor(e, organization, user) then true
            else if CallsOff(s, e, organization, user) then false
            else ActiveReader(s.db.subscriptions, organization, user)
  {
    match e
    case Subscribed(other, someone) =>
      SubscribeActivates(s.db, other, someone);
      if !AsksFor(e, organization, user) {
        OthersKeepReader(s.db, other, someone, organization, user);
      }
    case Unsubscribed(other, someone, x) =>
      UnsubscribeDeactivates(s.db, other, someone, x);
      if !CallsOff(s, e, organization, user) {
        UnsubscribeKeepsReader(s.db, other, someone, x, organization, user);
      }
    case _ =>
  }

  lemma NextIdFree<C>(now: Time, events: seq<Event<C>>)
    ensures Execute(Initial(now), events).db.nextId !in Execute(Initial(now), events).db.subscriptions
    ensures SubscriptionsUnique(Execute(Initial(now), events).db.subscriptions)
  {
    ReachableInvariant(now, events);
    ReachableUnique(now, events);
  }

  /** Over every run a reader is active iff their last word was to subscribe. */
  lemma {:induction false} ActiveIffWanted<C>(now: Time, events: seq<Event<C>>, organization: Id, user: Id)
    ensures ActiveReader(Execute(Initial(now), events).db.subscriptions, organization, user) <==>
            Wants(Initial(now), events, organization, user)
    decreases |events|
  {
    if events != [] {
      var before := events[..|events| - 1];
      ActiveIffWanted(now, before, organization, user);
      NextIdFree(now, before);
      ReaderStep(Execute(Initial(now), before), events[|events| - 1], organization, user);
    }
  }

  /* ---- Whom a briefing reaches ---- */

  ghost predicate DeliveredTo<C>(t: Tables<C>, k: Key, user: Id) {
    exists x :: x in t.subscriptions && t.subscriptions[x].user == user && DeliveryKey(k, x) in t.deliveries
  }

  lemma PublicationReaches<C>(s: State<C>, e: Event<C>, k: Key, user: Id)
    requires Invariant(s) && Publishes(s, e, k)
    ensures DeliveredTo(Step(s, e).db, k, user) <==> ActiveReader(s.db.subscriptions, k.organization, user)
  {
    var t' := Step(s, e).db;
    assert t'.subscriptions == s.db.subscriptions;
    if x :| x in t'.subscriptions && t'.subscriptions[x].user == user && DeliveryKey(k, x) in t'.deliveries {
      DeliversToActiveSubscribers(s, e, k, x);
      assert s.db.subscriptions[x] == Subscription(k.organization, user, true);
    }
    if x :| x in s.db.subscriptions && s.db.subscriptions[x] == Subscription(k.organization, user, true) {
      DeliversToActiveSubscribers(s, e, k, x);
    }
  }

  lemma SubscriberStays<C>(s: State<C>, e: Event<C>, x: Id)
    requires s.db.nextId !in s.db.subscriptions && x in s.db.subscriptions
    ensures x in Step(s, e).db.subscriptions && Step(s, e).db.subscriptions[x].user == s.db.subscriptions[x].user
  {
  }

  lemma DeliveryStays<C>(s: State<C>, e: Event<C>, k: Key, user: Id)
    requires Invariant(s) && k in s.db.briefings
    ensures DeliveredTo(Step(s, e).db, k, user) <==> DeliveredTo(s.db, k, user)
  {
    var t' := Step(s, e).db;
    if x :| x in s.db.subscriptions && s.db.subscriptions[x].user == user && DeliveryKey(k, x) in s.db.deliveries {
      DeliveryOneStep(s, e, DeliveryKey(k, x));
      SubscriberStays(s, e, x);
    }
    if x :| x in t'.subscriptions && t'.subscriptions[x].user == user && DeliveryKey(k, x) in t'.deliveries {
      NoLateDelivery(s, e, DeliveryKey(k, x));
      assert x in s.db.subscriptions;
      SubscriberStays(s, e, x);
    }
  }

  lemma {:induction false} DeliveredForGood<C>(s: State<C>, events: seq<Event<C>>, k: Key, user: Id)
    requires Invariant(s) && k in s.db.briefings
    ensures Invariant(Execute(s, events)) && k in Execute(s, events).db.briefings
    ensures DeliveredTo(Execute(s, events).db, k, user) <==> DeliveredTo(s.db, k, user)
    decreases |events|
  {
    PublishedForever(s, events);
    if events != [] {
      DeliveredForGood(s, events[..|events| - 1], k, user);
      DeliveryStays(Execute(s, events[..|events| - 1]), events[|events| - 1], k, user);
    }
  }

  /**
   A briefing published in a run has, at any later time, a delivery to a reader iff the reader's
   last word before publication was to subscribe.
   */
  lemma DeliveredIffWanted<C>(
    now: Time, before: seq<Event<C>>, publication: Event<C>, after: seq<Event<C>>, k: Key, user: Id)
    requires Publishes(Execute(Initial(now), before), publication, k)
    ensures DeliveredTo(Execute(Step(Execute(Initial(now), before), publication), after).db, k, user) <==>
            Wants(Initial(now), before, k.organization, user)
  {
    var s := Execute(Initial(now), before);
    ReachableInvariant(now, before);
    PublicationReaches(s, publication, k, user);
    ActiveIffWanted(now, before, k.organization, user);
    PublishesOnce(s, publication, k);
    JobStepKeeps(s, publication);
    DeliveryStepKeeps(s, publication);
    DeliveredForGood(Step(s, publication), after, k, user);
  }

  /** The daily job covers an organization iff the last word of some reader was to subscribe. */
  lemma EnqueuedForReaders<C>(now: Time, events: seq<Event<C>>, organization: Id)
    ensures organization in SubscribedOrganizations(Execute(Initial(now), events).db) <==>
            exists user :: Wants(Initial(now), events, organization, user)
  {
    var subscriptions := Execute(Initial(now), events).db.subscriptions;
    if organization in SubscribedOrganizations(Execute(Initial(now), events).db) {
      var x :| x in subscriptions && subscriptions[x].isActive && subscriptions[x].organization == organization;
      assert subscriptions[x] == Subscription(organization, subscriptions[x].user, true);
      ActiveIffWanted(now, events, organization, subscriptions[x].user);
    }
    if user :| Wants(Initial(now), events, organization, user) {
      ActiveIffWanted(now, events, organization, user);
    }
  }

  /** Enqueueing adds a job due at once for each named organization without one, and nothing else. */
  lemma EnqueueAddsDue<C>(s: State<C>, organizations: set<Id>, date: Time, k: Key)
    ensures var (t, t') := (s.db, Step(s, Enqueued(organizations, date)).db);
      && t' == t.(jobs := t'.jobs)
      && (k in t'.jobs <==> k in t.jobs || (k.organization in organizations && k.date == date))
      && (k in t.jobs ==> t'.jobs[k] == t.jobs[k])
      && (k in t'.jobs && k !in t.jobs ==> t'.jobs[k] == Job(Pending, t.now, None, 0) && Due(t', k))
  {
  }

  /* ---- Who has read it ---- */

  /** Marking reads exactly the reader's deliveries of the briefing, now unless they were read before. */
  lemma MarkReads<C>(t: Tables<C>, briefing: Key, user: Id, d: DeliveryKey)
    requires d in t.deliveries
    ensures var (delivery, after) := (t.deliveries[d], MarkRead(t, briefing, user).deliveries);
      && d in after
      && after[d] == if d.briefing == briefing && Owns(t.subscriptions, briefing.organization, user, d.subscription)
                        && delivery.readAt == None
                     then Delivery(delivery.deliveredAt, Some(t.now)) else delivery
  {
  }

  /** The reader marks the briefing of this delivery. */
  predicate Marks<C>(e: Event<C>, d: DeliveryKey, user: Id) {
    e.MarkedRead? && e.briefing == d.briefing && e.user == user
  }

  lemma ReadStep<C>(s: State<C>, e: Event<C>, d: DeliveryKey, user: Id)
    requires Invariant(s) && d in s.db.deliveries && s.db.subscriptions[d.subscription].user == user
    ensures d in Step(s, e).db.deliveries
    ensures Step(s, e).db.deliveries[d].readAt ==
            if s.db.deliveries[d].readAt == None && Marks(e, d, user) then Some(s.db.now) else s.db.deliveries[d].readAt
    ensures d.subscription in Step(s, e).db.subscriptions && Step(s, e).db.subscriptions[d.subscription].user == user
  {
    SubscriberStays(s, e, d.subscription);
    DeliveryOneStep(s, e, d);
    if e.MarkedRead? {
      MarkReads(s.db, e.briefing, e.user, d);
    } else if e.JobCompleted? {
      UnmarkedStays(s, e, d);
    }
  }

  lemma UnmarkedStays<C>(s: State<C>, e: Event<C>, d: DeliveryKey)
    requires Invariant(s) && d in s.db.deliveries && e.JobCompleted?
    ensures d in Step(s, e).db.deliveries && Step(s, e).db.deliveries[d] == s.db.deliveries[d]
  {
  }

  /** A delivery that was unread is read later iff its own reader marked the briefing meanwhile. */
  lemma {:induction false} ReadIffMarked<C>(s: State<C>, events: seq<Event<C>>, d: DeliveryKey, user: Id)
    requires Invariant(s) && d in s.db.deliveries && s.db.deliveries[d].readAt == None
    requires s.db.subscriptions[d.subscription].user == user
    ensures var s' := Execute(s, events);
      && Invariant(s') && d in s'.db.deliveries
      && d.subscription in s'.db.subscriptions && s'.db.subscriptions[d.subscription].user == user
      && (s'.db.deliveries[d].readAt.Some? <==> exists i :: 0 <= i < |events| && Marks(events[i], d, user))
    decreases |events|
  {
    PublishedForever(s, events);
    if events != [] {
      var (before, e) := (events[..|events| - 1], events[|events| - 1]);
      ReadIffMarked(s, before, d, user);
      ReadStep(Execute(s, before), e, d, user);
      if i :| 0 <= i < |before| && Marks(before[i], d, user) {
        assert Marks(events[i], d, user);
      }
    }
  }

  /* ---- Retries and leases ---- */

  /** A claim leases the job for ten minutes and counts the attempt. */
  lemma ClaimLeases<C>(s: State<C>, k: Key)
    requires Due(s.db, k)
    ensures var (t, s') := (s.db, Step(s, JobClaimed(k)));
      && s'.claims == s.claims[t.nextId := k] && s'.db.nextId == t.nextId + 1
      && s'.db.jobs == t.jobs[k := Job(Processing, t.jobs[k].runAfter, Some(Lease(t.nextId, t.now + 600)), t.jobs[k].attempts + 1)]
  {
  }

  /** A failure under the stored token delays the job by a second doubled with every attempt, an hour at most. */
  lemma FailureReschedules<C>(s: State<C>, token: Id)
    requires token in s.claims
    ensures var (t, k, t') := (s.db, s.claims[token], Step(s, JobFailed(token)).db);
      t' == if k in t.jobs && t.jobs[k].status.Processing? && t.jobs[k].lease.Some?
               && t.jobs[k].lease.value.token == token && t.jobs[k].attempts < 31
            then t.(jobs := t.jobs[k := Job(Failed, t.now + Min(3600, Pow2(t.jobs[k].attempts)), None, t.jobs[k].attempts)])
            else t
  {
  }

  /** The delay is one second after no attempt and doubles up to an hour. */
  lemma DelayDoubles(attempts: nat)
    ensures Min(3600, Pow2(0)) == 1 && Min(3600, Pow2(attempts + 1)) == Min(3600, 2 * Min(3600, Pow2(attempts)))
  {
  }

  predicate Reports<C>(e: Event<C>, token: Id) {
    (e.JobCompleted? || e.JobFailed?) && e.token == token
  }

  ghost predicate Stands<C>(s: State<C>, k: Key, job: Job) {
    k in s.db.jobs && s.db.jobs[k] == job
  }

  lemma StandsStep<C>(s: State<C>, e: Event<C>, k: Key, job: Job)
    requires Stands(s, k, job) && (e == JobClaimed(k) ==> !Due(s.db, k))
    requires job.lease.Some? ==> !Reports(e, job.lease.value.token)
    ensures Stands(Step(s, e), k, job) && s.db.now <= Step(s, e).db.now
  {
  }

  /** A job nobody holds waits for its schedule, whatever else happens. */
  lemma {:induction false} WaitsForSchedule<C>(s: State<C>, events: seq<Event<C>>, k: Key, job: Job)
    requires Stands(s, k, job) && job.lease == None
    ensures Execute(s, events).db.now < job.runAfter ==> Stands(Execute(s, events), k, job) && !Due(Execute(s, events).db, k)
    decreases |events|
  {
    if events != [] {
      var (before, e) := (events[..|events| - 1], events[|events| - 1]);
      WaitsForSchedule(s, before, k, job);
      TimeForward(Execute(s, before), e);
      if Execute(s, events).db.now < job.runAfter {
        StandsStep(Execute(s, before), e, k, job);
      }
    }
  }

  lemma TimeForward<C>(s: State<C>, e: Event<C>)
    ensures s.db.now <= Step(s, e).db.now
  {
  }

  /** After a failed attempt nothing lets the job be claimed before its delay has passed. */
  lemma RetryPace<C>(s: State<C>, token: Id, events: seq<Event<C>>)
    requires token in s.claims && Leased(s.db.jobs, s.claims[token], token) && s.db.jobs[s.claims[token]].attempts < 31
    ensures var (k, s') := (s.claims[token], Execute(Step(s, JobFailed(token)), events));
      s'.db.now < s.db.now + Min(3600, Pow2(s.db.jobs[k].attempts)) ==> !Due(s'.db, k)
  {
    var (k, failed) := (s.claims[token], Step(s, JobFailed(token)));
    FailureReschedules(s, token);
    WaitsForSchedule(failed, events, k, failed.db.jobs[k]);
  }

  lemma {:induction false} LeaseLasts<C>(s: State<C>, events: seq<Event<C>>, k: Key, job: Job)
    requires Stands(s, k, job) && job.status.Processing? && job.lease.Some?
    requires forall i :: 0 <= i < |events| ==> !Reports(events[i], job.lease.value.token)
    ensures Execute(s, events).db.now <= job.lease.value.until ==>
              Stands(Execute(s, events), k, job) && !Due(Execute(s, events).db, k)
    decreases |events|
  {
    if events != [] {
      var (before, e) := (events[..|events| - 1], events[|events| - 1]);
      assert !Reports(e, job.lease.value.token);
      LeaseLasts(s, before, k, job);
      TimeForward(Execute(s, before), e);
      if Execute(s, events).db.now <= job.lease.value.until {
        StandsStep(Execute(s, before), e, k, job);
      }
    }
  }

  /** Unless its worker reports, a claimed job is nobody else's for ten minutes. */
  lemma ClaimExcludes<C>(s: State<C>, k: Key, events: seq<Event<C>>)
    requires Due(s.db, k) && forall i :: 0 <= i < |events| ==> !Reports(events[i], s.db.nextId)
    ensures var s' := Execute(Step(s, JobClaimed(k)), events); s'.db.now <= s.db.now + 600 ==> !Due(s'.db, k)
  {
    var claimed := Step(s, JobClaimed(k));
    ClaimLeases(s, k);
    LeaseLasts(claimed, events, k, claimed.db.jobs[k]);
  }

  /** The clock moves with the ticks, second by second, and with nothing else. */
  lemma ClockMoves<C>(s: State<C>, e: Event<C>)
    ensures Step(s, e).db.now == s.db.now + if e.Tick? then e.seconds else 0
  {
  }
}
