/**
 The briefing job protocol: at-least-once execution under leases, exactly-once publication.
 A completion writes the briefing and its deliveries first and then closes the job under its
 token; if the token is no longer stored the whole transaction is rolled back.

 The founder brief uses the same protocol over its own tables, without subscriptions, so it
 is the instance in which `subscriptions` stays empty.
 */
module BriefingJobs {
  import opened Leases
  import opened Options

  type Id = nat
  type Time = int

  const MAX_BACKOFF_SECONDS := 3600
  // power(2, n)::integer raises "integer out of range" from this exponent on.
  const INTEGER_OVERFLOW := 31

  datatype Key = Key(organization: Id, date: Time)

  datatype Subscription = Subscription(organization: Id, user: Id, isActive: bool)

  datatype JobStatus = Pending | Processing | Completed | Failed

  datatype Job = Job(status: JobStatus, runAfter: Time, lease: Option<Lease>, attempts: nat)

  datatype Briefing<C> = Briefing(content: C, generatedAt: Time)

  datatype DeliveryKey = DeliveryKey(briefing: Key, subscription: Id)

  // A delivery is read when `readAt` is set.
  datatype Delivery = Delivery(deliveredAt: Time, readAt: Option<Time>)

  datatype Tables<C> = Tables(
    now: Time,
    nextId: Id,
    subscriptions: map<Id, Subscription>,
    jobs: map<Key, Job>,
    briefings: map<Key, Briefing<C>>,
    deliveries: map<DeliveryKey, Delivery>)

  /* ---- Subscribers ---- */

  predicate SubscribedAs(t: Tables, organization: Id, user: Id, x: Id) {
    x in t.subscriptions && t.subscriptions[x].organization == organization && t.subscriptions[x].user == user
  }

  /** Subscribing reactivates the user's subscription or creates it. */
  function Subscribe<C>(t: Tables<C>, organization: Id, user: Id): Tables<C> {
    if exists x :: x in t.subscriptions && SubscribedAs(t, organization, user, x)
    then t.(subscriptions := map x | x in t.subscriptions ::
              if SubscribedAs(t, organization, user, x) then t.subscriptions[x].(isActive := true) else t.subscriptions[x])
    else t.(nextId := t.nextId + 1,
            subscriptions := t.subscriptions[t.nextId := Subscription(organization, user, true)])
  }

  function Unsubscribe<C>(t: Tables<C>, organization: Id, user: Id, x: Id): Tables<C> {
    if SubscribedAs(t, organization, user, x)
    then t.(subscriptions := t.subscriptions[x := t.subscriptions[x].(isActive := false)])
    else t
  }

  function ReadDelivery(d: Delivery, now: Time): Delivery {
    d.(readAt := if d.readAt.Some? then d.readAt else Some(now))
  }

  function MarkRead<C>(t: Tables<C>, briefing: Key, user: Id): Tables<C> {
    t.(deliveries := map k | k in t.deliveries ::
         if k.briefing == briefing && SubscribedAs(t, briefing.organization, user, k.subscription)
         then ReadDelivery(t.deliveries[k], t.now)
         else t.deliveries[k])
  }

  /* ---- Jobs ---- */

  function NewJobs(organizations: set<Id>, date: Time, now: Time): map<Key, Job> {
    var keys := set o | o in organizations :: Key(o, date);
    map k | k in keys :: Job(Pending, now, None, 0)
  }

  function SubscribedOrganizations(t: Tables): set<Id> {
    set x | x in t.subscriptions && t.subscriptions[x].isActive :: t.subscriptions[x].organization
  }

  /** Existing jobs are left alone: ON CONFLICT DO NOTHING. */
  function Enqueue<C>(t: Tables<C>, organizations: set<Id>, date: Time): Tables<C> {
    t.(jobs := NewJobs(organizations, date, t.now) + t.jobs)
  }

  predicate Due(t: Tables, k: Key) {
    && k in t.jobs
    && t.jobs[k].runAfter <= t.now
    && match t.jobs[k].status
       case Pending => true
       case Failed => true
       case Processing => t.jobs[k].lease.Some? && t.jobs[k].lease.value.until < t.now
       case Completed => false
  }

  function Claim<C>(t: Tables<C>, k: Key): Tables<C>
    requires k in t.jobs
  {
    var job := t.jobs[k];
    t.(nextId := t.nextId + 1,
       jobs := t.jobs[k := Job(Processing, job.runAfter, Some(Lease(t.nextId, t.now + LEASE_SECONDS)), job.attempts + 1)])
  }

  predicate Leased(jobs: map<Key, Job>, k: Key, token: Id) {
    k in jobs && jobs[k].status.Processing? && jobs[k].lease.Some? && jobs[k].lease.value.token == token
  }

  /** One available delivery per active subscription of the briefing's organization. */
  function Delivered(subscriptions: map<Id, Subscription>, k: Key, now: Time): map<DeliveryKey, Delivery> {
    var keys := set x | x in subscriptions && subscriptions[x].organization == k.organization && subscriptions[x].isActive ::
      DeliveryKey(k, x);
    map d | d in keys :: Delivery(now, None)
  }

  function Complete<C>(t: Tables<C>, k: Key, token: Id, content: C): Tables<C> {
    if Leased(t.jobs, k, token)
    then t.(briefings := t.briefings[k := Briefing(content, t.now)],
            deliveries := Delivered(t.subscriptions, k, t.now) + t.deliveries,
            jobs := t.jobs[k := t.jobs[k].(status := Completed, lease := None)])
    else t
  }

  function Fail<C>(t: Tables<C>, k: Key, token: Id): Tables<C> {
    if Leased(t.jobs, k, token) && t.jobs[k].attempts < INTEGER_OVERFLOW
    then t.(jobs := t.jobs[k := t.jobs[k].(
                status := Failed, lease := None,
                runAfter := t.now + Min(MAX_BACKOFF_SECONDS, Pow2(t.jobs[k].attempts)))])
    else t
  }

  /* ---- Steps ---- */

  // `claims` records which job each token was issued for.
  datatype State<C> = State(db: Tables<C>, claims: map<Id, Key>)

  datatype Event<C> =
    | Tick(seconds: nat)
    | Subscribed(organization: Id, user: Id)
    | Unsubscribed(organization: Id, user: Id, subscription: Id)
    | Enqueued(organizations: set<Id>, date: Time)
    | JobClaimed(key: Key)
    | JobCompleted(token: Id, content: C)
    | JobFailed(token: Id)
    | MarkedRead(briefing: Key, user: Id)

  function Step<C>(s: State<C>, e: Event<C>): State<C> {
    match e
    case Tick(seconds) => s.(db := s.db.(now := s.db.now + seconds))
    case Subscribed(organization, user) => s.(db := Subscribe(s.db, organization, user))
    case Unsubscribed(organization, user, x) => s.(db := Unsubscribe(s.db, organization, user, x))
    case Enqueued(organizations, date) => s.(db := Enqueue(s.db, organizations, date))
    case JobClaimed(k) => if Due(s.db, k) then State(Claim(s.db, k), s.claims[s.db.nextId := k]) else s
    case JobCompleted(token, content) =>
      if token in s.claims then s.(db := Complete(s.db, s.claims[token], token, content)) else s
    case JobFailed(token) => if token in s.claims then s.(db := Fail(s.db, s.claims[token], token)) else s
    case MarkedRead(briefing, user) => s.(db := MarkRead(s.db, briefing, user))
  }

  function Execute<C>(s: State<C>, events: seq<Event<C>>): State<C>
    decreases |events|
  {
    if events == [] then s else Step(Execute(s, events[..|events| - 1]), events[|events| - 1])
  }

  function Initial<C>(now: Time): State<C> {
    State(Tables(now, 0, map[], map[], map[], map[]), map[])
  }

  /* ---- Invariant ---- */

  ghost predicate JobsSound(jobs: map<Key, Job>, claims: map<Id, Key>, next: Id, now: Time) {
    && (forall k :: k in jobs ==>
          && (jobs[k].lease.Some? <==> jobs[k].status.Processing?)
          && jobs[k].runAfter <= now + MAX_BACKOFF_SECONDS
          && (jobs[k].lease.Some? ==>
                && jobs[k].lease.value.until <= now + LEASE_SECONDS
                && jobs[k].lease.value.token in claims && claims[jobs[k].lease.value.token] == k))
    && (forall t :: t in claims ==> t < next)
  }

  ghost predicate PublishedIffCompleted<C>(jobs: map<Key, Job>, briefings: map<Key, Briefing<C>>) {
    forall k :: k in briefings <==> k in jobs && jobs[k].status.Completed?
  }

  ghost predicate DeliveriesSound<C>(t: Tables<C>) {
    && (forall x :: x in t.subscriptions ==> x < t.nextId)
    && (forall d :: d in t.deliveries ==>
          && d.briefing in t.briefings
          && d.subscription in t.subscriptions
          && t.subscriptions[d.subscription].organization == d.briefing.organization
          && t.deliveries[d].deliveredAt == t.briefings[d.briefing].generatedAt
          && t.deliveries[d].deliveredAt <= t.now
          && (t.deliveries[d].readAt.Some? ==> t.deliveries[d].deliveredAt <= t.deliveries[d].readAt.value <= t.now))
  }

  ghost predicate Invariant<C>(s: State<C>) {
    && JobsPart(s)
    && DeliveriesSound(s.db)
  }

  /** The jobs part of the invariant. */
  ghost predicate JobsPart<C>(s: State<C>) {
    JobsSound(s.db.jobs, s.claims, s.db.nextId, s.db.now) && PublishedIffCompleted(s.db.jobs, s.db.briefings)
  }

  lemma EnqueueKeeps<C>(s: State<C>, organizations: set<Id>, date: Time)
    requires JobsPart(s)
    ensures JobsPart(s.(db := Enqueue(s.db, organizations, date)))
  {
  }

  lemma ClaimKeeps<C>(s: State<C>, k: Key)
    requires JobsPart(s) && Due(s.db, k)
    ensures JobsPart(State(Claim(s.db, k), s.claims[s.db.nextId := k]))
  {
  }

  lemma CompleteKeeps<C>(s: State<C>, k: Key, token: Id, content: C)
    requires JobsPart(s)
    ensures JobsPart(s.(db := Complete(s.db, k, token, content)))
  {
  }

  lemma FailKeeps<C>(s: State<C>, k: Key, token: Id)
    requires JobsPart(s)
    ensures JobsPart(s.(db := Fail(s.db, k, token)))
  {
  }

  lemma JobStepKeeps<C>(s: State<C>, e: Event<C>)
    requires JobsPart(s)
    ensures JobsPart(Step(s, e))
  {
    match e
    case Tick(_) =>
    case Subscribed(_, _) =>
    case Unsubscribed(_, _, _) =>
    case MarkedRead(_, _) =>
    case Enqueued(organizations, date) => EnqueueKeeps(s, organizations, date);
    case JobClaimed(k) => if Due(s.db, k) { ClaimKeeps(s, k); }
    case JobCompleted(token, content) => if token in s.claims { CompleteKeeps(s, s.claims[token], token, content); }
    case JobFailed(token) => if token in s.claims { FailKeeps(s, s.claims[token], token); }
  }

  lemma PublicationDelivers<C>(t: Tables<C>, k: Key, token: Id, content: C)
    requires DeliveriesSound(t) && k !in t.briefings
    ensures DeliveriesSound(Complete(t, k, token, content))
  {
  }

  lemma SubscriptionsKeepDeliveries<C>(t: Tables<C>, organization: Id, user: Id, x: Id)
    requires DeliveriesSound(t)
    ensures DeliveriesSound(Subscribe(t, organization, user)) && DeliveriesSound(Unsubscribe(t, organization, user, x))
  {
  }

  lemma ReadingKeepsDeliveries<C>(t: Tables<C>, briefing: Key, user: Id)
    requires DeliveriesSound(t)
    ensures DeliveriesSound(MarkRead(t, briefing, user))
  {
  }

  lemma UnpublishedUnderLease<C>(s: State<C>, k: Key, token: Id)
    requires PublishedIffCompleted(s.db.jobs, s.db.briefings) && Leased(s.db.jobs, k, token)
    ensures k !in s.db.briefings
  {
  }

  lemma DeliveryStepKeeps<C>(s: State<C>, e: Event<C>)
    requires Invariant(s)
    ensures DeliveriesSound(Step(s, e).db)
  {
    match e
    case Subscribed(organization, user) => SubscriptionsKeepDeliveries(s.db, organization, user, 0);
    case Unsubscribed(organization, user, x) => SubscriptionsKeepDeliveries(s.db, organization, user, x);
    case MarkedRead(briefing, user) => ReadingKeepsDeliveries(s.db, briefing, user);
    case JobCompleted(token, content) =>
      if token in s.claims && Leased(s.db.jobs, s.claims[token], token) {
        UnpublishedUnderLease(s, s.claims[token], token);
        PublicationDelivers(s.db, s.claims[token], token, content);
      }
    case _ =>
  }

  lemma {:induction false} ReachableInvariant<C>(now: Time, events: seq<Event<C>>)
    ensures Invariant(Execute(Initial(now), events))
    decreases |events|
  {
    if events != [] {
      var before := events[..|events| - 1];
      ReachableInvariant(now, before);
      JobStepKeeps(Execute(Initial(now), before), events[|events| - 1]);
      DeliveryStepKeeps(Execute(Initial(now), before), events[|events| - 1]);
    }
  }

  /* ---- Guarantees ---- */

  /** In every reachable state a briefing exists for an organization and date iff its job is completed. */
  lemma BriefingIffCompleted<C>(now: Time, events: seq<Event<C>>, k: Key)
    ensures var t := Execute(Initial(now), events).db;
      k in t.briefings <==> k in t.jobs && t.jobs[k].status.Completed?
  {
    ReachableInvariant(now, events);
  }

  /** The step that publishes a briefing: a completion under the stored token of an unpublished job. */
  predicate Publishes<C>(s: State<C>, e: Event<C>, k: Key) {
    e.JobCompleted? && e.token in s.claims && s.claims[e.token] == k && Leased(s.db.jobs, k, e.token)
  }

  /** How many completions for `k` took effect in a run. */
  function Publications<C>(s: State<C>, events: seq<Event<C>>, k: Key): nat
    decreases |events|
  {
    if events == [] then 0 else
    var before := events[..|events| - 1];
    Publications(s, before, k) + (if Publishes(Execute(s, before), events[|events| - 1], k) then 1 else 0)
  }

  lemma PublishesOnce<C>(s: State<C>, e: Event<C>, k: Key)
    requires Invariant(s)
    ensures Publishes(s, e, k) ==> k !in s.db.briefings && k in Step(s, e).db.briefings
    ensures Publishes(s, e, k) ==> Step(s, e).db.briefings[k] == Briefing(e.content, s.db.now)
    ensures !Publishes(s, e, k) ==> (k in Step(s, e).db.briefings <==> k in s.db.briefings)
    ensures k in s.db.briefings ==>
              && k in Step(s, e).db.briefings && Step(s, e).db.briefings[k] == s.db.briefings[k]
              && k in Step(s, e).db.jobs && Step(s, e).db.jobs[k].status.Completed?
  {
  }

  /** Exactly one completion takes effect for each published briefing, and none for any other key. */
  lemma {:induction false} ExactlyOnePublication<C>(now: Time, events: seq<Event<C>>, k: Key)
    ensures Publications(Initial(now), events, k) == if k in Execute(Initial(now), events).db.briefings then 1 else 0
    decreases |events|
  {
    if events != [] {
      var before := events[..|events| - 1];
      ExactlyOnePublication(now, before, k);
      ReachableInvariant(now, before);
      PublishesOnce(Execute(Initial(now), before), events[|events| - 1], k);
    }
  }

  lemma DeliveryOneStep<C>(s: State<C>, e: Event<C>, d: DeliveryKey)
    requires Invariant(s)
    requires d in s.db.deliveries
    ensures d in Step(s, e).db.deliveries
    ensures Step(s, e).db.deliveries[d].deliveredAt == s.db.deliveries[d].deliveredAt
    ensures s.db.deliveries[d].readAt.Some? ==> Step(s, e).db.deliveries[d].readAt == s.db.deliveries[d].readAt
  {
  }

  /**
   A published briefing keeps its content for ever, its job stays completed, no delivery
   disappears, and one that was read stays read at the same instant.
   */
  lemma {:induction false} PublishedForever<C>(s: State<C>, events: seq<Event<C>>)
    requires Invariant(s)
    ensures Invariant(Execute(s, events))
    ensures forall k | k in s.db.briefings ::
              && k in Execute(s, events).db.briefings
              && Execute(s, events).db.briefings[k] == s.db.briefings[k]
    ensures forall d | d in s.db.deliveries ::
              && d in Execute(s, events).db.deliveries
              && Execute(s, events).db.deliveries[d].deliveredAt == s.db.deliveries[d].deliveredAt
              && (s.db.deliveries[d].readAt.Some? ==>
                    Execute(s, events).db.deliveries[d].readAt == s.db.deliveries[d].readAt)
    decreases |events|
  {
    if events != [] {
      var before, e := events[..|events| - 1], events[|events| - 1];
      PublishedForever(s, before);
      var middle := Execute(s, before);
      JobStepKeeps(middle, e);
      DeliveryStepKeeps(middle, e);
      forall k | k in s.db.briefings
        ensures k in Step(middle, e).db.briefings && Step(middle, e).db.briefings[k] == s.db.briefings[k]
      {
        PublishesOnce(middle, e, k);
      }
      forall d | d in s.db.deliveries
        ensures d in Step(middle, e).db.deliveries
        ensures Step(middle, e).db.deliveries[d].deliveredAt == s.db.deliveries[d].deliveredAt
        ensures s.db.deliveries[d].readAt.Some? ==> Step(middle, e).db.deliveries[d].readAt == s.db.deliveries[d].readAt
      {
        DeliveryOneStep(middle, e, d);
      }
    }
  }

  /** A worker whose token is no longer stored changes no briefing, no delivery and no job. */
  lemma LostLeaseLeavesNoTrace<C>(s: State<C>, token: Id, content: C)
    requires Invariant(s)
    requires token in s.claims
    requires s.claims[token] in s.db.jobs && s.db.jobs[s.claims[token]].lease.Some? ==>
               s.db.jobs[s.claims[token]].lease.value.token != token
    ensures Step(s, JobCompleted(token, content)) == s
    ensures Step(s, JobFailed(token)) == s
  {
  }

  /** Publication delivers to exactly the subscriptions of the organization active at that moment. */
  lemma DeliversToActiveSubscribers<C>(s: State<C>, e: Event<C>, k: Key, x: Id)
    requires Invariant(s) && Publishes(s, e, k)
    ensures DeliveryKey(k, x) in Step(s, e).db.deliveries <==>
              && x in s.db.subscriptions
              && s.db.subscriptions[x].organization == k.organization
              && s.db.subscriptions[x].isActive
    ensures DeliveryKey(k, x) in Step(s, e).db.deliveries ==>
              Step(s, e).db.deliveries[DeliveryKey(k, x)] == Delivery(s.db.now, None)
  {
    assert k !in s.db.briefings;
  }

  /** No later step adds a delivery of a briefing already published. */
  lemma NoLateDelivery<C>(s: State<C>, e: Event<C>, d: DeliveryKey)
    requires Invariant(s)
    requires d.briefing in s.db.briefings && d in Step(s, e).db.deliveries
    ensures d in s.db.deliveries
  {
  }

  /** Until its briefing is published every job can be claimed again, however often it failed or its worker died. */
  lemma UnpublishedComesBack<C>(now: Time, events: seq<Event<C>>, k: Key, seconds: nat)
    requires k in Execute(Initial(now), events).db.jobs && k !in Execute(Initial(now), events).db.briefings
    requires seconds > 3600
    ensures Due(Step(Execute(Initial(now), events), Tick(seconds)).db, k)
  {
    ReachableInvariant(now, events);
  }

  /* ---- One delivery for each reader ---- */

  /** The unique key of subscriptions: a user subscribes to an organization once. */
  ghost predicate SubscriptionsUnique(subscriptions: map<Id, Subscription>) {
    forall x, y | x in subscriptions && y in subscriptions && subscriptions[x].user == subscriptions[y].user ::
      subscriptions[x].organization == subscriptions[y].organization ==> x == y
  }

  lemma SubscribeKeepsUnique<C>(t: Tables<C>, organization: Id, user: Id)
    requires SubscriptionsUnique(t.subscriptions) && forall x :: x in t.subscriptions ==> x < t.nextId
    ensures SubscriptionsUnique(Subscribe(t, organization, user).subscriptions)
  {
    if !(exists x :: x in t.subscriptions && SubscribedAs(t, organization, user, x)) {
      forall x | x in t.subscriptions
        ensures !SubscribedAs(t, organization, user, x)
      {
      }
    }
  }

  lemma StepKeepsUnique<C>(s: State<C>, e: Event<C>)
    requires SubscriptionsUnique(s.db.subscriptions) && forall x :: x in s.db.subscriptions ==> x < s.db.nextId
    ensures SubscriptionsUnique(Step(s, e).db.subscriptions)
  {
    if e.Subscribed? {
      SubscribeKeepsUnique(s.db, e.organization, e.user);
    }
  }

  lemma {:induction false} ReachableUnique<C>(now: Time, events: seq<Event<C>>)
    ensures SubscriptionsUnique(Execute(Initial(now), events).db.subscriptions)
    decreases |events|
  {
    if events != [] {
      var before := events[..|events| - 1];
      ReachableUnique(now, before);
      ReachableInvariant(now, before);
      StepKeepsUnique(Execute(Initial(now), before), events[|events| - 1]);
    }
  }

  /** However often they subscribed and unsubscribed, a reader has at most one delivery of a briefing. */
  lemma OneDeliveryPerReader<C>(now: Time, events: seq<Event<C>>, d: DeliveryKey, e: DeliveryKey)
    requires var t := Execute(Initial(now), events).db; d in t.deliveries && e in t.deliveries
    requires d.briefing == e.briefing
    ensures var subscriptions := Execute(Initial(now), events).db.subscriptions;
      && d.subscription in subscriptions && e.subscription in subscriptions
      && (subscriptions[d.subscription].user == subscriptions[e.subscription].user ==> d == e)
  {
    ReachableInvariant(now, events);
    ReachableUnique(now, events);
  }
}
