/**
 What brings an index job back, and how long it is kept away: failed and abandoned jobs return,
 retry delays and claims are respected until the document itself changes.  Every run is covered,
 moves of assignments included.
 */
module VectorRetries {
  import opened Leases
  import opened Options
  import opened VectorOutbox

  /* ---- What each event does to one job ---- */

  /** The watched changes of document `d`. */
  predicate Watched(e: Event, d: Id) {
    match e
    case DocumentEdited(x, _) => x == d
    case TopicAdded(x, _) => x == d
    case TopicRemoved(x, _) => x == d
    case TopicMoved(_, _, target, _) => target == Some(d)
    case _ => false
  }

  /** A watched change makes the latest version's job pending and due now, free of any lease, and no other. */
  lemma WatchedRequeues(s: State, e: Event, d: Id, v: Id)
    requires Enabled(s, e) && Watched(e, d) && v in s.db.versions
    ensures var (jobs, jobs') := (s.db.jobs, Step(s, e).db.jobs);
      if LatestOf(s.db.versions, d, v)
      then v in jobs' && jobs'[v] == Job(Pending, s.db.now, None, if v in jobs then jobs[v].attempts else 0)
      else (v in jobs' <==> v in jobs) && (v in jobs ==> jobs'[v] == jobs[v])
  {
  }

  /** A new version of a document is queued at once. */
  lemma VersionQueued(s: State, d: Id, number: nat, text: string)
    requires Enabled(s, VersionAdded(d, number, text)) && s.db.nextId !in s.db.jobs
    ensures var (v, s') := (s.db.nextId, Step(s, VersionAdded(d, number, text)));
      && s'.db.versions == s.db.versions[v := Version(d, number, text)]
      && s'.db.jobs == s.db.jobs[v := Job(Pending, s.db.now, None, 0)] && Due(s'.db, v)
  {
  }

  /** A claim leases the job for ten minutes and counts the attempt. */
  lemma ClaimLeases(s: State, v: Id)
    requires Enabled(s, JobClaimed(v))
    ensures var (t, s') := (s.db, Step(s, JobClaimed(v)));
      && s'.db.jobs == t.jobs[v := Job(Processing, t.jobs[v].runAfter, Some(Lease(t.nextId, t.now + 600)), t.jobs[v].attempts + 1)]
      && s'.claims == s.claims[t.nextId := Claimed(v, t.versions[v].text, t.documents[t.versions[v].document])]
  {
  }

  /** A failure frees the job and delays it by a minute doubled with every attempt, an hour at most. */
  lemma FailureReschedules(s: State, token: Id)
    requires token in s.claims
    ensures var (t, v, t') := (s.db, s.claims[token].version, Step(s, JobFailed(token)).db);
      t' == if v in t.jobs && t.jobs[v].lease.Some? && t.jobs[v].lease.value.token == token && t.jobs[v].attempts < 1024
            then t.(jobs := t.jobs[v := Job(Failed, t.now + 60 * Min(60, Pow2(t.jobs[v].attempts)), None, t.jobs[v].attempts)])
            else t
  {
  }

  /** A completion under the stored token frees the job for good; any other changes nothing. */
  lemma CompletionFrees(s: State, token: Id)
    requires token in s.claims
    ensures var (t, v, s') := (s.db, s.claims[token].version, Step(s, JobCompleted(token)));
      if v in t.jobs && t.jobs[v].lease.Some? && t.jobs[v].lease.value.token == token
      then s'.db == t.(jobs := t.jobs[v := Job(Completed, t.jobs[v].runAfter, None, t.jobs[v].attempts)])
           && s'.completedBy == s.completedBy[v := token]
      else s' == s
  {
  }

  /* ---- Every job returns ---- */

  ghost predicate JobTimely(job: Job, now: Time) {
    && job.runAfter <= now + 3600
    && (job.status.Processing? <==> job.lease.Some?)
    && (job.lease.Some? ==> job.lease.value.until <= now + 600)
  }

  /** Schedules and leases are near, and each job belongs to a version of a document. */
  ghost predicate Timely(t: Tables) {
    && (forall v :: v in t.jobs ==> JobTimely(t.jobs[v], t.now) && v in t.versions)
    && (forall v :: v in t.versions ==> v in t.jobs && v < t.nextId && t.versions[v].document in t.documents)
  }

  lemma PutDocumentTimely(t: Tables, d: Id, document: Document)
    requires Timely(t)
    ensures Timely(PutDocument(t, d, document))
  {
    var t' := PutDocument(t, d, document);
    forall v | v in t'.jobs
      ensures JobTimely(t'.jobs[v], t'.now) && v in t'.versions
    {
      assert v in t.jobs && JobTimely(t.jobs[v], t.now);
    }
  }

  lemma MoveTimely(t: Tables, d: Id, topic: Id, target: Option<Id>, newTopic: Id)
    requires Timely(t) && d in t.documents && (target.Some? ==> target.value in t.documents)
    ensures Timely(MoveTopic(t, d, topic, target, newTopic))
  {
    var removed := t.documents[d := WithoutTopic(t.documents[d], topic)];
    assert Timely(t.(documents := removed));
    if target.Some? {
      PutDocumentTimely(t.(documents := removed), target.value, WithTopic(removed[target.value], newTopic));
    }
  }

  lemma WorkTimely(s: State, e: Event)
    requires Timely(s.db) && (e.JobClaimed? || e.JobCompleted? || e.JobFailed?)
    ensures Timely(Step(s, e).db)
  {
  }

  lemma OtherTimely(s: State, e: Event)
    requires Timely(s.db) && (e.Tick? || e.DocumentAdded? || e.VersionAdded?)
    ensures Timely(Step(s, e).db)
  {
  }

  lemma StepTimely(s: State, e: Event)
    requires Timely(s.db)
    ensures Timely(Step(s, e).db)
  {
    if Enabled(s, e) {
      match e
      case DocumentEdited(d, metadata) => PutDocumentTimely(s.db, d, s.db.documents[d].(metadata := metadata));
      case TopicAdded(d, topic) => PutDocumentTimely(s.db, d, WithTopic(s.db.documents[d], topic));
      case TopicRemoved(d, topic) => PutDocumentTimely(s.db, d, WithoutTopic(s.db.documents[d], topic));
      case TopicMoved(d, topic, target, newTopic) => MoveTimely(s.db, d, topic, target, newTopic);
      case JobClaimed(_) => WorkTimely(s, e);
      case JobCompleted(_) => WorkTimely(s, e);
      case JobFailed(_) => WorkTimely(s, e);
      case _ => OtherTimely(s, e);
    }
  }

  lemma {:induction false} ReachableTimely(now: Time, events: seq<Event>)
    ensures Timely(Execute(Initial(now), events).db)
    decreases |events|
  {
    if events != [] {
      ReachableTimely(now, events[..|events| - 1]);
      StepTimely(Execute(Initial(now), events[..|events| - 1]), events[|events| - 1]);
    }
  }

  lemma TimelyComesBack(s: State, v: Id, seconds: nat)
    requires Timely(s.db) && v in s.db.jobs && !s.db.jobs[v].status.Completed? && seconds > 3600
    ensures Due(Step(s, Tick(seconds)).db, v) && Enabled(Step(s, Tick(seconds)), JobClaimed(v))
  {
    assert JobTimely(s.db.jobs[v], s.db.now);
  }

  /**
   Over every run: until a version is indexed its job can be claimed again, however often indexing
   failed, and also when its worker died.
   */
  lemma UnindexedComesBack(now: Time, events: seq<Event>, v: Id, seconds: nat)
    requires var t := Execute(Initial(now), events).db; v in t.jobs && !t.jobs[v].status.Completed?
    requires seconds > 3600
    ensures var s' := Step(Execute(Initial(now), events), Tick(seconds));
      Due(s'.db, v) && Enabled(s', JobClaimed(v))
  {
    ReachableTimely(now, events);
    TimelyComesBack(Execute(Initial(now), events), v, seconds);
  }

  /* ---- Waiting ---- */

  ghost predicate NothingWatched(events: seq<Event>, d: Id) {
    forall i :: 0 <= i < |events| ==> !Watched(events[i], d)
  }

  ghost predicate Stands(s: State, v: Id, d: Id, job: Job) {
    v in s.db.versions && s.db.versions[v].document == d && v < s.db.nextId && v in s.db.jobs && s.db.jobs[v] == job
  }

  lemma PutElsewhere(s: State, d: Id, document: Document, v: Id, own: Id, job: Job)
    requires Stands(s, v, own, job) && d != own
    ensures Stands(s.(db := PutDocument(s.db, d, document)), v, own, job)
  {
    assert !LatestOf(s.db.versions, d, v);
  }

  lemma MoveElsewhere(s: State, d: Id, topic: Id, target: Option<Id>, newTopic: Id, v: Id, own: Id, job: Job)
    requires Enabled(s, TopicMoved(d, topic, target, newTopic)) && Stands(s, v, own, job) && target != Some(own)
    ensures Stands(s.(db := MoveTopic(s.db, d, topic, target, newTopic)), v, own, job)
  {
    var removed := s.db.documents[d := WithoutTopic(s.db.documents[d], topic)];
    if target.Some? {
      PutElsewhere(s.(db := s.db.(documents := removed)), target.value, WithTopic(removed[target.value], newTopic), v, own, job);
    }
  }

  lemma ReportElsewhere(s: State, e: Event, v: Id, own: Id, job: Job)
    requires Stands(s, v, own, job) && (e.JobCompleted? || e.JobFailed?)
    requires job.lease.Some? ==> e.token != job.lease.value.token
    ensures Stands(Step(s, e), v, own, job)
  {
  }

  lemma ClaimElsewhere(s: State, w: Id, v: Id, own: Id, job: Job)
    requires Stands(s, v, own, job) && (w == v ==> !Due(s.db, v))
    ensures Stands(Step(s, JobClaimed(w)), v, own, job)
  {
  }

  /** A job stands until its document changes, it is claimed, or the worker that holds it reports. */
  lemma StandsStep(s: State, e: Event, v: Id, d: Id, job: Job)
    requires Stands(s, v, d, job) && !Watched(e, d) && (e == JobClaimed(v) ==> !Due(s.db, v))
    requires (e.JobCompleted? || e.JobFailed?) && job.lease.Some? ==> e.token != job.lease.value.token
    ensures Stands(Step(s, e), v, d, job)
  {
    if Enabled(s, e) {
      match e
      case DocumentEdited(x, metadata) => PutElsewhere(s, x, s.db.documents[x].(metadata := metadata), v, d, job);
      case TopicAdded(x, topic) => PutElsewhere(s, x, WithTopic(s.db.documents[x], topic), v, d, job);
      case TopicRemoved(x, topic) => PutElsewhere(s, x, WithoutTopic(s.db.documents[x], topic), v, d, job);
      case TopicMoved(x, topic, target, newTopic) => MoveElsewhere(s, x, topic, target, newTopic, v, d, job);
      case JobClaimed(w) => ClaimElsewhere(s, w, v, d, job);
      case JobCompleted(_) => ReportElsewhere(s, e, v, d, job);
      case JobFailed(_) => ReportElsewhere(s, e, v, d, job);
      case _ =>
    }
  }

  lemma TimeForward(s: State, e: Event)
    ensures s.db.now <= Step(s, e).db.now
  {
  }

  /** A failed job waits for its retry as long as its document is not changed. */
  lemma {:induction false} WaitsForRetry(s: State, events: seq<Event>, v: Id, d: Id, job: Job)
    requires Stands(s, v, d, job) && job.lease == None && NothingWatched(events, d)
    ensures Execute(s, events).db.now < job.runAfter ==>
              Stands(Execute(s, events), v, d, job) && !Due(Execute(s, events).db, v)
    decreases |events|
  {
    if events != [] {
      var (before, e) := (events[..|events| - 1], events[|events| - 1]);
      assert !Watched(e, d) && NothingWatched(before, d);
      WaitsForRetry(s, before, v, d, job);
      TimeForward(Execute(s, before), e);
      if Execute(s, events).db.now < job.runAfter {
        StandsStep(Execute(s, before), e, v, d, job);
      }
    }
  }

  /** After a failure under the stored token no continuation lets the job be claimed early, unless its document changes. */
  lemma RetryPace(s: State, token: Id, events: seq<Event>)
    requires Timely(s.db) && token in s.claims
    requires Leased(s.db.jobs, s.claims[token].version, token) && s.db.jobs[s.claims[token].version].attempts < 1024
    requires NothingWatched(events, s.db.versions[s.claims[token].version].document)
    ensures var (v, s') := (s.claims[token].version, Execute(Step(s, JobFailed(token)), events));
      s'.db.now < s.db.now + 60 * Min(60, Pow2(s.db.jobs[v].attempts)) ==> !Due(s'.db, v)
  {
    var (v, failed) := (s.claims[token].version, Step(s, JobFailed(token)));
    FailureReschedules(s, token);
    assert Stands(failed, v, s.db.versions[v].document, failed.db.jobs[v]);
    WaitsForRetry(failed, events, v, s.db.versions[v].document, failed.db.jobs[v]);
  }

  predicate Reports(e: Event, token: Id) {
    (e.JobCompleted? || e.JobFailed?) && e.token == token
  }

  lemma {:induction false} LeaseLasts(s: State, events: seq<Event>, v: Id, d: Id, job: Job)
    requires Stands(s, v, d, job) && job.status.Processing? && job.lease.Some? && NothingWatched(events, d)
    requires forall i :: 0 <= i < |events| ==> !Reports(events[i], job.lease.value.token)
    ensures Execute(s, events).db.now <= job.lease.value.until ==>
              Stands(Execute(s, events), v, d, job) && !Due(Execute(s, events).db, v)
    decreases |events|
  {
    if events != [] {
      var (before, e) := (events[..|events| - 1], events[|events| - 1]);
      assert !Watched(e, d) && NothingWatched(before, d) && !Reports(e, job.lease.value.token);
      LeaseLasts(s, before, v, d, job);
      TimeForward(Execute(s, before), e);
      if Execute(s, events).db.now <= job.lease.value.until {
        StandsStep(Execute(s, before), e, v, d, job);
      }
    }
  }

  /** Unless its worker reports or its document changes, a claimed job is nobody else's for ten minutes. */
  lemma ClaimExcludes(s: State, v: Id, events: seq<Event>)
    requires Timely(s.db) && Enabled(s, JobClaimed(v)) && NothingWatched(events, s.db.versions[v].document)
    requires forall i :: 0 <= i < |events| ==> !Reports(events[i], s.db.nextId)
    ensures var s' := Execute(Step(s, JobClaimed(v)), events); s'.db.now <= s.db.now + 600 ==> !Due(s'.db, v)
  {
    var claimed := Step(s, JobClaimed(v));
    ClaimLeases(s, v);
    LeaseLasts(claimed, events, v, s.db.versions[v].document, claimed.db.jobs[v]);
  }

  /** The clock moves with the ticks, second by second, and with nothing else. */
  lemma ClockMoves(s: State, e: Event)
    ensures Step(s, e).db.now == s.db.now + if e.Tick? then e.seconds else 0
  {
  }

  /* ---- Documents and versions ---- */

  /** How many assignments of the topic an event adds to the document, and how many it takes away. */
  function TopicsAdded(e: Event, d: Id, topic: Id): nat {
    match e
    case TopicAdded(x, y) => if x == d && y == topic then 1 else 0
    case TopicMoved(_, _, target, y) => if target == Some(d) && y == topic then 1 else 0
    case _ => 0
  }

  function TopicsRemoved(e: Event, d: Id, topic: Id): nat {
    match e
    case TopicRemoved(x, y) => if x == d && y == topic then 1 else 0
    case TopicMoved(x, y, _, _) => if x == d && y == topic then 1 else 0
    case _ => 0
  }

  /** A document exists from its addition on, with the metadata last given and the topics assigned and not taken away. */
  lemma DocumentLife(s: State, e: Event, d: Id, topic: Id)
    requires Enabled(s, e)
    ensures var (docs, docs') := (s.db.documents, Step(s, e).db.documents);
      && (d in docs' <==> d in docs || (e.DocumentAdded? && e.document == d))
      && (d in docs ==>
            && docs'[d].metadata == (if e.DocumentEdited? && e.document == d then e.metadata else docs[d].metadata)
            && docs'[d].topics[topic] + TopicsRemoved(e, d, topic) == docs[d].topics[topic] + TopicsAdded(e, d, topic))
      && (d !in docs && d in docs' ==> docs'[d] == Document(e.metadata, multiset{}))
  {
    if e.TopicMoved? {
      MovedTopics(s.db, e.document, e.topic, e.target, e.newTopic, d, topic);
    }
  }

  lemma TopicGiven(d: Document, topic: Id, counted: Id)
    ensures WithTopic(d, topic).metadata == d.metadata
    ensures WithTopic(d, topic).topics[counted] == d.topics[counted] + if topic == counted then 1 else 0
  {
  }

  lemma TopicTaken(d: Document, topic: Id, counted: Id)
    requires topic in d.topics
    ensures WithoutTopic(d, topic).metadata == d.metadata
    ensures WithoutTopic(d, topic).topics[counted] + (if topic == counted then 1 else 0) == d.topics[counted]
  {
  }

  lemma MovedTopics(t: Tables, from: Id, moved: Id, target: Option<Id>, newTopic: Id, d: Id, topic: Id)
    requires from in t.documents && moved in t.documents[from].topics && (target.Some? ==> target.value in t.documents)
    ensures var docs' := MoveTopic(t, from, moved, target, newTopic).documents;
      && docs'.Keys == t.documents.Keys
      && (d in docs' ==>
            && docs'[d].metadata == t.documents[d].metadata
            && docs'[d].topics[topic] + (if d == from && topic == moved then 1 else 0)
               == t.documents[d].topics[topic] + (if target == Some(d) && topic == newTopic then 1 else 0))
  {
    var removed := t.documents[from := WithoutTopic(t.documents[from], moved)];
    TopicTaken(t.documents[from], moved, topic);
    if target.Some? {
      TopicGiven(removed[target.value], newTopic, topic);
      assert MoveTopic(t, from, moved, target, newTopic).documents
          == removed[target.value := WithTopic(removed[target.value], newTopic)];
    } else {
      assert MoveTopic(t, from, moved, target, newTopic).documents == removed;
    }
  }

  /** Within a document later versions carry higher numbers. */
  ghost predicate NumbersRise(versions: map<Id, Version>, next: Id) {
    && (forall v :: v in versions ==> v < next)
    && (forall v, w | v in versions && w in versions && v < w ::
          versions[v].document == versions[w].document ==> versions[v].number < versions[w].number)
  }

  lemma {:induction false} ReachableNumbersRise(now: Time, events: seq<Event>)
    ensures NumbersRise(Execute(Initial(now), events).db.versions, Execute(Initial(now), events).db.nextId)
    decreases |events|
  {
    if events != [] {
      ReachableNumbersRise(now, events[..|events| - 1]);
      StepNumbersRise(Execute(Initial(now), events[..|events| - 1]), events[|events| - 1]);
    }
  }

  lemma StepNumbersRise(s: State, e: Event)
    requires NumbersRise(s.db.versions, s.db.nextId)
    ensures NumbersRise(Step(s, e).db.versions, Step(s, e).db.nextId)
  {
  }
}
