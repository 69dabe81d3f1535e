/**
 The vector-index outbox. Triggers requeue the job of a document's latest version and revoke
 its lease whenever indexed metadata changes; a completion is accepted only under the token
 that the job still stores. The history beside the tables records what each claim returned
 and which claim completed each job.
 */
module VectorOutbox {
  import opened Leases
  import opened Options

  type Id = nat
  type Time = int

  const POWER_OVERFLOW := 1024

  // The columns a trigger watches and a claim returns.
  datatype Metadata = Metadata(
    title: string, documentType: string, source: Option<Id>, department: Option<Id>, publishedAt: Option<Time>)

  datatype Document = Document(metadata: Metadata, topics: multiset<Id>)

  datatype Version = Version(document: Id, number: nat, text: string)

  datatype JobStatus = Pending | Processing | Completed | Failed

  datatype Job = Job(status: JobStatus, runAfter: Time, lease: Option<Lease>, attempts: nat)

  datatype Tables = Tables(
    now: Time,
    nextId: Id,
    documents: map<Id, Document>,
    versions: map<Id, Version>,
    jobs: map<Id, Job>)

  // One row returned by a claim: the version, its text and the document as it stood.
  datatype Claimed = Claimed(version: Id, text: string, document: Document)

  predicate LatestOf(versions: map<Id, Version>, document: Id, v: Id) {
    && v in versions
    && versions[v].document == document
    && forall w :: w in versions && versions[w].document == document ==> versions[w].number <= versions[v].number
  }

  predicate Latest(versions: map<Id, Version>, v: Id) {
    v in versions && LatestOf(versions, versions[v].document, v)
  }

  /* ---- Triggers ---- */

  function Requeued(jobs: map<Id, Job>, v: Id, now: Time): Job {
    Job(Pending, now, None, if v in jobs then jobs[v].attempts else 0)
  }

  /** The reindex trigger: the job of the document's latest version, if there is one, is made pending. */
  function Reindex(jobs: map<Id, Job>, versions: map<Id, Version>, document: Id, now: Time): map<Id, Job> {
    map v | v in jobs.Keys + versions.Keys && (v in jobs || LatestOf(versions, document, v)) ::
      if LatestOf(versions, document, v) then Requeued(jobs, v, now) else jobs[v]
  }

  function PutDocument(t: Tables, d: Id, document: Document): Tables {
    t.(documents := t.documents[d := document], jobs := Reindex(t.jobs, t.versions, d, t.now))
  }

  predicate NextNumber(versions: map<Id, Version>, document: Id, number: nat) {
    forall w :: w in versions && versions[w].document == document ==> versions[w].number < number
  }

  /** Inserting a version enqueues a job for it unless one exists. */
  function AddVersion(t: Tables, document: Id, number: nat, text: string): Tables {
    var v := t.nextId;
    t.(nextId := t.nextId + 1,
       versions := t.versions[v := Version(document, number, text)],
       jobs := if v in t.jobs then t.jobs else t.jobs[v := Job(Pending, t.now, None, 0)])
  }

  /* ---- Worker transactions ---- */

  predicate Due(t: Tables, v: Id) {
    && v in t.jobs
    && t.jobs[v].runAfter <= t.now
    && match t.jobs[v].status
       case Pending => true
       case Failed => true
       case Processing => t.jobs[v].lease.Some? && t.jobs[v].lease.value.until < t.now
       case Completed => false
  }

  function Claim(t: Tables, v: Id): Tables
    requires v in t.jobs
  {
    var job := t.jobs[v];
    t.(nextId := t.nextId + 1,
       jobs := t.jobs[v := Job(Processing, job.runAfter, Some(Lease(t.nextId, t.now + LEASE_SECONDS)), job.attempts + 1)])
  }

  function Returned(t: Tables, v: Id): Claimed
    requires v in t.versions && t.versions[v].document in t.documents
  {
    Claimed(v, t.versions[v].text, t.documents[t.versions[v].document])
  }

  predicate Leased(jobs: map<Id, Job>, v: Id, token: Id) {
    v in jobs && jobs[v].lease.Some? && jobs[v].lease.value.token == token
  }

  function Complete(t: Tables, v: Id, token: Id): Tables {
    if Leased(t.jobs, v, token)
    then t.(jobs := t.jobs[v := t.jobs[v].(status := Completed, lease := None)])
    else t
  }

  function Fail(t: Tables, v: Id, token: Id): Tables {
    if Leased(t.jobs, v, token) && t.jobs[v].attempts < POWER_OVERFLOW
    then t.(jobs := t.jobs[v := t.jobs[v].(
                status := Failed, lease := None, runAfter := t.now + 60 * Min(60, Pow2(t.jobs[v].attempts)))])
    else t
  }

  /* ---- Steps ---- */

  datatype State = State(db: Tables, claims: map<Id, Claimed>, completedBy: map<Id, Id>)

  datatype Event =
    | Tick(seconds: nat)
    | DocumentAdded(document: Id, metadata: Metadata)
    | DocumentEdited(document: Id, metadata: Metadata)
    | TopicAdded(document: Id, topic: Id)
    | TopicRemoved(document: Id, topic: Id)
    | TopicMoved(document: Id, topic: Id, target: Option<Id>, newTopic: Id)
    | VersionAdded(document: Id, number: nat, text: string)
    | JobClaimed(version: Id)
    | JobCompleted(token: Id)
    | JobFailed(token: Id)

  predicate Enabled(s: State, e: Event) {
    match e
    case Tick(_) => true
    case DocumentAdded(d, _) => d !in s.db.documents
    case DocumentEdited(d, _) => d in s.db.documents
    case TopicAdded(d, _) => d in s.db.documents
    case TopicRemoved(d, topic) => d in s.db.documents && topic in s.db.documents[d].topics
    case TopicMoved(d, topic, target, _) =>
      && d in s.db.documents && topic in s.db.documents[d].topics
      && (target.Some? ==> target.value in s.db.documents)
    case VersionAdded(d, number, _) => d in s.db.documents && NextNumber(s.db.versions, d, number)
    case JobClaimed(v) => Due(s.db, v) && v in s.db.versions && s.db.versions[v].document in s.db.documents
    case JobCompleted(token) => token in s.claims
    case JobFailed(token) => token in s.claims
  }

  function WithTopic(d: Document, topic: Id): Document {
    d.(topics := d.topics + multiset{topic})
  }

  function WithoutTopic(d: Document, topic: Id): Document {
    d.(topics := d.topics - multiset{topic})
  }

  /** Updating an assignment in place fires the trigger for its new document only. */
  function MoveTopic(t: Tables, d: Id, topic: Id, target: Option<Id>, newTopic: Id): Tables
    requires d in t.documents && (target.Some? ==> target.value in t.documents)
  {
    var removed := t.documents[d := WithoutTopic(t.documents[d], topic)];
    if target == None
    then t.(documents := removed)
    else PutDocument(t.(documents := removed), target.value, WithTopic(removed[target.value], newTopic))
  }

  function Apply(s: State, e: Event): State
    requires Enabled(s, e)
  {
    var t := s.db;
    match e
    case Tick(seconds) => s.(db := t.(now := t.now + seconds))
    case DocumentAdded(d, metadata) => s.(db := t.(documents := t.documents[d := Document(metadata, multiset{})]))
    case DocumentEdited(d, metadata) => s.(db := PutDocument(t, d, t.documents[d].(metadata := metadata)))
    case TopicAdded(d, topic) => s.(db := PutDocument(t, d, WithTopic(t.documents[d], topic)))
    case TopicRemoved(d, topic) => s.(db := PutDocument(t, d, WithoutTopic(t.documents[d], topic)))
    case TopicMoved(d, topic, target, newTopic) => s.(db := MoveTopic(t, d, topic, target, newTopic))
    case VersionAdded(d, number, text) => s.(db := AddVersion(t, d, number, text))
    case JobClaimed(v) => s.(db := Claim(t, v), claims := s.claims[t.nextId := Returned(t, v)])
    case JobCompleted(token) =>
      var v := s.claims[token].version;
      s.(db := Complete(t, v, token),
         completedBy := if Leased(t.jobs, v, token) then s.completedBy[v := token] else s.completedBy)
    case JobFailed(token) => s.(db := Fail(t, s.claims[token].version, token))
  }

  function Step(s: State, e: Event): State {
    if Enabled(s, e) then Apply(s, e) else s
  }

  function Execute(s: State, events: seq<Event>): State
    decreases |events|
  {
    if events == [] then s else Step(Execute(s, events[..|events| - 1]), events[|events| - 1])
  }

  function Initial(now: Time): State {
    State(Tables(now, 0, map[], map[], map[]), map[], map[])
  }

  /* ---- Invariant ---- */

  ghost predicate WellFormed(s: State) {
    && (forall v :: v in s.db.versions ==> v < s.db.nextId && s.db.versions[v].document in s.db.documents)
    && (forall v :: v in s.db.jobs <==> v in s.db.versions)
    && (forall t :: t in s.claims ==> t < s.db.nextId)
    && (forall v :: v in s.db.jobs ==> (s.db.jobs[v].lease.Some? <==> s.db.jobs[v].status.Processing?))
    && (forall v :: v in s.db.jobs && s.db.jobs[v].lease.Some? ==>
          s.db.jobs[v].lease.value.token in s.claims && s.claims[s.db.jobs[v].lease.value.token].version == v)
  }

  /** What the current holder of a latest version's job was given is what the tables hold now. */
  ghost predicate ClaimFresh(s: State, v: Id) {
    v in s.db.jobs && s.db.jobs[v].lease.Some? && Latest(s.db.versions, v) && s.db.versions[v].document in s.db.documents ==>
      && s.db.jobs[v].lease.value.token in s.claims
      && s.claims[s.db.jobs[v].lease.value.token] == Returned(s.db, v)
  }

  /** A completed latest version was indexed from exactly the text and metadata the tables hold now. */
  ghost predicate IndexFresh(s: State, v: Id) {
    v in s.db.jobs && s.db.jobs[v].status.Completed? && Latest(s.db.versions, v)
    && s.db.versions[v].document in s.db.documents ==>
      && v in s.completedBy
      && s.completedBy[v] in s.claims
      && s.claims[s.completedBy[v]] == Returned(s.db, v)
  }

  ghost predicate Invariant(s: State) {
    && WellFormed(s)
    && (forall v :: v in s.db.jobs ==> ClaimFresh(s, v) && IndexFresh(s, v))
  }

  predicate KeepsItsDocument(e: Event) {
    e.TopicMoved? ==> e.target == Some(e.document)
  }
}
