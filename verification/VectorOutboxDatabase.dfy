/**
 The outbox's triggers and transactions over tables updated in place, each proved to be the
 atomic step of the state machine.
 */
module VectorOutboxDatabase {
  import opened Leases
  import opened Options
  import opened VectorOutbox

  /** UNIQUE (organization_id, document_id, version_number). */
  ghost predicate NumbersUnique(versions: map<Id, Version>) {
    forall v, w | v in versions && w in versions ::
      versions[v].document == versions[w].document && versions[v].number == versions[w].number ==> v == w
  }

  class Database {
    var now: Time
    var nextId: Id
    var documents: map<Id, Document>
    var versions: map<Id, Version>
    var jobs: map<Id, Job>

    function Snapshot(): Tables
      reads this
    {
      Tables(now, nextId, documents, versions, jobs)
    }

    constructor (now: Time)
      ensures Snapshot() == Initial(now).db
    {
      this.now, nextId := now, 0;
      documents, versions, jobs := map[], map[], map[];
    }

    /** The newest version of a document, by version number. */
    method NewestVersion(document: Id) returns (newest: Option<Id>)
      ensures newest == None <==> forall v :: v in versions ==> versions[v].document != document
      ensures newest.Some? ==> LatestOf(versions, document, newest.value)
    {
      newest := None;
      var left := versions.Keys;
      while left != {}
        invariant left <= versions.Keys
        invariant newest == None ==> forall v | v in versions.Keys - left :: versions[v].document != document
        invariant newest.Some? ==>
          && newest.value in versions && versions[newest.value].document == document
          && forall v | v in versions.Keys - left && versions[v].document == document ::
               versions[v].number <= versions[newest.value].number
        decreases left
      {
        var v :| v in left;
        if versions[v].document == document
           && (newest == None || versions[newest.value].number < versions[v].number) {
          newest := Some(v);
        }
        left := left - {v};
      }
    }

    /** The trigger body: upsert the newest version's job as pending, with its lease revoked. */
    method EnqueueDocumentVectorReindex(document: Id)
      requires NumbersUnique(versions)
      modifies this`jobs
      ensures jobs == Reindex(old(jobs), versions, document, now)
    {
      var newest := NewestVersion(document);
      if newest.Some? {
        var v := newest.value;
        assert forall w | LatestOf(versions, document, w) :: w == v;
        if v in jobs {
          jobs := jobs[v := jobs[v].(status := Pending, runAfter := now, lease := None)];
        } else {
          jobs := jobs[v := Job(Pending, now, None, 0)];
        }
      }
    }

    method UpdateDocument(d: Id, metadata: Metadata)
      requires d in documents && NumbersUnique(versions)
      modifies this`documents, this`jobs
      ensures Snapshot() == PutDocument(old(Snapshot()), d, old(documents[d]).(metadata := metadata))
    {
      documents := documents[d := documents[d].(metadata := metadata)];
      EnqueueDocumentVectorReindex(d);
    }

    method InsertTopicAssignment(d: Id, topic: Id)
      requires d in documents && NumbersUnique(versions)
      modifies this`documents, this`jobs
      ensures Snapshot() == PutDocument(old(Snapshot()), d, WithTopic(old(documents[d]), topic))
    {
      documents := documents[d := WithTopic(documents[d], topic)];
      EnqueueDocumentVectorReindex(d);
    }

    method DeleteTopicAssignment(d: Id, topic: Id)
      requires d in documents && NumbersUnique(versions)
      modifies this`documents, this`jobs
      ensures Snapshot() == PutDocument(old(Snapshot()), d, WithoutTopic(old(documents[d]), topic))
    {
      documents := documents[d := WithoutTopic(documents[d], topic)];
      EnqueueDocumentVectorReindex(d);
    }

    method UpdateTopicAssignment(d: Id, topic: Id, target: Option<Id>, newTopic: Id)
      requires d in documents && NumbersUnique(versions)
      requires target.Some? ==> target.value in documents
      modifies this`documents, this`jobs
      ensures Snapshot() == MoveTopic(old(Snapshot()), d, topic, target, newTopic)
    {
      documents := documents[d := WithoutTopic(documents[d], topic)];
      if target.Some? {
        documents := documents[target.value := WithTopic(documents[target.value], newTopic)];
        EnqueueDocumentVectorReindex(target.value);
      }
    }

    /** The next number is one past the newest version's, or 1. */
    method InsertVersion(document: Id, text: string) returns (number: nat)
      requires NumbersUnique(versions) && nextId !in versions
      modifies this`versions, this`jobs, this`nextId
      ensures NextNumber(old(versions), document, number)
      ensures number == 1 || exists v :: v in old(versions) && old(versions)[v].document == document
                                         && old(versions)[v].number + 1 == number
      ensures Snapshot() == AddVersion(old(Snapshot()), document, number, text)
      ensures NumbersUnique(versions)
    {
      var newest := NewestVersion(document);
      number := if newest.Some? then versions[newest.value].number + 1 else 1;
      var v := nextId;
      nextId := nextId + 1;
      versions := versions[v := Version(document, number, text)];
      if v !in jobs {
        jobs := jobs[v := Job(Pending, now, None, 0)];
      }
    }

    method ClaimOne(v: Id) returns (token: Id, claimed: Claimed)
      requires Due(Snapshot(), v) && v in versions && versions[v].document in documents
      modifies this`jobs, this`nextId
      ensures Snapshot() == Claim(old(Snapshot()), v)
      ensures token == old(nextId) && claimed == Returned(old(Snapshot()), v)
    {
      token := nextId;
      var job := jobs[v];
      jobs := jobs[v := Job(Processing, job.runAfter, Some(Lease(token, now + LEASE_SECONDS)), job.attempts + 1)];
      nextId := nextId + 1;
      claimed := Claimed(v, versions[v].text, documents[versions[v].document]);
    }

    method CompleteVectorIndexJob(v: Id, token: Id)
      modifies this`jobs
      ensures Snapshot() == Complete(old(Snapshot()), v, token)
    {
      if v in jobs && jobs[v].lease.Some? && jobs[v].lease.value.token == token {
        jobs := jobs[v := jobs[v].(status := Completed, lease := None)];
      }
    }

    /** The delay expression raises on overflow, and the statement then changes nothing. */
    method FailVectorIndexJob(v: Id, token: Id) returns (raised: bool)
      modifies this`jobs
      ensures Snapshot() == Fail(old(Snapshot()), v, token)
      ensures raised <==> Leased(old(jobs), v, token) && old(jobs)[v].attempts >= POWER_OVERFLOW
    {
      raised := false;
      if v in jobs && jobs[v].lease.Some? && jobs[v].lease.value.token == token {
        if jobs[v].attempts >= POWER_OVERFLOW {
          raised := true;
        } else {
          jobs := jobs[v := jobs[v].(
            status := Failed, lease := None, runAfter := now + 60 * Min(60, Pow2(jobs[v].attempts)))];
        }
      }
    }
  }
}
