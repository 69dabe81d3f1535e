/**
 Completion never hides a later change: over every run whose topic updates keep their
 document, a completed job of a latest version was indexed from what the tables hold now.
 An update that moves an assignment away from a document is the one step that can break this,
 and the exact condition under which it does is given.
 */
module VectorFreshness {
  import opened Leases
  import opened Options
  import opened VectorOutbox

  lemma PutDocumentKeeps(s: State, d: Id, document: Document)
    requires Invariant(s)
    requires d in s.db.documents
    ensures Invariant(s.(db := PutDocument(s.db, d, document)))
  {
    var s' := s.(db := PutDocument(s.db, d, document));
    forall v | v in s'.db.jobs
      ensures ClaimFresh(s', v) && IndexFresh(s', v)
    {
      if Latest(s.db.versions, v) && s.db.versions[v].document != d {
        assert !LatestOf(s.db.versions, d, v);
        assert ClaimFresh(s, v) && IndexFresh(s, v);
      }
    }
  }

  lemma AddVersionKeeps(s: State, d: Id, number: nat, text: string)
    requires Invariant(s)
    requires Enabled(s, VersionAdded(d, number, text))
    ensures Invariant(Apply(s, VersionAdded(d, number, text)))
  {
    var s' := Apply(s, VersionAdded(d, number, text));
    var new_ := s.db.nextId;
    forall v | v in s'.db.jobs
      ensures ClaimFresh(s', v) && IndexFresh(s', v)
    {
      if v != new_ && Latest(s'.db.versions, v) {
        forall w | w in s.db.versions && s.db.versions[w].document == s.db.versions[v].document
          ensures s.db.versions[w].number <= s.db.versions[v].number
        {
          assert s'.db.versions[w] == s.db.versions[w];
        }
        assert ClaimFresh(s, v) && IndexFresh(s, v);
      }
    }
  }

  lemma ClaimKeeps(s: State, v: Id)
    requires Invariant(s)
    requires Enabled(s, JobClaimed(v))
    ensures Invariant(Apply(s, JobClaimed(v)))
  {
    var s' := Apply(s, JobClaimed(v));
    forall w | w in s'.db.jobs
      ensures ClaimFresh(s', w) && IndexFresh(s', w)
    {
      assert ClaimFresh(s, w) && IndexFresh(s, w);
    }
  }

  lemma CompleteKeeps(s: State, token: Id)
    requires Invariant(s)
    requires Enabled(s, JobCompleted(token))
    ensures Invariant(Apply(s, JobCompleted(token)))
  {
    var s' := Apply(s, JobCompleted(token));
    forall w | w in s'.db.jobs
      ensures ClaimFresh(s', w) && IndexFresh(s', w)
    {
      assert ClaimFresh(s, w) && IndexFresh(s, w);
    }
  }

  lemma FailKeeps(s: State, token: Id)
    requires Invariant(s)
    requires Enabled(s, JobFailed(token))
    ensures Invariant(Apply(s, JobFailed(token)))
  {
    var s' := Apply(s, JobFailed(token));
    forall w | w in s'.db.jobs
      ensures ClaimFresh(s', w) && IndexFresh(s', w)
    {
      assert ClaimFresh(s, w) && IndexFresh(s, w);
    }
  }

  lemma QuietKeeps(s: State, e: Event)
    requires Invariant(s)
    requires e.Tick? || e.DocumentAdded?
    requires Enabled(s, e)
    ensures Invariant(Apply(s, e))
  {
    var s' := Apply(s, e);
    forall w | w in s'.db.jobs
      ensures ClaimFresh(s', w) && IndexFresh(s', w)
    {
      assert ClaimFresh(s, w) && IndexFresh(s, w);
    }
  }

  lemma StepKeeps(s: State, e: Event)
    requires Invariant(s) && KeepsItsDocument(e)
    ensures Invariant(Step(s, e))
  {
    if Enabled(s, e) {
      match e
      case Tick(_) => QuietKeeps(s, e);
      case DocumentAdded(_, _) => QuietKeeps(s, e);
      case DocumentEdited(d, metadata) => PutDocumentKeeps(s, d, s.db.documents[d].(metadata := metadata));
      case TopicAdded(d, topic) => PutDocumentKeeps(s, d, WithTopic(s.db.documents[d], topic));
      case TopicRemoved(d, topic) => PutDocumentKeeps(s, d, WithoutTopic(s.db.documents[d], topic));
      case TopicMoved(d, topic, target, newTopic) =>
        var document := WithTopic(WithoutTopic(s.db.documents[d], topic), newTopic);
        PutDocumentKeeps(s, d, document);
        assert s.db.documents[d := WithoutTopic(s.db.documents[d], topic)][d := document] == s.db.documents[d := document];
      case VersionAdded(d, number, text) => AddVersionKeeps(s, d, number, text);
      case JobClaimed(v) => ClaimKeeps(s, v);
      case JobCompleted(token) => CompleteKeeps(s, token);
      case JobFailed(token) => FailKeeps(s, token);
    }
  }

  lemma {:induction false} ReachableInvariant(now: Time, events: seq<Event>)
    requires forall i | 0 <= i < |events| :: KeepsItsDocument(events[i])
    ensures Invariant(Execute(Initial(now), events))
    decreases |events|
  {
    if events != [] {
      var before := events[..|events| - 1];
      ReachableInvariant(now, before);
      StepKeeps(Execute(Initial(now), before), events[|events| - 1]);
    }
  }

  /**
   No metadata change is lost: when the job of a document's latest version is completed, the
   claim that completed it returned that version's text and the document's current title,
   type, source, department, date and topics.
   */
  lemma NoChangeLost(now: Time, events: seq<Event>, v: Id)
    requires forall i | 0 <= i < |events| :: KeepsItsDocument(events[i])
    requires v in Execute(Initial(now), events).db.jobs
    requires Execute(Initial(now), events).db.jobs[v].status.Completed?
    requires Latest(Execute(Initial(now), events).db.versions, v)
    ensures var s := Execute(Initial(now), events);
      && s.db.versions[v].document in s.db.documents
      && v in s.completedBy && s.completedBy[v] in s.claims
      && s.claims[s.completedBy[v]] ==
           Claimed(v, s.db.versions[v].text, s.db.documents[s.db.versions[v].document])
  {
    ReachableInvariant(now, events);
    assert IndexFresh(Execute(Initial(now), events), v);
  }

  /** After any watched change, a worker that claimed earlier can no longer complete or reschedule the job. */
  lemma EditFencesWorkers(s: State, d: Id, document: Document, v: Id, token: Id)
    requires Invariant(s)
    requires d in s.db.documents && LatestOf(s.db.versions, d, v)
    requires token in s.claims
    ensures var t' := PutDocument(s.db, d, document);
      && v in t'.jobs && t'.jobs[v].status.Pending? && Due(t', v)
      && Complete(t', v, token) == t' && Fail(t', v, token) == t'
  {
  }

  /** The documents whose latest version is completed or being indexed. */
  ghost predicate IndexedOrClaimed(s: State, d: Id) {
    exists v :: v in s.db.jobs && LatestOf(s.db.versions, d, v)
                && (s.db.jobs[v].status.Completed? || s.db.jobs[v].status.Processing?)
  }

  lemma MoveBreaks(s: State, d: Id, topic: Id, target: Option<Id>, newTopic: Id)
    requires Invariant(s)
    requires Enabled(s, TopicMoved(d, topic, target, newTopic)) && target != Some(d)
    requires IndexedOrClaimed(s, d)
    ensures !Invariant(Apply(s, TopicMoved(d, topic, target, newTopic)))
  {
    var s' := Apply(s, TopicMoved(d, topic, target, newTopic));
    var v :| v in s.db.jobs && LatestOf(s.db.versions, d, v)
             && (s.db.jobs[v].status.Completed? || s.db.jobs[v].status.Processing?);
    assert Latest(s.db.versions, v);
    assert ClaimFresh(s, v) && IndexFresh(s, v);
    var before, after := s.db.documents[d].topics, s'.db.documents[d].topics;
    assert after[topic] == before[topic] - 1;
    assert s'.db.jobs[v] == s.db.jobs[v] by {
      if target.Some? {
        assert !LatestOf(s.db.versions, target.value, v);
      }
    }
    assert !(ClaimFresh(s', v) && IndexFresh(s', v));
  }

  lemma MoveHarmless(s: State, d: Id, topic: Id, target: Option<Id>, newTopic: Id)
    requires Invariant(s)
    requires Enabled(s, TopicMoved(d, topic, target, newTopic)) && target != Some(d)
    requires !IndexedOrClaimed(s, d)
    ensures Invariant(Apply(s, TopicMoved(d, topic, target, newTopic)))
  {
    var removed := s.(db := s.db.(documents := s.db.documents[d := WithoutTopic(s.db.documents[d], topic)]));
    forall v | v in removed.db.jobs
      ensures ClaimFresh(removed, v) && IndexFresh(removed, v)
    {
      assert ClaimFresh(s, v) && IndexFresh(s, v);
      if Latest(s.db.versions, v) && s.db.versions[v].document == d {
        assert LatestOf(s.db.versions, d, v);
      }
    }
    if target.Some? {
      PutDocumentKeeps(removed, target.value, WithTopic(removed.db.documents[target.value], newTopic));
    }
  }

  /**
   Moving an assignment to another document keeps every completed or claimed job fresh exactly
   when the document it leaves has no completed and no claimed latest version.
   */
  lemma MoveKeepsFreshIff(s: State, d: Id, topic: Id, target: Option<Id>, newTopic: Id)
    requires Invariant(s)
    requires Enabled(s, TopicMoved(d, topic, target, newTopic))
    ensures Invariant(Apply(s, TopicMoved(d, topic, target, newTopic)))
            <==> target == Some(d) || !IndexedOrClaimed(s, d)
  {
    if target == Some(d) {
      StepKeeps(s, TopicMoved(d, topic, target, newTopic));
    } else if IndexedOrClaimed(s, d) {
      MoveBreaks(s, d, topic, target, newTopic);
    } else {
      MoveHarmless(s, d, topic, target, newTopic);
    }
  }

  /** The move leaves a completed job whose index was built from other topics. */
  lemma MoveHidesChange(s: State, d: Id, topic: Id, target: Option<Id>, newTopic: Id, v: Id)
    requires Invariant(s)
    requires Enabled(s, TopicMoved(d, topic, target, newTopic)) && target != Some(d)
    requires LatestOf(s.db.versions, d, v) && s.db.jobs[v].status.Completed?
    ensures var s' := Apply(s, TopicMoved(d, topic, target, newTopic));
      && s'.db.jobs[v].status.Completed?
      && v in s'.completedBy && s'.completedBy[v] in s'.claims
      && s'.claims[s'.completedBy[v]].document.topics != s'.db.documents[d].topics
  {
    var s' := Apply(s, TopicMoved(d, topic, target, newTopic));
    assert Latest(s.db.versions, v);
    assert IndexFresh(s, v);
    assert s'.db.documents[d].topics[topic] == s.db.documents[d].topics[topic] - 1;
    if target.Some? {
      assert !LatestOf(s.db.versions, target.value, v);
    }
  }
}
