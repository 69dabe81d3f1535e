/**
 Rebuilding the canonical records from stored raw versions.

 Each selected document is taken once, in its own savepoint.  A second rebuild does not always
 leave the store alone; exactly when it does is proved here, and a third one always does.
 */
module Backfill {
  import opened Options
  import opened CanonicalRecords
  import opened CanonicalStore
  import opened Strings

  // The draft is what processing and canonicalization give for the text; None when they raise.
  datatype RawVersion = RawVersion(id: Id, text: string, draft: Option<Draft>)

  datatype Document = Document(id: Id, canonicalUrl: string, sourceUrl: string, versions: seq<RawVersion>)

  // One selected raw version; no draft when the document cannot be canonicalized.
  datatype Row = Row(document: Id, version: Id, draft: Option<Draft>)

  datatype Counts = Counts(processed: nat, created: nat, rejected: nat, merged: nat)

  datatype RunStatus = Completed | Failed

  datatype BackfillRun = BackfillRun(status: RunStatus, counts: Counts)

  datatype Organization = Organization(active: bool, documents: seq<Document>, records: Store, run: Option<BackfillRun>)

  const NO_COUNTS := Counts(0, 0, 0, 0)

  function AddCounts(a: Counts, b: Counts): Counts {
    Counts(a.processed + b.processed, a.created + b.created, a.rejected + b.rejected, a.merged + b.merged)
  }

  /* ---- Selection ---- */

  /** The newest version with text. */
  function Newest(versions: seq<RawVersion>): Option<RawVersion> {
    if versions == [] then None
    else if versions[|versions| - 1].text != "" then Some(versions[|versions| - 1])
    else Newest(versions[..|versions| - 1])
  }

  function AuditableUrl(d: Document): string {
    if d.canonicalUrl != "" then d.canonicalUrl else d.sourceUrl
  }

  function Select(documents: seq<Document>): seq<Row> {
    if documents == [] then [] else
    var (d, newest) := (documents[0], Newest(documents[0].versions));
    (if newest == None then []
     else [Row(d.id, newest.value.id, if AllSpace(AuditableUrl(d)) then None else newest.value.draft)])
    + Select(documents[1..])
  }

  function Selected(documents: seq<Document>, limit: Option<nat>): seq<Row> {
    var rows := Select(documents);
    if limit == None then rows else rows[..Min(limit.value, |rows|)]
  }

  /* ---- One row, and all rows ---- */

  datatype Outcome = Created | Merged | Rejected

  predicate Versioned(s: Store, version: Id) {
    exists k :: k in s && VersionedFrom(s[k].versions, version)
  }

  function ExtractionOf(row: Row): Extraction
    requires row.draft.Some?
  {
    Extraction(row.document, row.version, row.draft.value)
  }

  function KeyOfRow(row: Row): RecordKey
    requires row.draft.Some?
  {
    KeyOf(row.draft.value)
  }

  /** The rows a rebuild turns into a new record version. */
  predicate Acceptable(s: Store, row: Row) {
    !Versioned(s, row.version) && row.draft.Some? && !Refused(s, ExtractionOf(row))
  }

  function OutcomeOf(s: Store, row: Row): Outcome {
    if Versioned(s, row.version) then Merged
    else if !Acceptable(s, row) then Rejected
    else if KeyOfRow(row) in s then Merged
    else Outcome.Created
  }

  function AfterRow(s: Store, row: Row): Store {
    if Acceptable(s, row) then Persist(s, ExtractionOf(row)) else s
  }

  function AfterRows(s: Store, rows: seq<Row>): Store
    decreases |rows|
  {
    if rows == [] then s else AfterRow(AfterRows(s, rows[..|rows| - 1]), rows[|rows| - 1])
  }

  function Tally(c: Counts, o: Outcome): Counts {
    match o
    case Created => c.(processed := c.processed + 1, created := c.created + 1)
    case Merged => c.(processed := c.processed + 1, merged := c.merged + 1)
    case Rejected => c.(processed := c.processed + 1, rejected := c.rejected + 1)
  }

  function CountRows(s: Store, rows: seq<Row>): Counts
    decreases |rows|
  {
    if rows == [] then NO_COUNTS else
    var before := rows[..|rows| - 1];
    Tally(CountRows(s, before), OutcomeOf(AfterRows(s, before), rows[|rows| - 1]))
  }

  function AfterBackfill(o: Organization, limit: Option<nat>): Organization {
    if !o.active || (o.run.Some? && o.run.value.status == Completed) then o else
    var rows := Selected(o.documents, limit);
    var counts := CountRows(o.records, rows);
    o.(records := AfterRows(o.records, rows),
       run := Some(BackfillRun(if counts.rejected == 0 then Completed else Failed, counts)))
  }

  /* ---- What one accepted row changes ---- */

  lemma AcceptedRecord(s: Store, row: Row)
    requires Acceptable(s, row)
    ensures var (k, s') := (KeyOfRow(row), AfterRow(s, row));
      && s'.Keys == s.Keys + {k}
      && (forall l :: l in s && l != k ==> s'[l] == s[l])
      && (k in s ==>
            && s'[k].rawDocument == s[k].rawDocument
            && s[k].versions <= s'[k].versions && |s'[k].versions| == |s[k].versions| + 1)
      && (k !in s ==> s'[k].rawDocument == row.document && |s'[k].versions| == 1)
      && s'[k].versions[|s'[k].versions| - 1].rawVersion == row.version
  {
  }

  lemma VersionedOneMore(versions: seq<RecordVersion>, longer: seq<RecordVersion>, version: Id)
    requires versions <= longer && |longer| == |versions| + 1
    ensures VersionedFrom(longer, version) <==> VersionedFrom(versions, version) || longer[|versions|].rawVersion == version
  {
    if i :| 0 <= i < |versions| && versions[i].rawVersion == version {
      assert longer[i].rawVersion == version;
    }
    if i :| 0 <= i < |longer| && longer[i].rawVersion == version && i < |versions| {
      assert versions[i].rawVersion == version;
    }
  }

  lemma AcceptedAddsVersion(s: Store, row: Row, version: Id)
    requires Acceptable(s, row)
    ensures Versioned(AfterRow(s, row), version) <==> Versioned(s, version) || version == row.version
  {
    var (k, s') := (KeyOfRow(row), AfterRow(s, row));
    AcceptedRecord(s, row);
    VersionedOneMore(if k in s then s[k].versions else [], s'[k].versions, version);
    if l :| l in s && VersionedFrom(s[l].versions, version) {
      assert l in s' && VersionedFrom(s'[l].versions, version);
    }
    if version == row.version {
      assert k in s' && VersionedFrom(s'[k].versions, version);
    }
    if l :| l in s' && VersionedFrom(s'[l].versions, version) && version != row.version {
      assert l in s && VersionedFrom(s[l].versions, version);
    }
  }

  lemma AcceptedAddsDocument(s: Store, row: Row, document: Id, recordType: string)
    requires Acceptable(s, row)
    ensures DocumentHasRecord(AfterRow(s, row), document, recordType) <==>
            || DocumentHasRecord(s, document, recordType)
            || (KeyOfRow(row) !in s && document == row.document && recordType == row.draft.value.recordType)
  {
    var (k, s') := (KeyOfRow(row), AfterRow(s, row));
    AcceptedRecord(s, row);
    if l :| l in s && l.recordType == recordType && s[l].rawDocument == document {
      assert l in s' && s'[l].rawDocument == document;
    }
    if k !in s && document == row.document && recordType == row.draft.value.recordType {
      assert k in s' && k.recordType == recordType && s'[k].rawDocument == document;
    }
  }

  /** What an accepted row adds: its key, its version, and its document when the key is new. */
  lemma AcceptedAdds(s: Store, row: Row, version: Id, document: Id, recordType: string)
    requires Acceptable(s, row)
    ensures var s' := AfterRow(s, row);
      && s'.Keys == s.Keys + {KeyOfRow(row)}
      && (Versioned(s', version) <==> Versioned(s, version) || version == row.version)
      && (DocumentHasRecord(s', document, recordType) <==>
          || DocumentHasRecord(s, document, recordType)
          || (KeyOfRow(row) !in s && document == row.document && recordType == row.draft.value.recordType))
  {
    AcceptedRecord(s, row);
    AcceptedAddsVersion(s, row, version);
    AcceptedAddsDocument(s, row, document, recordType);
  }

  /* ---- A whole pass in terms of the store it starts from ---- */

  ghost predicate Distinct(rows: seq<Row>) {
    forall i, j :: 0 <= i < j < |rows| ==> rows[i].document != rows[j].document && rows[i].version != rows[j].version
  }

  predicate Candidate(s: Store, row: Row) {
    row.draft.Some? && !Versioned(s, row.version)
  }

  /** The document already has a record of the same type. */
  predicate Taken(s: Store, row: Row)
    requires row.draft.Some?
  {
    DocumentHasRecord(s, row.document, row.draft.value.recordType)
  }

  /** A candidate free to create its record. */
  predicate Free(s: Store, row: Row) {
    Candidate(s, row) && !Taken(s, row)
  }

  ghost predicate FreeWithKey(s: Store, row: Row, k: RecordKey) {
    Free(s, row) && KeyOfRow(row) == k
  }

  ghost predicate KeyPresent(s: Store, rows: seq<Row>, n: nat, k: RecordKey)
    requires n <= |rows|
  {
    k in s || exists j :: 0 <= j < n && FreeWithKey(s, rows[j], k)
  }

  ghost predicate AcceptedAt(s: Store, rows: seq<Row>, i: nat)
    requires i < |rows|
  {
    Candidate(s, rows[i]) && (!Taken(s, rows[i]) || KeyPresent(s, rows, i, KeyOfRow(rows[i])))
  }

  ghost predicate VersionsPrefixed(s: Store, rows: seq<Row>, n: nat, s': Store)
    requires n <= |rows|
  {
    forall i :: 0 <= i < |rows| ==>
      (Versioned(s', rows[i].version) <==> Versioned(s, rows[i].version) || (i < n && AcceptedAt(s, rows, i)))
  }

  ghost predicate DocumentsPrefixed(s: Store, rows: seq<Row>, n: nat, s': Store)
    requires n <= |rows|
  {
    forall i, t :: 0 <= i < |rows| && (n <= i || !AcceptedAt(s, rows, i)) ==>
      (DocumentHasRecord(s', rows[i].document, t) <==> DocumentHasRecord(s, rows[i].document, t))
  }

  ghost predicate KeysPrefixed(s: Store, rows: seq<Row>, n: nat, s': Store)
    requires n <= |rows|
  {
    forall k :: k in s' <==> KeyPresent(s, rows, n, k)
  }

  /** Rows still to come see the store as it was, apart from the keys created meanwhile. */
  ghost predicate Prefixed(s: Store, rows: seq<Row>, n: nat)
    requires n <= |rows|
  {
    var s' := AfterRows(s, rows[..n]);
    VersionsPrefixed(s, rows, n, s') && DocumentsPrefixed(s, rows, n, s') && KeysPrefixed(s, rows, n, s')
  }

  lemma {:induction false} PassPrefixed(s: Store, rows: seq<Row>, n: nat)
    requires Distinct(rows) && n <= |rows|
    ensures Prefixed(s, rows, n)
    decreases n
  {
    if n == 0 {
      assert rows[..0] == [];
    } else {
      PassPrefixed(s, rows, n - 1);
      assert rows[..n][..n - 1] == rows[..n - 1];
      PassStep(s, rows, n - 1);
    }
  }

  lemma StepAccepts(s: Store, rows: seq<Row>, n: nat)
    requires Distinct(rows) && n < |rows| && Prefixed(s, rows, n)
    ensures Acceptable(AfterRows(s, rows[..n]), rows[n]) <==> AcceptedAt(s, rows, n)
  {
    var (s', row) := (AfterRows(s, rows[..n]), rows[n]);
    assert Versioned(s', row.version) <==> Versioned(s, row.version);
    if Candidate(s, row) {
      var k := KeyOfRow(row);
      assert Taken(s', row) <==> Taken(s, row);
      assert k in s' <==> KeyPresent(s, rows, n, k);
      if k in s' {
        assert !VersionedFrom(s'[k].versions, row.version);
      }
    }
  }

  lemma StepVersioned(s: Store, rows: seq<Row>, n: nat, i: nat)
    requires Distinct(rows) && n < |rows| && Prefixed(s, rows, n) && i < |rows|
    requires AfterRows(s, rows[..n + 1]) == AfterRow(AfterRows(s, rows[..n]), rows[n])
    ensures Versioned(AfterRows(s, rows[..n + 1]), rows[i].version) <==>
            Versioned(s, rows[i].version) || (i < n + 1 && AcceptedAt(s, rows, i))
  {
    StepAccepts(s, rows, n);
    if AcceptedAt(s, rows, n) {
      AcceptedAdds(AfterRows(s, rows[..n]), rows[n], rows[i].version, 0, "");
    }
  }

  lemma StepDocument(s: Store, rows: seq<Row>, n: nat, i: nat, t: string)
    requires Distinct(rows) && n < |rows| && Prefixed(s, rows, n)
    requires i < |rows| && (n + 1 <= i || !AcceptedAt(s, rows, i))
    requires AfterRows(s, rows[..n + 1]) == AfterRow(AfterRows(s, rows[..n]), rows[n])
    ensures DocumentHasRecord(AfterRows(s, rows[..n + 1]), rows[i].document, t) <==> DocumentHasRecord(s, rows[i].document, t)
  {
    StepAccepts(s, rows, n);
    if AcceptedAt(s, rows, n) {
      AcceptedAdds(AfterRows(s, rows[..n]), rows[n], 0, rows[i].document, t);
    }
  }

  lemma PassStep(s: Store, rows: seq<Row>, n: nat)
    requires Distinct(rows) && n < |rows| && Prefixed(s, rows, n)
    requires AfterRows(s, rows[..n + 1]) == AfterRow(AfterRows(s, rows[..n]), rows[n])
    ensures Prefixed(s, rows, n + 1)
  {
    StepVersions(s, rows, n);
    StepDocuments(s, rows, n);
    StepKeys(s, rows, n);
  }

  lemma StepVersions(s: Store, rows: seq<Row>, n: nat)
    requires Distinct(rows) && n < |rows| && Prefixed(s, rows, n)
    requires AfterRows(s, rows[..n + 1]) == AfterRow(AfterRows(s, rows[..n]), rows[n])
    ensures VersionsPrefixed(s, rows, n + 1, AfterRows(s, rows[..n + 1]))
  {
    var s' := AfterRows(s, rows[..n + 1]);
    forall i | 0 <= i < |rows|
      ensures Versioned(s', rows[i].version) <==> Versioned(s, rows[i].version) || (i < n + 1 && AcceptedAt(s, rows, i))
    {
      StepVersioned(s, rows, n, i);
    }
  }

  lemma StepDocuments(s: Store, rows: seq<Row>, n: nat)
    requires Distinct(rows) && n < |rows| && Prefixed(s, rows, n)
    requires AfterRows(s, rows[..n + 1]) == AfterRow(AfterRows(s, rows[..n]), rows[n])
    ensures DocumentsPrefixed(s, rows, n + 1, AfterRows(s, rows[..n + 1]))
  {
    var s' := AfterRows(s, rows[..n + 1]);
    forall i, t | 0 <= i < |rows| && (n + 1 <= i || !AcceptedAt(s, rows, i))
      ensures DocumentHasRecord(s', rows[i].document, t) <==> DocumentHasRecord(s, rows[i].document, t)
    {
      StepDocument(s, rows, n, i, t);
    }
  }

  lemma StepKeys(s: Store, rows: seq<Row>, n: nat)
    requires Distinct(rows) && n < |rows| && Prefixed(s, rows, n)
    requires AfterRows(s, rows[..n + 1]) == AfterRow(AfterRows(s, rows[..n]), rows[n])
    ensures KeysPrefixed(s, rows, n + 1, AfterRows(s, rows[..n + 1]))
  {
    var s' := AfterRows(s, rows[..n + 1]);
    forall k
      ensures k in s' <==> KeyPresent(s, rows, n + 1, k)
    {
      StepKey(s, rows, n, k);
    }
  }

  lemma StepKey(s: Store, rows: seq<Row>, n: nat, k: RecordKey)
    requires Distinct(rows) && n < |rows| && Prefixed(s, rows, n)
    requires AfterRows(s, rows[..n + 1]) == AfterRow(AfterRows(s, rows[..n]), rows[n])
    ensures k in AfterRows(s, rows[..n + 1]) <==> KeyPresent(s, rows, n + 1, k)
  {
    StepAccepts(s, rows, n);
    var s' := AfterRows(s, rows[..n]);
    assert k in s' <==> KeyPresent(s, rows, n, k);
    if AcceptedAt(s, rows, n) {
      AcceptedAdds(s', rows[n], 0, 0, "");
    }
    assert FreeWithKey(s, rows[n], k) ==> AcceptedAt(s, rows, n);
  }

  /* ---- Idempotence ---- */

  /** A pass leaves the store alone iff no row is acceptable to begin with. */
  lemma UnchangedIff(s: Store, rows: seq<Row>)
    requires Distinct(rows)
    ensures AfterRows(s, rows) == s <==> forall i :: 0 <= i < |rows| ==> !Acceptable(s, rows[i])
  {
    if forall i :: 0 <= i < |rows| ==> !Acceptable(s, rows[i]) {
      NothingAcceptable(s, rows);
    } else {
      var i :| 0 <= i < |rows| && Acceptable(s, rows[i]);
      PassPrefixed(s, rows, |rows|);
      assert rows[..|rows|] == rows;
      assert AcceptedAt(s, rows, i);
    }
  }

  lemma {:induction false} NothingAcceptable(s: Store, rows: seq<Row>)
    requires forall i :: 0 <= i < |rows| ==> !Acceptable(s, rows[i])
    ensures AfterRows(s, rows) == s
    decreases |rows|
  {
    if rows != [] {
      NothingAcceptable(s, rows[..|rows| - 1]);
    }
  }

  /**
   Two candidates share a record key that no record has yet, and the first candidate with the
   key cannot create the record because its document already has one of that type, while a
   later one can.  The check needs the store and the rows before the first rebuild only.
   */
  ghost predicate LateKey(s: Store, rows: seq<Row>) {
    exists i, j :: 0 <= i < j < |rows| && Overtaken(s, rows, i, j)
  }

  ghost predicate Overtaken(s: Store, rows: seq<Row>, i: nat, j: nat)
    requires i < j < |rows|
  {
    && Candidate(s, rows[i]) && Taken(s, rows[i])
    && FreeWithKey(s, rows[j], KeyOfRow(rows[i]))
    && !KeyPresent(s, rows, i, KeyOfRow(rows[i]))
  }

  /** A second pass changes nothing iff no key arrives late. */
  lemma SecondPassUnchangedIff(s: Store, rows: seq<Row>)
    requires Distinct(rows)
    ensures AfterRows(AfterRows(s, rows), rows) == AfterRows(s, rows) <==> !LateKey(s, rows)
  {
    var s' := AfterRows(s, rows);
    UnchangedIff(s', rows);
    forall i | 0 <= i < |rows|
      ensures Acceptable(s', rows[i]) <==> exists j :: i < j < |rows| && Overtaken(s, rows, i, j)
    {
      AcceptableLaterIff(s, rows, i);
    }
  }

  lemma AcceptableLaterIff(s: Store, rows: seq<Row>, i: nat)
    requires Distinct(rows) && i < |rows|
    ensures Acceptable(AfterRows(s, rows), rows[i]) <==> exists j :: i < j < |rows| && Overtaken(s, rows, i, j)
  {
    var (s', row, n) := (AfterRows(s, rows), rows[i], |rows|);
    PassPrefixed(s, rows, n);
    assert rows[..n] == rows;
    assert Versioned(s', row.version) <==> Versioned(s, row.version) || AcceptedAt(s, rows, i);
    if Candidate(s, row) && !AcceptedAt(s, rows, i) {
      var k := KeyOfRow(row);
      assert Taken(s', row) <==> Taken(s, row);
      assert k in s' <==> KeyPresent(s, rows, n, k);
      if k in s' {
        assert !VersionedFrom(s'[k].versions, row.version);
        var j :| 0 <= j < n && FreeWithKey(s, rows[j], k);
        assert j != i;
        assert i < j && Overtaken(s, rows, i, j);
      }
    }
  }

  /** The second pass settles everything: a third one never changes the store. */
  lemma ThirdPassUnchanged(s: Store, rows: seq<Row>)
    requires Distinct(rows)
    ensures var s' := AfterRows(AfterRows(s, rows), rows); AfterRows(s', rows) == s'
  {
    var s' := AfterRows(s, rows);
    PassPrefixed(s, rows, |rows|);
    assert rows[..|rows|] == rows;
    forall j | 0 <= j < |rows|
      ensures !Free(s', rows[j])
    {
      assert Versioned(s', rows[j].version) <==> Versioned(s, rows[j].version) || AcceptedAt(s, rows, j);
    }
    assert !LateKey(s', rows);
    SecondPassUnchangedIff(s', rows);
  }

  /* ---- Counters, rejected rows and the accepted extractions ---- */

  function Unversioned(s: Store, rows: seq<Row>): nat {
    if rows == [] then 0
    else Unversioned(s, rows[..|rows| - 1]) + if Versioned(s, rows[|rows| - 1].version) then 0 else 1
  }

  lemma CreatedRow(s: Store, row: Row)
    ensures |AfterRow(s, row)| == |s| + if OutcomeOf(s, row) == Outcome.Created then 1 else 0
  {
    if Acceptable(s, row) {
      AcceptedRecord(s, row);
      var k := KeyOfRow(row);
      assert AfterRow(s, row).Keys == s.Keys + {k};
      assert |AfterRow(s, row)| == |AfterRow(s, row).Keys| && |s| == |s.Keys|;
      if k in s {
        assert s.Keys + {k} == s.Keys;
      }
    }
  }

  lemma {:induction false} CreatedCount(s: Store, rows: seq<Row>)
    ensures var c := CountRows(s, rows);
      c.processed == |rows| == c.created + c.merged + c.rejected && c.created == |AfterRows(s, rows)| - |s|
    decreases |rows|
  {
    if rows != [] {
      var (earlier, row) := (rows[..|rows| - 1], rows[|rows| - 1]);
      CreatedCount(s, earlier);
      CreatedRow(AfterRows(s, earlier), row);
    }
  }

  lemma RejectedRow(s: Store, rows: seq<Row>, n: nat)
    requires Distinct(rows) && n < |rows|
    ensures OutcomeOf(AfterRows(s, rows[..n]), rows[n]) == Rejected <==> !Versioned(AfterRows(s, rows), rows[n].version)
  {
    var (before, row) := (AfterRows(s, rows[..n]), rows[n]);
    PassPrefixed(s, rows, n);
    StepAccepts(s, rows, n);
    PassPrefixed(s, rows, |rows|);
    assert rows[..|rows|] == rows;
    assert Versioned(before, row.version) <==> Versioned(s, row.version);
    assert Versioned(AfterRows(s, rows), row.version) <==> Versioned(s, row.version) || AcceptedAt(s, rows, n);
  }

  lemma {:induction false} RejectedCount(s: Store, rows: seq<Row>, n: nat)
    requires Distinct(rows) && n <= |rows|
    ensures CountRows(s, rows[..n]).rejected == Unversioned(AfterRows(s, rows), rows[..n])
    decreases n
  {
    if n == 0 {
      assert rows[..0] == [];
    } else {
      RejectedCount(s, rows, n - 1);
      assert rows[..n][..n - 1] == rows[..n - 1];
      RejectedRow(s, rows, n - 1);
    }
  }

  /**
   Every selected document is created, merged or rejected; the created ones are exactly the new
   records, and the rejected ones exactly those without any record version afterwards.
   */
  lemma CountsMeasureTheStore(s: Store, rows: seq<Row>)
    requires Distinct(rows)
    ensures var (c, s') := (CountRows(s, rows), AfterRows(s, rows));
      && c.processed == |rows| == c.created + c.merged + c.rejected
      && c.created == |s'| - |s|
      && c.rejected == Unversioned(s', rows)
  {
    CreatedCount(s, rows);
    RejectedCount(s, rows, |rows|);
    assert rows[..|rows|] == rows;
  }

  function Accepted(s: Store, rows: seq<Row>): seq<Extraction> {
    if rows == [] then [] else
    var (before, row) := (rows[..|rows| - 1], rows[|rows| - 1]);
    Accepted(s, before) + (if Acceptable(AfterRows(s, before), row) then [ExtractionOf(row)] else [])
  }

  lemma RunSnoc(s: Store, extractions: seq<Extraction>, e: Extraction)
    ensures Run(s, extractions + [e]) == Persist(Run(s, extractions), e)
  {
    assert (extractions + [e])[..|extractions|] == extractions;
  }

  /** A rejected document leaves no trace: the pass is the run of its accepted extractions. */
  lemma {:induction false} PassIsItsAcceptedExtractions(s: Store, rows: seq<Row>)
    ensures AfterRows(s, rows) == Run(s, Accepted(s, rows))
    decreases |rows|
  {
    if rows != [] {
      var (earlier, row) := (rows[..|rows| - 1], rows[|rows| - 1]);
      PassIsItsAcceptedExtractions(s, earlier);
      if Acceptable(AfterRows(s, earlier), row) {
        RunSnoc(s, Accepted(s, earlier), ExtractionOf(row));
      } else {
        assert Accepted(s, rows) == Accepted(s, earlier);
      }
    }
  }

  /* ---- Organizations ---- */

  ghost predicate WellFormed(documents: seq<Document>) {
    forall i, j :: 0 <= i < j < |documents| ==>
      && documents[i].id != documents[j].id
      && forall a, b :: a in documents[i].versions && b in documents[j].versions ==> a.id != b.id
  }

  lemma {:induction false} NewestIsLastWithText(versions: seq<RawVersion>)
    ensures match Newest(versions)
      case None => forall v :: v in versions ==> v.text == ""
      case Some(v) => exists i :: 0 <= i < |versions| && versions[i] == v && v.text != ""
                                  && forall j :: i < j < |versions| ==> versions[j].text == ""
  {
    if versions != [] {
      NewestIsLastWithText(versions[..|versions| - 1]);
    }
  }

  /** The row of a document: its newest version with text, without a draft when no address can be cited. */
  ghost predicate RowOf(row: Row, d: Document) {
    exists i :: 0 <= i < |d.versions|
      && d.versions[i].text != "" && (forall j :: i < j < |d.versions| ==> d.versions[j].text == "")
      && row.document == d.id && row.version == d.versions[i].id
      && (if (d.canonicalUrl != "" && AllSpace(d.canonicalUrl)) || (d.canonicalUrl == "" && AllSpace(d.sourceUrl))
          then row.draft == None else row.draft == d.versions[i].draft)
  }

  lemma SelectOne(d: Document, row: Row)
    ensures row in Select([d]) <==> RowOf(row, d)
    ensures |Select([d])| <= 1
  {
    NewestIsLastWithText(d.versions);
    assert [d][1..] == [] && Select([]) == [];
  }

  /** Documents are taken in order, each for itself. */
  lemma {:induction false} SelectAppends(a: seq<Document>, b: seq<Document>)
    ensures Select(a + b) == Select(a) + Select(b)
  {
    if a == [] {
      assert a + b == b;
    } else {
      SelectAppends(a[1..], b);
      assert (a + b)[1..] == a[1..] + b && (a + b)[0] == a[0];
    }
  }

  /** A rebuild selects the rows of the documents with text and no others; a limit takes the first of them. */
  lemma {:induction false} SelectedAreRows(documents: seq<Document>, row: Row)
    ensures row in Selected(documents, None) <==> exists i :: 0 <= i < |documents| && RowOf(row, documents[i])
    ensures forall n: nat :: Selected(documents, Some(n)) ==
              if n <= |Selected(documents, None)| then Selected(documents, None)[..n] else Selected(documents, None)
  {
    if documents != [] {
      var (front, last) := (documents[..|documents| - 1], documents[|documents| - 1]);
      assert documents == front + [last];
      SelectedAreRows(front, row);
      SelectAppends(front, [last]);
      SelectOne(last, row);
    }
  }

  ghost predicate ComesFrom(row: Row, d: Document) {
    row.document == d.id && exists v :: v in d.versions && v.id == row.version
  }

  lemma {:induction false} SelectOrigin(documents: seq<Document>, row: Row)
    requires row in Select(documents)
    ensures exists i :: 0 <= i < |documents| && ComesFrom(row, documents[i])
  {
    var newest := Newest(documents[0].versions);
    NewestIsLastWithText(documents[0].versions);
    if newest.Some? && row == Select(documents)[0] {
      assert newest.value in documents[0].versions && ComesFrom(row, documents[0]);
    } else {
      SelectOrigin(documents[1..], row);
      var i :| 0 <= i < |documents[1..]| && ComesFrom(row, documents[1..][i]);
      assert ComesFrom(row, documents[i + 1]);
    }
  }

  lemma {:induction false} SelectDistinct(documents: seq<Document>)
    requires WellFormed(documents)
    ensures Distinct(Select(documents))
  {
    if documents != [] {
      NewestIsLastWithText(documents[0].versions);
      SelectDistinct(documents[1..]);
      var (rows, rest) := (Select(documents), Select(documents[1..]));
      if Newest(documents[0].versions).Some? {
        assert ComesFrom(rows[0], documents[0]);
        forall j | 0 <= j < |rest|
          ensures rest[j].document != rows[0].document && rest[j].version != rows[0].version
        {
          SelectOrigin(documents[1..], rest[j]);
          var i :| 0 <= i < |documents[1..]| && ComesFrom(rest[j], documents[1..][i]);
          assert documents[i + 1] == documents[1..][i];
        }
        assert rows == [rows[0]] + rest;
      } else {
        assert rows == rest;
      }
    }
  }

  lemma SelectedDistinct(documents: seq<Document>, limit: Option<nat>)
    requires WellFormed(documents)
    ensures Distinct(Selected(documents, limit))
  {
    SelectDistinct(documents);
  }

  predicate Skipped(o: Organization) {
    !o.active || (o.run.Some? && o.run.value.status == Completed)
  }

  lemma OvertakenIsRejected(s: Store, rows: seq<Row>)
    requires Distinct(rows) && LateKey(s, rows)
    ensures CountRows(s, rows).rejected > 0
  {
    var i, j :| 0 <= i < j < |rows| && Overtaken(s, rows, i, j);
    PassPrefixed(s, rows, |rows|);
    assert rows[..|rows|] == rows;
    var s' := AfterRows(s, rows);
    assert Versioned(s', rows[i].version) <==> Versioned(s, rows[i].version) || AcceptedAt(s, rows, i);
    CountsMeasureTheStore(s, rows);
    UnversionedCounts(s', rows, i);
  }

  lemma {:induction false} UnversionedCounts(s: Store, rows: seq<Row>, i: nat)
    requires i < |rows| && !Versioned(s, rows[i].version)
    ensures Unversioned(s, rows) > 0
  {
    if i < |rows| - 1 {
      UnversionedCounts(s, rows[..|rows| - 1], i);
    }
  }

  /**
   Rebuilding an organization twice leaves the records, versions and changes of rebuilding it
   once iff it is skipped anyway or no key arrives late.
   */
  lemma RebuildTwiceIff(o: Organization, limit: Option<nat>)
    requires WellFormed(o.documents)
    ensures var once := AfterBackfill(o, limit);
      AfterBackfill(once, limit).records == once.records <==>
      Skipped(o) || !LateKey(o.records, Selected(o.documents, limit))
  {
    if !Skipped(o) {
      var rows := Selected(o.documents, limit);
      SelectedDistinct(o.documents, limit);
      SecondPassUnchangedIff(o.records, rows);
      if LateKey(o.records, rows) {
        OvertakenIsRejected(o.records, rows);
      }
    }
  }

  lemma RebuildThriceIsTwice(o: Organization, limit: Option<nat>)
    requires WellFormed(o.documents)
    ensures var twice := AfterBackfill(AfterBackfill(o, limit), limit);
      AfterBackfill(twice, limit).records == twice.records
  {
    SelectedDistinct(o.documents, limit);
    ThirdPassUnchanged(o.records, Selected(o.documents, limit));
  }

  /** The run stored with a rebuild reports its rows, its new records, and the rows left without a version. */
  lemma RunReports(o: Organization, limit: Option<nat>)
    requires WellFormed(o.documents) && !Skipped(o)
    ensures var (o', rows) := (AfterBackfill(o, limit), Selected(o.documents, limit));
      && o'.run.Some? && o'.documents == o.documents && o'.active == o.active
      && var c := o'.run.value.counts;
         && c.processed == |rows| == c.created + c.merged + c.rejected
         && c.created == |o'.records| - |o.records|
         && c.rejected == Unversioned(o'.records, rows)
  {
    SelectedDistinct(o.documents, limit);
    CountsMeasureTheStore(o.records, Selected(o.documents, limit));
  }

  /** A rebuild is marked completed iff every selected document has a record version afterwards. */
  lemma CompletedIffAllVersioned(o: Organization, limit: Option<nat>)
    requires WellFormed(o.documents) && !Skipped(o)
    ensures var o' := AfterBackfill(o, limit);
      && o'.run.Some?
      && (o'.run.value.status == Completed <==>
          forall r :: r in Selected(o.documents, limit) ==> Versioned(o'.records, r.version))
  {
    var rows := Selected(o.documents, limit);
    var s' := AfterRows(o.records, rows);
    SelectedDistinct(o.documents, limit);
    CountsMeasureTheStore(o.records, rows);
    if r :| r in rows && !Versioned(s', r.version) {
      var i :| 0 <= i < |rows| && rows[i] == r;
      UnversionedCounts(s', rows, i);
    } else {
      NothingUnversioned(s', rows);
    }
  }

  lemma {:induction false} NothingUnversioned(s: Store, rows: seq<Row>)
    requires forall r :: r in rows ==> Versioned(s, r.version)
    ensures Unversioned(s, rows) == 0
  {
    if rows != [] {
      NothingUnversioned(s, rows[..|rows| - 1]);
    }
  }

  /* ---- The job ---- */

  function CountsOf(o: Organization, limit: Option<nat>): Counts {
    if Skipped(o) then NO_COUNTS else CountRows(o.records, Selected(o.documents, limit))
  }

  function TotalCounts(organizations: seq<Organization>, limit: Option<nat>): Counts {
    if organizations == [] then NO_COUNTS
    else AddCounts(TotalCounts(organizations[..|organizations| - 1], limit), CountsOf(organizations[|organizations| - 1], limit))
  }

  function AfterAll(organizations: seq<Organization>, limit: Option<nat>): (after: seq<Organization>)
    ensures |after| == |organizations|
  {
    if organizations == [] then []
    else AfterAll(organizations[..|organizations| - 1], limit) + [AfterBackfill(organizations[|organizations| - 1], limit)]
  }

  /** For all organizations together: processed is created, merged and rejected. */
  lemma {:induction false} TotalsBalance(organizations: seq<Organization>, limit: Option<nat>)
    requires forall o :: o in organizations ==> WellFormed(o.documents)
    ensures var c := TotalCounts(organizations, limit); c.processed == c.created + c.merged + c.rejected
  {
    if organizations != [] {
      var o := organizations[|organizations| - 1];
      TotalsBalance(organizations[..|organizations| - 1], limit);
      SelectedDistinct(o.documents, limit);
      CountsMeasureTheStore(o.records, Selected(o.documents, limit));
    }
  }

  /** The job rebuilds every organization by itself and changes nothing about a skipped one. */
  lemma {:induction false} EachRebuilt(organizations: seq<Organization>, limit: Option<nat>, i: nat)
    requires i < |organizations|
    ensures AfterAll(organizations, limit)[i] == AfterBackfill(organizations[i], limit)
    ensures !organizations[i].active || (organizations[i].run.Some? && organizations[i].run.value.status.Completed?) ==>
              AfterAll(organizations, limit)[i] == organizations[i]
  {
    if i < |organizations| - 1 {
      EachRebuilt(organizations[..|organizations| - 1], limit, i);
    }
  }

  /** What an organization adds to the totals is what its run reports; a skipped one adds nothing. */
  lemma CountsReported(o: Organization, limit: Option<nat>)
    ensures CountsOf(o, limit) ==
            if !o.active || (o.run.Some? && o.run.value.status.Completed?) then Counts(0, 0, 0, 0)
            else AfterBackfill(o, limit).run.value.counts
  {
  }

  /** Counter by counter. */
  ghost predicate IsSum(c: Counts, a: Counts, b: Counts) {
    && c.processed == a.processed + b.processed && c.created == a.created + b.created
    && c.rejected == a.rejected + b.rejected && c.merged == a.merged + b.merged
  }

  lemma AddCountsSums(a: Counts, b: Counts)
    ensures IsSum(AddCounts(a, b), a, b)
  {
  }

  /** The totals start at nothing and grow by what each organization adds. */
  lemma TotalsGrow(front: seq<Organization>, o: Organization, limit: Option<nat>)
    ensures TotalCounts([], limit) == Counts(0, 0, 0, 0)
    ensures IsSum(TotalCounts(front + [o], limit), TotalCounts(front, limit), CountsOf(o, limit))
  {
    assert (front + [o])[..|front|] == front;
    AddCountsSums(TotalCounts(front, limit), CountsOf(o, limit));
  }

  class BackfillDatabase {
    var organizations: seq<Organization>

    constructor (stored: seq<Organization>)
      ensures organizations == stored
    {
      organizations := stored;
    }

    /** One selected document between its savepoint and the release or rollback. */
    method BackfillRow(session: CanonicalDatabase, row: Row) returns (outcome: Outcome)
      modifies session
      ensures session.records == AfterRow(old(session.records), row)
      ensures outcome == OutcomeOf(old(session.records), row)
    {
      var savepoint := session.records;
      if Versioned(session.records, row.version) {
        return Merged;
      }
      if row.draft == None {
        return Rejected;
      }
      var existedBefore := KeyOfRow(row) in session.records;
      var raised := session.PersistCanonicalRecord(ExtractionOf(row));
      if raised {
        session.records := savepoint;
        return Rejected;
      }
      outcome := if existedBefore then Merged else Outcome.Created;
    }

    /** The transaction of one organization. */
    method BackfillOrganization(o: Organization, limit: Option<nat>) returns (o': Organization, counts: Counts)
      ensures o' == AfterBackfill(o, limit)
      ensures counts == CountsOf(o, limit)
    {
      if Skipped(o) {
        return o, NO_COUNTS;
      }
      var rows := Selected(o.documents, limit);
      var session := new CanonicalDatabase(o.records);
      counts := NO_COUNTS;
      for i := 0 to |rows|
        invariant session.records == AfterRows(o.records, rows[..i])
        invariant counts == CountRows(o.records, rows[..i])
      {
        assert rows[..i + 1][..i] == rows[..i];
        var outcome := BackfillRow(session, rows[i]);
        counts := Tally(counts, outcome);
      }
      assert rows[..|rows|] == rows;
      var status := if counts.rejected == 0 then Completed else Failed;
      o' := o.(records := session.records, run := Some(BackfillRun(status, counts)));
    }

    method BackfillCanonicalRecords(limit: Option<nat>) returns (counts: Counts)
      modifies this
      ensures organizations == AfterAll(old(organizations), limit)
      ensures counts == TotalCounts(old(organizations), limit)
    {
      var before := organizations;
      counts := NO_COUNTS;
      NoneRebuilt(before, limit);
      for i := 0 to |before|
        invariant RebuiltUpTo(before, i, limit, organizations, counts)
      {
        var o, added := BackfillOrganization(before[i], limit);
        NextRebuilt(before, i, limit, organizations, counts);
        organizations := organizations[i := o];
        counts := AddCounts(counts, added);
      }
      AllRebuilt(before, limit, organizations, counts);
    }
  }

  ghost predicate RebuiltUpTo(before: seq<Organization>, i: nat, limit: Option<nat>, now: seq<Organization>, counts: Counts)
    requires i <= |before|
  {
    now == AfterAll(before[..i], limit) + before[i..] && counts == TotalCounts(before[..i], limit)
  }

  lemma NoneRebuilt(before: seq<Organization>, limit: Option<nat>)
    ensures RebuiltUpTo(before, 0, limit, before, NO_COUNTS)
  {
    assert before[..0] == [] && before[0..] == before;
  }

  lemma NextRebuilt(before: seq<Organization>, i: nat, limit: Option<nat>, now: seq<Organization>, counts: Counts)
    requires i < |before| && RebuiltUpTo(before, i, limit, now, counts)
    ensures |now| == |before|
    ensures RebuiltUpTo(before, i + 1, limit, now[i := AfterBackfill(before[i], limit)],
                    AddCounts(counts, CountsOf(before[i], limit)))
  {
    assert before[..i + 1][..i] == before[..i];
    ReplaceNext(AfterAll(before[..i], limit), before, i, AfterBackfill(before[i], limit));
  }

  lemma ReplaceNext<T>(done: seq<T>, before: seq<T>, i: nat, x: T)
    requires i < |before| && |done| == i
    ensures (done + before[i..])[i := x] == (done + [x]) + before[i + 1..]
  {
  }

  lemma AllRebuilt(before: seq<Organization>, limit: Option<nat>, now: seq<Organization>, counts: Counts)
    requires RebuiltUpTo(before, |before|, limit, now, counts)
    ensures now == AfterAll(before, limit) && counts == TotalCounts(before, limit)
  {
    assert before[..|before|] == before && before[|before|..] == [];
  }

  /* ---- A key that arrives late ---- */

  function SampleDraft(title: string, key: string): Draft {
    Draft("permit", key, title, None, None, None, "", [], [], [], [], [], [], [], [], [], [], [], [], [], None, [], map[])
  }

  /** The references of record rows: to a document, and to a stored raw version. */
  ghost predicate ReferencesHold(o: Organization) {
    forall k :: k in o.records ==>
      && (exists i :: 0 <= i < |o.documents| && o.documents[i].id == o.records[k].rawDocument)
      && forall v :: v in o.records[k].versions ==> Stored(o.documents, v.rawVersion)
  }

  ghost predicate Stored(documents: seq<Document>, version: Id) {
    exists i, j :: 0 <= i < |documents| && 0 <= j < |documents[i].versions| && documents[i].versions[j].id == version
  }

  // Document 1 was first stored before records were kept; its newest version, without text, has one.
  const FIRST := Extraction(1, 10, SampleDraft("Old permit", "old"))
  const EARLIER := RawVersion(11, "text", Some(SampleDraft("Permit", "new")))
  const EMPTY_TEXT := RawVersion(10, "", None)
  const OTHER := RawVersion(20, "text", Some(SampleDraft("Permit", "new")))
  const DOCUMENTS := [Document(1, "https://a", "", [EARLIER, EMPTY_TEXT]), Document(2, "https://A", "", [OTHER])]

  lemma SampleNewest()
    ensures Newest([EARLIER, EMPTY_TEXT]) == Some(EARLIER)
  {
    assert [EARLIER, EMPTY_TEXT][..1] == [EARLIER];
  }

  lemma SampleSelection()
    ensures Selected(DOCUMENTS, None) == [Row(1, 11, EARLIER.draft), Row(2, 20, OTHER.draft)]
  {
    SampleNewest();
    assert 'h' in AuditableUrl(DOCUMENTS[0]) && 'h' in AuditableUrl(DOCUMENTS[1]);
    var rest := [DOCUMENTS[1]];
    assert DOCUMENTS[1..] == rest && rest[1..] == [];
    assert Select(rest) == [Row(2, 20, OTHER.draft)] + Select(rest[1..]);
  }

  lemma SampleStore()
    ensures var (s, k) := (Run(map[], [FIRST]), RecordKey("permit", "old"));
      && s.Keys == {k} && s[k].rawDocument == 1 && |s[k].versions| == 1 && s[k].versions[0].rawVersion == 10
      && !Versioned(s, 11) && !Versioned(s, 20)
  {
    var (s, k) := (Run(map[], [FIRST]), RecordKey("permit", "old"));
    assert [FIRST][..0] == [] && Run(map[], []) == map[];
    assert s == Persist(map[], FIRST) && KeyOf(FIRST.draft) == k;
    assert s[k].versions == [RecordVersion(1, 10, SnapshotOf(FIRST.draft))];
  }

  lemma SampleOvertaken(s: Store, rows: seq<Row>)
    requires s.Keys == {RecordKey("permit", "old")} && s[RecordKey("permit", "old")].rawDocument == 1
    requires !Versioned(s, 11) && !Versioned(s, 20)
    requires rows == [Row(1, 11, EARLIER.draft), Row(2, 20, OTHER.draft)]
    ensures LateKey(s, rows)
  {
    var (old_, new_) := (RecordKey("permit", "old"), RecordKey("permit", "new"));
    assert old_.dedupKey[0] == 'o' && new_.dedupKey[0] == 'n' && KeyOfRow(rows[0]) == new_;
    assert old_ in s && Taken(s, rows[0]);
    assert Overtaken(s, rows, 0, 1);
  }

  lemma SampleReferences(o: Organization)
    requires o.documents == DOCUMENTS && o.records == Run(map[], [FIRST])
    ensures WellFormed(o.documents) && ReferencesHold(o)
  {
    SampleStore();
    assert DOCUMENTS[0].id == 1 && DOCUMENTS[0].versions[1].id == 10;
    assert Stored(DOCUMENTS, 10);
  }

  /**
   Document 1 has a permit record; its newest text yields another key, which document 2 then
   creates.  The first rebuild rejects document 1, the second one gives it a version.
   */
  lemma RebuildTwiceCanDiffer()
    ensures exists o: Organization ::
      && WellFormed(o.documents) && ReferencesHold(o) && o.records == Run(map[], [FIRST])
      && AfterBackfill(AfterBackfill(o, None), None).records != AfterBackfill(o, None).records
  {
    SampleSelection();
    SampleStore();
    var o := Organization(true, DOCUMENTS, Run(map[], [FIRST]), None);
    SampleReferences(o);
    SampleOvertaken(o.records, Selected(DOCUMENTS, None));
    RebuildTwiceIff(o, None);
  }
}
