/**
 What snapshots and change rows say of the extractions themselves: a snapshot reads back as the
 draft it was taken from, the change log as the live record, and a change row is logged for exactly
 the fields of the draft that changed.
 */
module CanonicalDrafts {
  import opened Options
  import opened CanonicalRecords
  import opened CanonicalStore

  /* ---- Reading a snapshot back ---- */

  function ReadText(j: Json): string {
    if j.Text? then j.text else ""
  }

  function ReadNullable(j: Json): Option<string> {
    if j.Text? then Some(j.text) else None
  }

  function ReadList(j: Json): seq<string> {
    if j.List? then j.items else []
  }

  function ReadObject(j: Json): map<string, seq<string>> {
    if j.Object? then j.fields else map[]
  }

  function DraftFrom(s: Snapshot, dedupKey: string): Draft
    requires forall f: Field :: f in s
  {
    Draft(
      ReadText(s[RecordType]), dedupKey, ReadText(s[Title]),
      ReadNullable(s[PublishedAt]), ReadNullable(s[EventDate]), ReadNullable(s[EffectiveDate]),
      ReadText(s[Summary]), ReadList(s[KeyFacts]), ReadList(s[Entities]), ReadList(s[People]), ReadList(s[Organizations]),
      ReadList(s[Addresses]), ReadList(s[ParcelNumbers]), ReadList(s[CaseNumbers]), ReadList(s[PermitNumbers]),
      ReadList(s[ProjectNames]), ReadList(s[MoneyAmounts]), ReadList(s[Deadlines]), ReadList(s[Actions]),
      ReadList(s[Decisions]), ReadNullable(s[Status]), ReadList(s[Topics]), ReadObject(s[TypedPayload]))
  }

  ghost predicate Columns(s: Snapshot, d: Draft) {
    forall f: Field :: f in s && s[f] == Column(d, f)
  }

  lemma ScalarsRead(s: Snapshot, d: Draft)
    requires Columns(s, d)
    ensures ReadText(s[RecordType]) == d.recordType && ReadText(s[Title]) == d.title && ReadText(s[Summary]) == d.summary
    ensures ReadNullable(s[PublishedAt]) == d.publishedAt && ReadNullable(s[EventDate]) == d.eventDate
    ensures ReadNullable(s[EffectiveDate]) == d.effectiveDate && ReadNullable(s[Status]) == d.status
    ensures ReadObject(s[TypedPayload]) == d.typedPayload
  {
  }

  lemma ListsRead(s: Snapshot, d: Draft)
    requires Columns(s, d)
    ensures ReadList(s[KeyFacts]) == d.keyFacts && ReadList(s[Entities]) == d.entities && ReadList(s[People]) == d.people
    ensures ReadList(s[Organizations]) == d.organizations && ReadList(s[Addresses]) == d.addresses
    ensures ReadList(s[ParcelNumbers]) == d.parcelNumbers && ReadList(s[CaseNumbers]) == d.caseNumbers
  {
  }

  lemma MoreListsRead(s: Snapshot, d: Draft)
    requires Columns(s, d)
    ensures ReadList(s[PermitNumbers]) == d.permitNumbers && ReadList(s[ProjectNames]) == d.projectNames
    ensures ReadList(s[MoneyAmounts]) == d.moneyAmounts && ReadList(s[Deadlines]) == d.deadlines
    ensures ReadList(s[Actions]) == d.actions && ReadList(s[Decisions]) == d.decisions && ReadList(s[Topics]) == d.topics
  {
  }

  lemma ColumnsRead(s: Snapshot, d: Draft)
    requires Columns(s, d)
    ensures (forall f: Field :: f in s) && DraftFrom(s, d.dedupKey) == d
  {
    ScalarsRead(s, d);
    ListsRead(s, d);
    MoreListsRead(s, d);
  }

  /** A snapshot reads back as its draft. */
  lemma SnapshotReads(d: Draft)
    ensures (forall f: Field :: f in SnapshotOf(d)) && DraftFrom(SnapshotOf(d), d.dedupKey) == d
  {
    SnapshotTotal(d);
    ColumnsRead(SnapshotOf(d), d);
  }

  /** Two drafts have the same snapshot iff they agree on everything but the deduplication key. */
  lemma SnapshotsAgreeIff(a: Draft, b: Draft)
    ensures SnapshotOf(a) == SnapshotOf(b) <==> a.(dedupKey := b.dedupKey) == b
  {
    SnapshotReads(a);
    SnapshotReads(b);
    if SnapshotOf(a) == SnapshotOf(b) {
      assert DraftFrom(SnapshotOf(a), b.dedupKey) == a.(dedupKey := b.dedupKey);
    } else {
      KeyNotInSnapshot(a, b.dedupKey);
    }
  }

  lemma KeyNotInSnapshot(d: Draft, dedupKey: string)
    ensures SnapshotOf(d.(dedupKey := dedupKey)) == SnapshotOf(d)
  {
    var other := d.(dedupKey := dedupKey);
    SnapshotTotal(d);
    SnapshotTotal(other);
    forall f
      ensures SnapshotOf(other)[f] == SnapshotOf(d)[f]
    {
      ColumnIgnoresKey(d, dedupKey, f);
    }
  }

  lemma ColumnIgnoresKey(d: Draft, dedupKey: string, f: Field)
    ensures Column(d.(dedupKey := dedupKey), f) == Column(d, f)
  {
  }

  /* ---- One change row for each field that changed ---- */

  /** The values before and after of the changes that name a field, in order. */
  function Logged(changes: seq<Change>, f: Field): seq<(Json, Json)> {
    if changes == [] then [] else
    var last := changes[|changes| - 1];
    Logged(changes[..|changes| - 1], f) + (if last.Altered? && last.field == f then [(last.before, last.after)] else [])
  }

  /** One change between different values, none between equal ones. */
  function Once(before: Json, after: Json): seq<(Json, Json)> {
    if before == after then [] else [(before, after)]
  }

  lemma LoggedSnoc(changes: seq<Change>, c: Change, f: Field)
    ensures Logged(changes + [c], f) == Logged(changes, f) + if c.Altered? && c.field == f then [(c.before, c.after)] else []
  {
    assert (changes + [c])[..|changes|] == changes;
  }

  /** The changes under `f` after one more field. */
  lemma DiffNext(recordType: string, previous: Snapshot, current: Snapshot, front: seq<Field>, g: Field, f: Field)
    ensures Logged(Diff(recordType, previous, current, front + [g]), f)
         == Logged(Diff(recordType, previous, current, front), f)
            + if g == f then Once(Get(previous, g), Get(current, g)) else []
  {
    assert (front + [g])[..|front|] == front;
    var earlier := Diff(recordType, previous, current, front);
    var c := Altered(KindOf(recordType, g, Get(current, g)), g, Get(previous, g), Get(current, g));
    if Get(previous, g) != Get(current, g) {
      LoggedSnoc(earlier, c, f);
    } else {
      assert earlier + [] == earlier;
      assert Logged(earlier, f) + [] == Logged(earlier, f);
    }
  }

  ghost predicate OnceIn(order: seq<Field>, f: Field) {
    exists i :: 0 <= i < |order| && order[i] == f && forall j :: 0 <= j < |order| && j != i ==> order[j] != f
  }

  lemma OnceInFront(order: seq<Field>, f: Field)
    requires OnceIn(order, f)
    ensures var (front, last) := (order[..|order| - 1], order[|order| - 1]);
      order == front + [last] && if last == f then f !in front else OnceIn(front, f)
  {
    var i :| 0 <= i < |order| && order[i] == f && forall j :: 0 <= j < |order| && j != i ==> order[j] != f;
    if i < |order| - 1 {
      assert order[..|order| - 1][i] == f;
    }
  }

  lemma {:induction false} DiffWithout(recordType: string, previous: Snapshot, current: Snapshot, order: seq<Field>, f: Field)
    requires f !in order
    ensures Logged(Diff(recordType, previous, current, order), f) == []
  {
    if order != [] {
      var (front, g) := (order[..|order| - 1], order[|order| - 1]);
      assert order == front + [g] && g in order;
      DiffWithout(recordType, previous, current, front, f);
      DiffNext(recordType, previous, current, front, g, f);
    }
  }

  lemma {:induction false} DiffLogs(recordType: string, previous: Snapshot, current: Snapshot, order: seq<Field>, f: Field)
    requires OnceIn(order, f)
    ensures Logged(Diff(recordType, previous, current, order), f) == Once(Get(previous, f), Get(current, f))
  {
    var (front, g) := (order[..|order| - 1], order[|order| - 1]);
    OnceInFront(order, f);
    DiffNext(recordType, previous, current, front, g, f);
    if g == f {
      DiffWithout(recordType, previous, current, front, f);
    } else {
      DiffLogs(recordType, previous, current, front, f);
    }
  }

  lemma FieldIndex(f: Field) returns (i: nat)
    ensures i < |FIELDS| && FIELDS[i] == f
  {
    AllFields(f);
    i :| 0 <= i < |FIELDS| && FIELDS[i] == f;
  }

  function Ordinal(f: Field): nat {
    match f
    case RecordType => 0 case Title => 1 case PublishedAt => 2 case EventDate => 3 case EffectiveDate => 4
    case Summary => 5 case KeyFacts => 6 case Entities => 7 case People => 8 case Organizations => 9
    case Addresses => 10 case ParcelNumbers => 11 case CaseNumbers => 12 case PermitNumbers => 13
    case ProjectNames => 14 case MoneyAmounts => 15 case Deadlines => 16 case Actions => 17 case Decisions => 18
    case Status => 19 case Topics => 20 case TypedPayload => 21
  }

  lemma OrdinalOf(i: nat)
    requires i < |FIELDS|
    ensures Ordinal(FIELDS[i]) == i
  {
  }

  lemma FieldsOnce(f: Field)
    ensures OnceIn(FIELDS, f)
  {
    var i := FieldIndex(f);
    OrdinalOf(i);
    forall j | 0 <= j < |FIELDS| && j != i
      ensures FIELDS[j] != f
    {
      OrdinalOf(j);
    }
  }

  lemma FieldLogged(d: Draft, previous: Draft, f: Field)
    ensures Logged(Changes(d, Some(SnapshotOf(previous))), f) == Once(Column(previous, f), Column(d, f))
  {
    FieldsOnce(f);
    SnapshotTotal(d);
    SnapshotTotal(previous);
    DiffLogs(d.recordType, SnapshotOf(previous), SnapshotOf(d), FIELDS, f);
  }

  ghost predicate LogsColumns(changes: seq<Change>, previous: Draft, d: Draft) {
    forall f :: Logged(changes, f) == Once(Column(previous, f), Column(d, f))
  }

  lemma ColumnLogged(changes: seq<Change>, d: Draft, previous: Draft, f: Field, before: Json, after: Json)
    requires LogsColumns(changes, previous, d) && before == Column(previous, f) && after == Column(d, f)
    ensures Logged(changes, f) == Once(before, after)
  {
  }

  /** The stored form of a date or status that may be missing. */
  ghost predicate Shows(j: Json, value: Option<string>) {
    match value
    case None => j == Null
    case Some(text) => j == Text(text)
  }

  ghost predicate LogsNullable(changes: seq<Change>, f: Field, before: Option<string>, after: Option<string>) {
    exists b, a :: Shows(b, before) && Shows(a, after) && Logged(changes, f) == Once(b, a)
  }

  lemma NullableLogged(changes: seq<Change>, d: Draft, previous: Draft, f: Field, before: Option<string>, after: Option<string>)
    requires LogsColumns(changes, previous, d)
    requires Nullable(before) == Column(previous, f) && Nullable(after) == Column(d, f)
    ensures LogsNullable(changes, f, before, after)
  {
    ColumnLogged(changes, d, previous, f, Nullable(before), Nullable(after));
    assert Shows(Nullable(before), before) && Shows(Nullable(after), after);
  }

  /** The texts: type, title and summary. */
  ghost predicate LogsTexts(changes: seq<Change>, previous: Draft, d: Draft) {
    && Logged(changes, RecordType) == Once(Text(previous.recordType), Text(d.recordType))
    && Logged(changes, Title) == Once(Text(previous.title), Text(d.title))
    && Logged(changes, Summary) == Once(Text(previous.summary), Text(d.summary))
  }

  lemma LogsTextsFrom(changes: seq<Change>, previous: Draft, d: Draft)
    requires LogsColumns(changes, previous, d)
    ensures LogsTexts(changes, previous, d)
  {
    ColumnLogged(changes, d, previous, RecordType, Text(previous.recordType), Text(d.recordType));
    ColumnLogged(changes, d, previous, Title, Text(previous.title), Text(d.title));
    ColumnLogged(changes, d, previous, Summary, Text(previous.summary), Text(d.summary));
  }

  /** The values that may be missing: three dates and the status. */
  ghost predicate LogsNullables(changes: seq<Change>, previous: Draft, d: Draft) {
    && LogsNullable(changes, PublishedAt, previous.publishedAt, d.publishedAt)
    && LogsNullable(changes, EventDate, previous.eventDate, d.eventDate)
    && LogsNullable(changes, EffectiveDate, previous.effectiveDate, d.effectiveDate)
    && LogsNullable(changes, Status, previous.status, d.status)
  }

  lemma LogsNullablesFrom(changes: seq<Change>, previous: Draft, d: Draft)
    requires LogsColumns(changes, previous, d)
    ensures LogsNullables(changes, previous, d)
  {
    NullableLogged(changes, d, previous, PublishedAt, previous.publishedAt, d.publishedAt);
    NullableLogged(changes, d, previous, EventDate, previous.eventDate, d.eventDate);
    NullableLogged(changes, d, previous, EffectiveDate, previous.effectiveDate, d.effectiveDate);
    NullableLogged(changes, d, previous, Status, previous.status, d.status);
  }

  /** The lists taken from entities and places. */
  ghost predicate LogsLists(changes: seq<Change>, previous: Draft, d: Draft) {
    && Logged(changes, KeyFacts) == Once(List(previous.keyFacts), List(d.keyFacts))
    && Logged(changes, Entities) == Once(List(previous.entities), List(d.entities))
    && Logged(changes, People) == Once(List(previous.people), List(d.people))
    && Logged(changes, Organizations) == Once(List(previous.organizations), List(d.organizations))
    && Logged(changes, Addresses) == Once(List(previous.addresses), List(d.addresses))
    && Logged(changes, ParcelNumbers) == Once(List(previous.parcelNumbers), List(d.parcelNumbers))
    && Logged(changes, CaseNumbers) == Once(List(previous.caseNumbers), List(d.caseNumbers))
    && Logged(changes, PermitNumbers) == Once(List(previous.permitNumbers), List(d.permitNumbers))
  }

  lemma LogsListsFrom(changes: seq<Change>, previous: Draft, d: Draft)
    requires LogsColumns(changes, previous, d)
    ensures LogsLists(changes, previous, d)
  {
    ColumnLogged(changes, d, previous, KeyFacts, List(previous.keyFacts), List(d.keyFacts));
    ColumnLogged(changes, d, previous, Entities, List(previous.entities), List(d.entities));
    ColumnLogged(changes, d, previous, People, List(previous.people), List(d.people));
    ColumnLogged(changes, d, previous, Organizations, List(previous.organizations), List(d.organizations));
    ColumnLogged(changes, d, previous, Addresses, List(previous.addresses), List(d.addresses));
    ColumnLogged(changes, d, previous, ParcelNumbers, List(previous.parcelNumbers), List(d.parcelNumbers));
    ColumnLogged(changes, d, previous, CaseNumbers, List(previous.caseNumbers), List(d.caseNumbers));
    ColumnLogged(changes, d, previous, PermitNumbers, List(previous.permitNumbers), List(d.permitNumbers));
  }

  /** The remaining lists and the payload. */
  ghost predicate LogsRest(changes: seq<Change>, previous: Draft, d: Draft) {
    && Logged(changes, ProjectNames) == Once(List(previous.projectNames), List(d.projectNames))
    && Logged(changes, MoneyAmounts) == Once(List(previous.moneyAmounts), List(d.moneyAmounts))
    && Logged(changes, Deadlines) == Once(List(previous.deadlines), List(d.deadlines))
    && Logged(changes, Actions) == Once(List(previous.actions), List(d.actions))
    && Logged(changes, Decisions) == Once(List(previous.decisions), List(d.decisions))
    && Logged(changes, Topics) == Once(List(previous.topics), List(d.topics))
    && Logged(changes, TypedPayload) == Once(Object(previous.typedPayload), Object(d.typedPayload))
  }

  lemma LogsRestFrom(changes: seq<Change>, previous: Draft, d: Draft)
    requires LogsColumns(changes, previous, d)
    ensures LogsRest(changes, previous, d)
  {
    ColumnLogged(changes, d, previous, ProjectNames, List(previous.projectNames), List(d.projectNames));
    ColumnLogged(changes, d, previous, MoneyAmounts, List(previous.moneyAmounts), List(d.moneyAmounts));
    ColumnLogged(changes, d, previous, Deadlines, List(previous.deadlines), List(d.deadlines));
    ColumnLogged(changes, d, previous, Actions, List(previous.actions), List(d.actions));
    ColumnLogged(changes, d, previous, Decisions, List(previous.decisions), List(d.decisions));
    ColumnLogged(changes, d, previous, Topics, List(previous.topics), List(d.topics));
    ColumnLogged(changes, d, previous, TypedPayload, Object(previous.typedPayload), Object(d.typedPayload));
  }

  /**
   For every field of the draft: one change under its name, with the old and the new value, iff the
   draft's field changed.
   */
  lemma EveryFieldLogged(d: Draft, previous: Draft)
    ensures var changes := Changes(d, Some(SnapshotOf(previous)));
      && LogsTexts(changes, previous, d) && LogsNullables(changes, previous, d)
      && LogsLists(changes, previous, d) && LogsRest(changes, previous, d)
  {
    var changes := Changes(d, Some(SnapshotOf(previous)));
    forall f
      ensures Logged(changes, f) == Once(Column(previous, f), Column(d, f))
    {
      FieldLogged(d, previous, f);
    }
    LogsEverything(changes, previous, d);
  }

  lemma LogsEverything(changes: seq<Change>, previous: Draft, d: Draft)
    requires LogsColumns(changes, previous, d)
    ensures LogsTexts(changes, previous, d) && LogsNullables(changes, previous, d)
    ensures LogsLists(changes, previous, d) && LogsRest(changes, previous, d)
  {
    LogsTextsFrom(changes, previous, d);
    LogsNullablesFrom(changes, previous, d);
    LogsListsFrom(changes, previous, d);
    LogsRestFrom(changes, previous, d);
  }

  /** Changed deadlines have their own kind of change, in every record. */
  lemma DeadlineChangeReported(d: Draft, previous: Draft)
    ensures Reports(Changes(d, Some(SnapshotOf(previous))), DeadlineChanged) <==> d.deadlines != previous.deadlines
  {
    forall g, value
      ensures KindOf(d.recordType, g, value) == DeadlineChanged <==> g == Deadlines
    {
      DeadlineKindOf(d.recordType, g, value);
    }
    KindReported(d, previous, DeadlineChanged, Deadlines);
  }

  lemma DeadlineKindOf(recordType: string, f: Field, value: Json)
    ensures KindOf(recordType, f, value) == DeadlineChanged <==> f == Deadlines
  {
  }

  /** Every change is of the general kind, except those of deadlines, amounts and status. */
  lemma OtherKindsAreGeneral(d: Draft, previous: Draft, c: Change)
    requires c in Changes(d, Some(SnapshotOf(previous)))
    ensures c.Altered? && (c.field !in {Deadlines, MoneyAmounts, Status} ==> c.kind == FieldChanged)
  {
    DiffKinds(d.recordType, SnapshotOf(previous), SnapshotOf(d), FIELDS);
  }

  /* ---- The store ---- */

  /** What an extraction makes of its record. */
  ghost predicate StoredFrom(r: Record, e: Extraction, versions: nat) {
    && r.live == e.draft && |r.versions| == versions + 1
    && r.versions[versions].rawVersion == e.rawVersion && DraftIn(r.versions[versions].snapshot, e.draft)
  }

  lemma ExtendedStores(r: Record, e: Extraction)
    ensures StoredFrom(Extended(r, e), e, |r.versions|) && Extended(r, e).rawDocument == r.rawDocument
  {
    SnapshotReads(e.draft);
  }

  lemma PersistFrame(s: Store, e: Extraction, k: RecordKey)
    requires !Refused(s, e)
    ensures var (own, s') := (RecordKey(e.draft.recordType, e.draft.dedupKey), Persist(s, e));
      && (k in s' <==> k in s || k == own)
      && (k in s && k != own ==> s'[k] == s[k])
      && s'[own] == Extended(if own in s then s[own] else Record(e.rawDocument, e.draft, [], []), e)
  {
  }

  /** One extraction stores the draft as the live record and as a new version; every other record stays. */
  lemma PersistStores(s: Store, e: Extraction, k: RecordKey)
    requires !Refused(s, e)
    ensures var (own, s') := (RecordKey(e.draft.recordType, e.draft.dedupKey), Persist(s, e));
      && (k in s' <==> k in s || k == own)
      && (k in s && k != own ==> s'[k] == s[k])
      && own in s'
      && s'[own].rawDocument == (if own in s then s[own].rawDocument else e.rawDocument)
      && StoredFrom(s'[own], e, if own in s then |s[own].versions| else 0)
  {
    var own := RecordKey(e.draft.recordType, e.draft.dedupKey);
    PersistFrame(s, e, k);
    ExtendedStores(if own in s then s[own] else Record(e.rawDocument, e.draft, [], []), e);
  }

  /** The snapshot holds the draft. */
  ghost predicate DraftIn(s: Snapshot, d: Draft) {
    (forall f: Field :: f in s) && DraftFrom(s, d.dedupKey) == d
  }

  /** When a uniqueness rule refuses an extraction: its version is recorded, or its document has another record of the type. */
  lemma RefusedIff(s: Store, e: Extraction)
    ensures var own := RecordKey(e.draft.recordType, e.draft.dedupKey);
      Refused(s, e) <==>
        || (own in s && exists i :: 0 <= i < |s[own].versions| && s[own].versions[i].rawVersion == e.rawVersion)
        || (own !in s && exists k :: k in s && k.recordType == e.draft.recordType && s[k].rawDocument == e.rawDocument)
    ensures Refused(s, e) ==> Persist(s, e) == s
  {
  }

  /** Over every sequence of extractions the change log of a record reads back as its live draft. */
  lemma LogReadsAsLive(extractions: seq<Extraction>, k: RecordKey)
    requires k in Run(map[], extractions)
    ensures var r := Run(map[], extractions)[k];
      && (forall f: Field :: f in ReplayTo(r.changes, |r.versions|))
      && DraftFrom(ReplayTo(r.changes, |r.versions|), k.dedupKey) == r.live
  {
    EveryStoreSound(extractions);
    var r := Run(map[], extractions)[k];
    SoundRecordRebuilds(k, r);
    SnapshotReads(r.live);
  }

  /** The last extraction of a key that was not refused. */
  function LastAccepted(extractions: seq<Extraction>, k: RecordKey): Option<Draft>
    decreases |extractions|
  {
    if extractions == [] then None else
    var (before, e) := (extractions[..|extractions| - 1], extractions[|extractions| - 1]);
    if RecordKey(e.draft.recordType, e.draft.dedupKey) == k && !Refused(Run(map[], before), e) then Some(e.draft)
    else LastAccepted(before, k)
  }

  /** Over every sequence of extractions a record is live as the last one accepted for its key left it. */
  lemma {:induction false} LiveIsLastAccepted(extractions: seq<Extraction>, k: RecordKey)
    ensures var s := Run(map[], extractions);
      if k in s then LastAccepted(extractions, k) == Some(s[k].live) else LastAccepted(extractions, k) == None
    decreases |extractions|
  {
    if extractions != [] {
      var (before, e) := (extractions[..|extractions| - 1], extractions[|extractions| - 1]);
      LiveIsLastAccepted(before, k);
      RefusedIff(Run(map[], before), e);
      if !Refused(Run(map[], before), e) {
        PersistStores(Run(map[], before), e, k);
      }
    }
  }

  /** An accepted extraction of a known record adds no change row iff it is the live draft once more. */
  lemma NothingLoggedIffSameDraft(s: Store, e: Extraction)
    requires StoreSound(s) && KeyOf(e.draft) in s && !Refused(s, e)
    ensures var (r, r') := (s[KeyOf(e.draft)], Persist(s, e)[KeyOf(e.draft)]);
      r'.changes == r.changes <==> e.draft == r.live
  {
    var r := s[KeyOf(e.draft)];
    assert RecordSound(KeyOf(e.draft), r) && r.live.dedupKey == e.draft.dedupKey;
    IdenticalExtractionLogsNothing(s, e);
    SnapshotsAgreeIff(e.draft, r.live);
  }
}
