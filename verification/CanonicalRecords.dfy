/**
 Canonical civic records: every persisted extraction adds a version with a full snapshot and
 the field-level changes against the version before it. The change log alone rebuilds every
 version.
 */
module CanonicalRecords {
  import opened Options

  type Id = nat

  datatype Json = Null | Text(text: string) | List(items: seq<string>) | Object(fields: map<string, seq<string>>)

  datatype Draft = Draft(
    recordType: string, dedupKey: string, title: string,
    publishedAt: Option<string>, eventDate: Option<string>, effectiveDate: Option<string>,
    summary: string, keyFacts: seq<string>, entities: seq<string>, people: seq<string>, organizations: seq<string>,
    addresses: seq<string>, parcelNumbers: seq<string>, caseNumbers: seq<string>, permitNumbers: seq<string>,
    projectNames: seq<string>, moneyAmounts: seq<string>, deadlines: seq<string>, actions: seq<string>,
    decisions: seq<string>, status: Option<string>, topics: seq<string>, typedPayload: map<string, seq<string>>)

  // The keys of a snapshot, in the order of its dictionary.
  datatype Field =
    | RecordType | Title | PublishedAt | EventDate | EffectiveDate | Summary | KeyFacts | Entities | People
    | Organizations | Addresses | ParcelNumbers | CaseNumbers | PermitNumbers | ProjectNames | MoneyAmounts
    | Deadlines | Actions | Decisions | Status | Topics | TypedPayload

  const FIELDS: seq<Field> := [
    RecordType, Title, PublishedAt, EventDate, EffectiveDate, Summary, KeyFacts, Entities, People, Organizations,
    Addresses, ParcelNumbers, CaseNumbers, PermitNumbers, ProjectNames, MoneyAmounts, Deadlines, Actions, Decisions,
    Status, Topics, TypedPayload]

  function Nullable(value: Option<string>): Json {
    if value == None then Null else Text(value.value)
  }

  function Column(d: Draft, f: Field): Json {
    match f
    case RecordType => Text(d.recordType)
    case Title => Text(d.title)
    case PublishedAt => Nullable(d.publishedAt)
    case EventDate => Nullable(d.eventDate)
    case EffectiveDate => Nullable(d.effectiveDate)
    case Summary => Text(d.summary)
    case KeyFacts => List(d.keyFacts)
    case Entities => List(d.entities)
    case People => List(d.people)
    case Organizations => List(d.organizations)
    case Addresses => List(d.addresses)
    case ParcelNumbers => List(d.parcelNumbers)
    case CaseNumbers => List(d.caseNumbers)
    case PermitNumbers => List(d.permitNumbers)
    case ProjectNames => List(d.projectNames)
    case MoneyAmounts => List(d.moneyAmounts)
    case Deadlines => List(d.deadlines)
    case Actions => List(d.actions)
    case Decisions => List(d.decisions)
    case Status => Nullable(d.status)
    case Topics => List(d.topics)
    case TypedPayload => Object(d.typedPayload)
  }

  type Snapshot = map<Field, Json>

  function SnapshotOf(d: Draft): Snapshot {
    map f | f in FIELDS :: Column(d, f)
  }

  /* ---- Changes ---- */

  datatype ChangeType =
    | FieldChanged | DeadlineChanged | ProjectValueIncreased | ZoningApproved | ZoningDenied
    | ContractAwarded | OrdinanceAdopted

  // A new record carries its whole snapshot; any other change carries one field before and after.
  datatype Change =
    | Created(snapshot: Snapshot)
    | Altered(kind: ChangeType, field: Field, before: Json, after: Json)

  function KindOf(recordType: string, f: Field, value: Json): ChangeType {
    if f == Deadlines then DeadlineChanged
    else if f == MoneyAmounts && (recordType == "contract_award" || recordType == "budget_financial_report")
    then ProjectValueIncreased
    else if f == Status && recordType == "planning_zoning_case" && value == Text("approved") then ZoningApproved
    else if f == Status && recordType == "planning_zoning_case" && value == Text("denied") then ZoningDenied
    else if f == Status && recordType == "contract_award" && value == Text("approved") then ContractAwarded
    else if f == Status && recordType == "ordinance" && value == Text("approved") then OrdinanceAdopted
    else FieldChanged
  }

  function Get(s: Snapshot, f: Field): Json {
    if f in s then s[f] else Null
  }

  /** The changed fields among `order`, in that order. */
  function Diff(recordType: string, previous: Snapshot, current: Snapshot, order: seq<Field>): seq<Change> {
    if order == [] then [] else
    var f := order[|order| - 1];
    Diff(recordType, previous, current, order[..|order| - 1])
    + (if Get(previous, f) != Get(current, f)
       then [Altered(KindOf(recordType, f, Get(current, f)), f, Get(previous, f), Get(current, f))] else [])
  }

  function Changes(d: Draft, previous: Option<Snapshot>): seq<Change> {
    if previous == None then [Created(SnapshotOf(d))]
    else Diff(d.recordType, previous.value, SnapshotOf(d), FIELDS)
  }

  function ApplyChange(s: Snapshot, c: Change): Snapshot {
    match c
    case Created(snapshot) => snapshot
    case Altered(_, f, _, after) => s[f := after]
  }

  function Replay(s: Snapshot, changes: seq<Change>): Snapshot {
    if changes == [] then s else ApplyChange(Replay(s, changes[..|changes| - 1]), changes[|changes| - 1])
  }

  lemma {:induction false} ReplayAppend(s: Snapshot, a: seq<Change>, b: seq<Change>)
    ensures Replay(s, a + b) == Replay(Replay(s, a), b)
  {
    if b == [] {
      assert a + b == a;
    } else {
      assert (a + b)[..|a + b| - 1] == a + b[..|b| - 1];
      ReplayAppend(s, a, b[..|b| - 1]);
    }
  }

  lemma {:induction false} DiffReplays(recordType: string, previous: Snapshot, current: Snapshot, order: seq<Field>)
    requires previous.Keys == current.Keys
    requires forall i :: 0 <= i < |order| ==> order[i] in current
    ensures var result := Replay(previous, Diff(recordType, previous, current, order));
      && result.Keys == current.Keys
      && forall f :: f in current ==> result[f] == if f in order then current[f] else previous[f]
  {
    if order != [] {
      var before, f := order[..|order| - 1], order[|order| - 1];
      DiffReplays(recordType, previous, current, before);
      var earlier := Diff(recordType, previous, current, before);
      if Get(previous, f) != Get(current, f) {
        ReplayAppend(previous, earlier, [Altered(KindOf(recordType, f, Get(current, f)), f, Get(previous, f), Get(current, f))]);
      } else {
        assert earlier + [] == earlier;
      }
      forall g | g in current
        ensures g in order <==> g in before || g == f
      {
      }
    }
  }

  /** Each change names a field that differs, with its value before and after. */
  ghost predicate Describes(c: Change, previous: Snapshot, current: Snapshot) {
    && c.Altered? && c.field in previous && c.field in current
    && c.before == previous[c.field] && c.after == current[c.field] && c.before != c.after
  }

  lemma {:induction false} DiffDescribes(recordType: string, previous: Snapshot, current: Snapshot, order: seq<Field>)
    requires forall i :: 0 <= i < |order| ==> order[i] in previous && order[i] in current
    ensures forall c :: c in Diff(recordType, previous, current, order) ==> Describes(c, previous, current) && c.field in order
    ensures forall f :: f in order && previous[f] != current[f] ==>
              exists c :: c in Diff(recordType, previous, current, order) && c.Altered? && c.field == f
  {
    if order != [] {
      var before, f := order[..|order| - 1], order[|order| - 1];
      DiffDescribes(recordType, previous, current, before);
      var all := Diff(recordType, previous, current, order);
      var earlier := Diff(recordType, previous, current, before);
      forall g | g in order && previous[g] != current[g]
        ensures exists c :: c in all && c.Altered? && c.field == g
      {
        if g in before {
          var c :| c in earlier && c.Altered? && c.field == g;
          assert c in all;
        } else {
          assert g == f;
          assert all[|all| - 1].Altered? && all[|all| - 1].field == f;
        }
      }
    }
  }

  lemma AllFields(f: Field)
    ensures f in FIELDS
  {
    var i := match f
      case RecordType => 0 case Title => 1 case PublishedAt => 2 case EventDate => 3 case EffectiveDate => 4
      case Summary => 5 case KeyFacts => 6 case Entities => 7 case People => 8 case Organizations => 9
      case Addresses => 10 case ParcelNumbers => 11 case CaseNumbers => 12 case PermitNumbers => 13
      case ProjectNames => 14 case MoneyAmounts => 15 case Deadlines => 16 case Actions => 17 case Decisions => 18
      case Status => 19 case Topics => 20 case TypedPayload => 21;
    assert FIELDS[i] == f;
  }

  lemma SnapshotTotal(d: Draft)
    ensures forall f :: f in SnapshotOf(d) && SnapshotOf(d)[f] == Column(d, f)
  {
    forall f
      ensures f in SnapshotOf(d)
    {
      AllFields(f);
    }
  }

  lemma DiffRebuilds(recordType: string, previous: Snapshot, current: Snapshot, order: seq<Field>)
    requires previous.Keys == current.Keys
    requires forall f :: f in order <==> f in current
    ensures var changes := Diff(recordType, previous, current, order);
      && Replay(previous, changes) == current
      && (changes == [] <==> current == previous)
      && forall c :: c in changes ==> Describes(c, previous, current)
  {
    var changes := Diff(recordType, previous, current, order);
    DiffReplays(recordType, previous, current, order);
    DiffDescribes(recordType, previous, current, order);
    if changes != [] {
      assert changes[0] in changes && Describes(changes[0], previous, current);
    }
  }

  /** The changes against a snapshot rebuild the new one, and are empty iff nothing changed. */
  lemma ChangesRebuild(d: Draft, previous: Draft)
    ensures Replay(SnapshotOf(previous), Changes(d, Some(SnapshotOf(previous)))) == SnapshotOf(d)
    ensures Changes(d, Some(SnapshotOf(previous))) == [] <==> SnapshotOf(d) == SnapshotOf(previous)
    ensures forall c :: c in Changes(d, Some(SnapshotOf(previous))) ==> Describes(c, SnapshotOf(previous), SnapshotOf(d))
  {
    SnapshotKeys(d);
    SnapshotKeys(previous);
    DiffRebuilds(d.recordType, SnapshotOf(previous), SnapshotOf(d), FIELDS);
  }

  lemma SnapshotKeys(d: Draft)
    ensures forall f :: f in FIELDS <==> f in SnapshotOf(d)
  {
  }

  lemma {:induction false} DiffKinds(recordType: string, previous: Snapshot, current: Snapshot, order: seq<Field>)
    ensures forall c :: c in Diff(recordType, previous, current, order) ==>
              c.Altered? && c.kind == KindOf(recordType, c.field, c.after)
  {
    if order != [] {
      DiffKinds(recordType, previous, current, order[..|order| - 1]);
    }
  }

  ghost predicate Reports(changes: seq<Change>, kind: ChangeType) {
    exists c :: c in changes && c.Altered? && c.kind == kind
  }

  lemma KindFound(recordType: string, before: Snapshot, after: Snapshot, order: seq<Field>, f: Field)
    requires forall g :: g in order ==> g in before && g in after
    requires f in order && before[f] != after[f]
    ensures Reports(Diff(recordType, before, after, order), KindOf(recordType, f, after[f]))
  {
    var changes := Diff(recordType, before, after, order);
    DiffDescribes(recordType, before, after, order);
    DiffKinds(recordType, before, after, order);
    var c :| c in changes && c.Altered? && c.field == f;
    assert Describes(c, before, after);
  }

  lemma KindNeeds(recordType: string, before: Snapshot, after: Snapshot, order: seq<Field>, c: Change)
    requires forall g :: g in order ==> g in before && g in after
    requires c in Diff(recordType, before, after, order)
    ensures c.Altered? && c.field in order
    ensures before[c.field] != after[c.field] && KindOf(recordType, c.field, after[c.field]) == c.kind
  {
    DiffDescribes(recordType, before, after, order);
    DiffKinds(recordType, before, after, order);
  }

  lemma KindInDiff(recordType: string, before: Snapshot, after: Snapshot, order: seq<Field>, kind: ChangeType, f: Field)
    requires forall g :: g in order ==> g in before && g in after
    requires f in order && forall g, value :: KindOf(recordType, g, value) == kind ==> g == f
    ensures Reports(Diff(recordType, before, after, order), kind) <==>
            before[f] != after[f] && KindOf(recordType, f, after[f]) == kind
  {
    if c :| c in Diff(recordType, before, after, order) && c.Altered? && c.kind == kind {
      KindNeeds(recordType, before, after, order, c);
    }
    if before[f] != after[f] {
      KindFound(recordType, before, after, order, f);
    }
  }

  /** A change kind that belongs to one field is reported iff that field changed to a value of the kind. */
  lemma KindReported(d: Draft, previous: Draft, kind: ChangeType, f: Field)
    requires forall g, value :: KindOf(d.recordType, g, value) == kind ==> g == f
    ensures Reports(Changes(d, Some(SnapshotOf(previous))), kind) <==>
            Column(d, f) != Column(previous, f) && KindOf(d.recordType, f, Column(d, f)) == kind
  {
    SnapshotTotal(d);
    SnapshotTotal(previous);
    AllFields(f);
    KindInDiff(d.recordType, SnapshotOf(previous), SnapshotOf(d), FIELDS, kind, f);
  }

  // The record type and the status that a status change of this kind needs.
  function StatusKind(kind: ChangeType): (string, string)
    requires kind in {ZoningApproved, ZoningDenied, ContractAwarded, OrdinanceAdopted}
  {
    match kind
    case ZoningApproved => ("planning_zoning_case", "approved")
    case ZoningDenied => ("planning_zoning_case", "denied")
    case ContractAwarded => ("contract_award", "approved")
    case OrdinanceAdopted => ("ordinance", "approved")
  }

  lemma StatusKindOf(recordType: string, kind: ChangeType, f: Field, value: Json)
    requires kind in {ZoningApproved, ZoningDenied, ContractAwarded, OrdinanceAdopted}
    ensures KindOf(recordType, f, value) == kind <==>
            f == Status && recordType == StatusKind(kind).0 && value == Text(StatusKind(kind).1)
  {
  }

  /** Approvals, denials, awards and adoptions are reported iff the status became the one named. */
  lemma StatusChangeReported(d: Draft, previous: Draft, kind: ChangeType)
    requires kind in {ZoningApproved, ZoningDenied, ContractAwarded, OrdinanceAdopted}
    ensures Reports(Changes(d, Some(SnapshotOf(previous))), kind) <==>
            d.recordType == StatusKind(kind).0 && d.status == Some(StatusKind(kind).1) != previous.status
  {
    forall g, value
      ensures KindOf(d.recordType, g, value) == kind <==>
              g == Status && d.recordType == StatusKind(kind).0 && value == Text(StatusKind(kind).1)
    {
      StatusKindOf(d.recordType, kind, g, value);
    }
    KindReported(d, previous, kind, Status);
  }

  lemma AmountsKindOf(recordType: string, f: Field, value: Json)
    ensures KindOf(recordType, f, value) == ProjectValueIncreased <==>
            f == MoneyAmounts && (recordType == "contract_award" || recordType == "budget_financial_report")
  {
  }

  /** An increase in project value is reported for any change of the amounts, a decrease included. */
  lemma AmountsChangeReported(d: Draft, previous: Draft)
    ensures Reports(Changes(d, Some(SnapshotOf(previous))), ProjectValueIncreased) <==>
            d.moneyAmounts != previous.moneyAmounts
            && (d.recordType == "contract_award" || d.recordType == "budget_financial_report")
  {
    forall g, value
      ensures KindOf(d.recordType, g, value) == ProjectValueIncreased <==>
              g == MoneyAmounts && (d.recordType == "contract_award" || d.recordType == "budget_financial_report")
    {
      AmountsKindOf(d.recordType, g, value);
    }
    KindReported(d, previous, ProjectValueIncreased, MoneyAmounts);
  }
}
