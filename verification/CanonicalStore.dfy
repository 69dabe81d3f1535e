/**
 The canonical record tables: records found by type and deduplication key, their versions and
 their change log, and the transaction that persists one extraction.
 */
module CanonicalStore {
  import opened Options
  import opened CanonicalRecords

  datatype RecordKey = RecordKey(recordType: string, dedupKey: string)

  datatype RecordVersion = RecordVersion(number: nat, rawVersion: Id, snapshot: Snapshot)

  // `from` is 0 for the creation, which has no version before it.
  datatype ChangeRow = ChangeRow(from: nat, to: nat, change: Change)

  datatype Record = Record(rawDocument: Id, live: Draft, versions: seq<RecordVersion>, changes: seq<ChangeRow>)

  type Store = map<RecordKey, Record>

  // One extraction of a raw document version.
  datatype Extraction = Extraction(rawDocument: Id, rawVersion: Id, draft: Draft)

  function KeyOf(d: Draft): RecordKey {
    RecordKey(d.recordType, d.dedupKey)
  }

  predicate VersionedFrom(versions: seq<RecordVersion>, rawVersion: Id) {
    exists i :: 0 <= i < |versions| && versions[i].rawVersion == rawVersion
  }

  predicate DocumentHasRecord(s: Store, rawDocument: Id, recordType: string) {
    exists k :: k in s && k.recordType == recordType && s[k].rawDocument == rawDocument
  }

  /** The extractions a uniqueness constraint refuses; the transaction then leaves no trace. */
  predicate Refused(s: Store, e: Extraction) {
    if KeyOf(e.draft) in s
    then VersionedFrom(s[KeyOf(e.draft)].versions, e.rawVersion)
    else DocumentHasRecord(s, e.rawDocument, e.draft.recordType)
  }

  function ChangeRows(from: nat, to: nat, changes: seq<Change>): seq<ChangeRow> {
    seq(|changes|, i requires 0 <= i < |changes| => ChangeRow(from, to, changes[i]))
  }

  function LastNumber(versions: seq<RecordVersion>): nat {
    if versions == [] then 0 else versions[|versions| - 1].number
  }

  function LastSnapshot(r: Record): Option<Snapshot> {
    if r.versions == [] then None else Some(r.versions[|r.versions| - 1].snapshot)
  }

  function Extended(r: Record, e: Extraction): Record {
    var n := LastNumber(r.versions);
    Record(r.rawDocument, e.draft,
           r.versions + [RecordVersion(n + 1, e.rawVersion, SnapshotOf(e.draft))],
           r.changes + ChangeRows(n, n + 1, Changes(e.draft, LastSnapshot(r))))
  }

  function Persist(s: Store, e: Extraction): Store {
    if Refused(s, e) then s else
    var k := KeyOf(e.draft);
    s[k := Extended(if k in s then s[k] else Record(e.rawDocument, e.draft, [], []), e)]
  }

  function Run(s: Store, extractions: seq<Extraction>): Store
    decreases |extractions|
  {
    if extractions == [] then s
    else Persist(Run(s, extractions[..|extractions| - 1]), extractions[|extractions| - 1])
  }

  /* ---- What every record keeps ---- */

  /** The change rows up to version `n`, replayed in order from nothing. */
  function ReplayTo(rows: seq<ChangeRow>, n: nat): Snapshot {
    if rows == [] then map[] else
    var (before, last) := (ReplayTo(rows[..|rows| - 1], n), rows[|rows| - 1]);
    if last.to <= n then ApplyChange(before, last.change) else before
  }

  ghost predicate RowDescribes(row: ChangeRow, versions: seq<RecordVersion>) {
    && 1 <= row.to <= |versions| && row.from == row.to - 1
    && if row.to == 1 then row.change == Created(versions[0].snapshot)
       else Describes(row.change, versions[row.to - 2].snapshot, versions[row.to - 1].snapshot)
  }

  ghost predicate Numbered(versions: seq<RecordVersion>) {
    && versions != []
    && (forall i :: 0 <= i < |versions| ==> versions[i].number == i + 1)
    && (forall i, j :: 0 <= i < j < |versions| ==> versions[i].rawVersion != versions[j].rawVersion)
  }

  ghost predicate VersionsSound(r: Record) {
    Numbered(r.versions) && r.versions[|r.versions| - 1].snapshot == SnapshotOf(r.live)
  }

  ghost predicate Rebuilt(versions: seq<RecordVersion>, rows: seq<ChangeRow>, n: nat)
    requires 1 <= n <= |versions|
  {
    ReplayTo(rows, n) == versions[n - 1].snapshot
  }

  ghost predicate LogSound(versions: seq<RecordVersion>, rows: seq<ChangeRow>) {
    && (forall i :: 0 <= i < |rows| ==> RowDescribes(rows[i], versions))
    && (forall n :: 1 <= n <= |versions| ==> Rebuilt(versions, rows, n))
  }

  ghost predicate RecordSound(k: RecordKey, r: Record) {
    KeyOf(r.live) == k && VersionsSound(r) && LogSound(r.versions, r.changes)
  }

  /** Each document has at most one record of a type. */
  ghost predicate OneTypePerDocument(s: Store) {
    forall k, l | k in s && l in s && k.recordType == l.recordType :: s[k].rawDocument == s[l].rawDocument ==> k == l
  }

  ghost predicate StoreSound(s: Store) {
    && (forall k :: k in s ==> RecordSound(k, s[k]))
    && OneTypePerDocument(s)
  }

  lemma {:induction false} ReplayToAppend(rows: seq<ChangeRow>, from: nat, to: nat, changes: seq<Change>, n: nat)
    ensures ReplayTo(rows + ChangeRows(from, to, changes), n)
         == if to <= n then Replay(ReplayTo(rows, n), changes) else ReplayTo(rows, n)
    decreases |changes|
  {
    var added := ChangeRows(from, to, changes);
    if changes == [] {
      assert rows + added == rows;
    } else {
      var fewer := changes[..|changes| - 1];
      assert (rows + added)[..|rows + added| - 1] == rows + ChangeRows(from, to, fewer);
      ReplayToAppend(rows, from, to, fewer, n);
    }
  }

  /** Rows that all belong to versions up to `m` replay alike for every later version. */
  lemma {:induction false} ReplayToLater(rows: seq<ChangeRow>, m: nat, n: nat)
    requires m <= n && forall i :: 0 <= i < |rows| ==> rows[i].to <= m
    ensures ReplayTo(rows, n) == ReplayTo(rows, m)
  {
    if rows != [] {
      ReplayToLater(rows[..|rows| - 1], m, n);
    }
  }

  /** A record's first version and the one change row logged with it. */
  lemma FirstLogSound(added: RecordVersion)
    ensures LogSound([added], ChangeRows(0, 1, [Created(added.snapshot)]))
  {
    var rows := ChangeRows(0, 1, [Created(added.snapshot)]);
    assert rows[..0] == [] && rows == [ChangeRow(0, 1, Created(added.snapshot))];
    assert Rebuilt([added], rows, 1);
  }

  lemma FirstExtended(e: Extraction)
    ensures var r := Extended(Record(e.rawDocument, e.draft, [], []), e);
      var added := RecordVersion(1, e.rawVersion, SnapshotOf(e.draft));
      && r.live == e.draft && r.versions == [added] && r.changes == ChangeRows(0, 1, [Created(added.snapshot)])
  {
    var added := RecordVersion(1, e.rawVersion, SnapshotOf(e.draft));
    assert [] + [added] == [added];
  }

  lemma CreatedSound(e: Extraction)
    ensures RecordSound(KeyOf(e.draft), Extended(Record(e.rawDocument, e.draft, [], []), e))
  {
    FirstExtended(e);
    FirstLogSound(RecordVersion(1, e.rawVersion, SnapshotOf(e.draft)));
  }

  lemma NumberedNext(versions: seq<RecordVersion>, added: RecordVersion)
    requires Numbered(versions) && !VersionedFrom(versions, added.rawVersion) && added.number == |versions| + 1
    ensures Numbered(versions + [added])
  {
  }

  lemma ExtendedVersions(r: Record, e: Extraction)
    requires VersionsSound(r) && !VersionedFrom(r.versions, e.rawVersion)
    ensures VersionsSound(Extended(r, e))
  {
    NumberedNext(r.versions, RecordVersion(|r.versions| + 1, e.rawVersion, SnapshotOf(e.draft)));
  }

  lemma RowStaysDescribed(row: ChangeRow, versions: seq<RecordVersion>, added: RecordVersion)
    requires RowDescribes(row, versions)
    ensures RowDescribes(row, versions + [added])
  {
  }

  lemma AddedRowDescribes(c: Change, versions: seq<RecordVersion>, added: RecordVersion)
    requires versions != [] && Describes(c, versions[|versions| - 1].snapshot, added.snapshot)
    ensures RowDescribes(ChangeRow(|versions|, |versions| + 1, c), versions + [added])
  {
  }

  lemma ExtendedRows(versions: seq<RecordVersion>, rows: seq<ChangeRow>, added: RecordVersion, changes: seq<Change>)
    requires versions != []
    requires forall i :: 0 <= i < |rows| ==> RowDescribes(rows[i], versions)
    requires forall c :: c in changes ==> Describes(c, versions[|versions| - 1].snapshot, added.snapshot)
    ensures var rows' := rows + ChangeRows(|versions|, |versions| + 1, changes);
      forall i :: 0 <= i < |rows'| ==> RowDescribes(rows'[i], versions + [added])
  {
    var rows' := rows + ChangeRows(|versions|, |versions| + 1, changes);
    forall i | 0 <= i < |rows'|
      ensures RowDescribes(rows'[i], versions + [added])
    {
      if i < |rows| {
        RowStaysDescribed(rows[i], versions, added);
      } else {
        assert changes[i - |rows|] in changes;
        AddedRowDescribes(changes[i - |rows|], versions, added);
      }
    }
  }

  lemma ExtendedReplay(versions: seq<RecordVersion>, rows: seq<ChangeRow>, added: RecordVersion, changes: seq<Change>, n: nat)
    requires versions != []
    requires forall i :: 0 <= i < |rows| ==> RowDescribes(rows[i], versions)
    requires forall m :: 1 <= m <= |versions| ==> Rebuilt(versions, rows, m)
    requires Replay(versions[|versions| - 1].snapshot, changes) == added.snapshot
    requires 1 <= n <= |versions| + 1
    ensures Rebuilt(versions + [added], rows + ChangeRows(|versions|, |versions| + 1, changes), n)
  {
    var m := |versions|;
    ReplayToAppend(rows, m, m + 1, changes, n);
    assert Rebuilt(versions, rows, m) && (n <= m ==> Rebuilt(versions, rows, n));
    if n == m + 1 {
      ReplayToLater(rows, m, n);
    }
  }

  lemma ExtendedLog(versions: seq<RecordVersion>, rows: seq<ChangeRow>, added: RecordVersion, changes: seq<Change>)
    requires versions != [] && LogSound(versions, rows)
    requires Replay(versions[|versions| - 1].snapshot, changes) == added.snapshot
    requires forall c :: c in changes ==> Describes(c, versions[|versions| - 1].snapshot, added.snapshot)
    ensures LogSound(versions + [added], rows + ChangeRows(|versions|, |versions| + 1, changes))
  {
    ExtendedRows(versions, rows, added, changes);
    var (versions', rows') := (versions + [added], rows + ChangeRows(|versions|, |versions| + 1, changes));
    forall n | 1 <= n <= |versions'|
      ensures Rebuilt(versions', rows', n)
    {
      ExtendedReplay(versions, rows, added, changes, n);
    }
  }

  lemma ExtendedSound(k: RecordKey, r: Record, e: Extraction)
    requires RecordSound(k, r) && k == KeyOf(e.draft) && !VersionedFrom(r.versions, e.rawVersion)
    ensures RecordSound(k, Extended(r, e))
  {
    ExtendedVersions(r, e);
    var added := RecordVersion(|r.versions| + 1, e.rawVersion, SnapshotOf(e.draft));
    ChangesRebuild(e.draft, r.live);
    ExtendedLog(r.versions, r.changes, added, Changes(e.draft, LastSnapshot(r)));
  }

  lemma PersistKeepsTypes(s: Store, e: Extraction)
    requires OneTypePerDocument(s)
    ensures OneTypePerDocument(Persist(s, e))
  {
  }

  lemma PersistKeepsRecord(s: Store, e: Extraction, k: RecordKey)
    requires forall l :: l in s ==> RecordSound(l, s[l])
    requires k in Persist(s, e)
    ensures RecordSound(k, Persist(s, e)[k])
  {
    if !Refused(s, e) && k == KeyOf(e.draft) {
      if k in s {
        ExtendedSound(k, s[k], e);
      } else {
        CreatedSound(e);
      }
    }
  }

  lemma PersistKeeps(s: Store, e: Extraction)
    requires StoreSound(s)
    ensures StoreSound(Persist(s, e))
  {
    PersistKeepsTypes(s, e);
    forall k | k in Persist(s, e)
      ensures RecordSound(k, Persist(s, e)[k])
    {
      PersistKeepsRecord(s, e, k);
    }
  }

  /**
   Over every sequence of extractions: replaying a record's change log up to any version gives
   exactly that version's snapshot, every change row states what the version before held and
   what the new one holds, and the live columns are the last version's snapshot.
   */
  lemma {:induction false} EveryStoreSound(extractions: seq<Extraction>)
    ensures StoreSound(Run(map[], extractions))
  {
    if extractions != [] {
      EveryStoreSound(extractions[..|extractions| - 1]);
      PersistKeeps(Run(map[], extractions[..|extractions| - 1]), extractions[|extractions| - 1]);
    }
  }

  lemma SoundRecordRebuilds(k: RecordKey, r: Record)
    requires RecordSound(k, r)
    ensures r.versions != [] && ReplayTo(r.changes, |r.versions|) == SnapshotOf(r.live)
  {
    assert Rebuilt(r.versions, r.changes, |r.versions|);
  }

  /** The change log replayed to its end is the live record, column by column. */
  lemma LogRebuildsRecord(extractions: seq<Extraction>, k: RecordKey, f: Field)
    requires k in Run(map[], extractions)
    ensures var r := Run(map[], extractions)[k];
      && f in ReplayTo(r.changes, |r.versions|)
      && ReplayTo(r.changes, |r.versions|)[f] == Column(r.live, f)
  {
    EveryStoreSound(extractions);
    var r := Run(map[], extractions)[k];
    SoundRecordRebuilds(k, r);
    SnapshotTotal(r.live);
  }

  /** Extracting the same content again adds a version but no change row, and only then. */
  lemma IdenticalExtractionLogsNothing(s: Store, e: Extraction)
    requires StoreSound(s) && KeyOf(e.draft) in s && !Refused(s, e)
    ensures var (r, r') := (s[KeyOf(e.draft)], Persist(s, e)[KeyOf(e.draft)]);
      && |r'.versions| == |r.versions| + 1
      && (r'.changes == r.changes <==> SnapshotOf(e.draft) == SnapshotOf(r.live))
  {
    var r := s[KeyOf(e.draft)];
    assert RecordSound(KeyOf(e.draft), r);
    ChangesRebuild(e.draft, r.live);
    var n := LastNumber(r.versions);
    var added := ChangeRows(n, n + 1, Changes(e.draft, LastSnapshot(r)));
    assert |Persist(s, e)[KeyOf(e.draft)].changes| == |r.changes| + |added|;
    if added == [] {
      assert r.changes + added == r.changes;
    }
  }

  /** Earlier versions and change rows of every record are never altered or removed. */
  ghost predicate Grown(s: Store, s': Store) {
    forall k :: k in s ==>
      k in s' && s'[k].rawDocument == s[k].rawDocument && s[k].versions <= s'[k].versions && s[k].changes <= s'[k].changes
  }

  lemma {:induction false} StoreOnlyGrows(s: Store, extractions: seq<Extraction>)
    ensures Grown(s, Run(s, extractions))
    decreases |extractions|
  {
    if extractions != [] {
      StoreOnlyGrows(s, extractions[..|extractions| - 1]);
    }
  }

  /* ---- The transaction ---- */

  class CanonicalDatabase {
    var records: Store

    constructor (stored: Store)
      ensures records == stored
    {
      records := stored;
    }

    /** The changes of an extraction, in the order of the snapshot's keys. */
    method CanonicalChanges(d: Draft, previous: Option<Snapshot>) returns (changes: seq<Change>)
      ensures changes == Changes(d, previous)
    {
      var current := SnapshotOf(d);
      if previous == None {
        return [Created(current)];
      }
      changes := [];
      for i := 0 to |FIELDS|
        invariant changes == Diff(d.recordType, previous.value, current, FIELDS[..i])
      {
        assert FIELDS[..i + 1][..i] == FIELDS[..i];
        var f := FIELDS[i];
        var before, value := Get(previous.value, f), Get(current, f);
        if before != value {
          changes := changes + [Altered(KindOf(d.recordType, f, value), f, before, value)];
        }
      }
      assert FIELDS[..|FIELDS|] == FIELDS;
    }

    /** The statements of one extraction; a caller rolls back when one raises. */
    method PersistCanonicalRecord(e: Extraction) returns (raised: bool)
      modifies this
      ensures raised <==> Refused(old(records), e)
      ensures !raised ==> records == Persist(old(records), e)
    {
      var k := KeyOf(e.draft);
      var previous := if k in records then LastSnapshot(records[k]) else None;
      if k in records {
        records := records[k := records[k].(live := e.draft)];
      } else {
        if exists l :: l in records && l.recordType == k.recordType && records[l].rawDocument == e.rawDocument {
          return true;
        }
        records := records[k := Record(e.rawDocument, e.draft, [], [])];
      }
      var r := records[k];
      if VersionedFrom(r.versions, e.rawVersion) {
        return true;
      }
      var n := LastNumber(r.versions);
      r := r.(versions := r.versions + [RecordVersion(n + 1, e.rawVersion, SnapshotOf(e.draft))]);
      var changes := CanonicalChanges(e.draft, previous);
      r := r.(changes := r.changes + ChangeRows(n, n + 1, changes));
      records := records[k := r];
      raised := false;
    }

    /** The extraction in its own transaction. */
    method PersistInTransaction(e: Extraction) returns (raised: bool)
      modifies this
      ensures records == Persist(old(records), e)
      ensures raised <==> Refused(old(records), e)
    {
      var before := records;
      raised := PersistCanonicalRecord(e);
      if raised {
        records := before;
      }
    }
  }
}
