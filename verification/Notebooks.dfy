/**
 Research notebooks: gathered evidence without repetitions, generated summaries that link
 exactly the evidence their claims cite, and entries numbered without gaps.
 */
module Notebooks {
  import opened Options
  import opened Strings
  import opened Distinct
  import opened GroundedAnswers

  type Id = nat

  // A row of the evidence query: a saved document, or a citation an entry already links.
  datatype Evidence = Evidence(document: Id, version: Id, citation: Option<Id>, excerpt: string, title: string)

  datatype Key = Key(document: Id, version: Id, citation: Option<Id>, excerpt: string)

  function KeyOf(e: Evidence): Key {
    Key(e.document, e.version, e.citation, e.excerpt)
  }

  /* ---- Gathering ---- */

  function Keys(rows: seq<Evidence>): seq<Key> {
    seq(|rows|, i requires 0 <= i < |rows| => KeyOf(rows[i]))
  }

  /** The first row of every key. */
  function Gathered(rows: seq<Evidence>): seq<Evidence> {
    if rows == [] then [] else
    var (earlier, row) := (Gathered(rows[..|rows| - 1]), rows[|rows| - 1]);
    if KeyOf(row) in Keys(earlier) then earlier else earlier + [row]
  }

  method GatherEvidence(rows: seq<Evidence>) returns (result: seq<Evidence>)
    ensures result == Gathered(rows)
  {
    var seen: set<Key> := {};
    result := [];
    for i := 0 to |rows|
      invariant result == Gathered(rows[..i])
      invariant forall k :: k in seen <==> k in Keys(result)
    {
      assert rows[..i + 1][..i] == rows[..i];
      var key := KeyOf(rows[i]);
      if key !in seen {
        seen := seen + {key};
        assert Keys(result + [rows[i]]) == Keys(result) + [key];
        result := result + [rows[i]];
      }
    }
    assert rows[..|rows|] == rows;
  }

  /** Gathering keeps one row for every key, and the keys in order of their first row. */
  lemma {:induction false} GatheredKeys(rows: seq<Evidence>)
    ensures Keys(Gathered(rows)) == Firsts(Keys(rows)) && NoRepeats(Keys(Gathered(rows)))
  {
    FirstsNoRepeats(Keys(rows));
    if rows != [] {
      var (rest, row) := (rows[..|rows| - 1], rows[|rows| - 1]);
      GatheredKeys(rest);
      assert Keys(rows) == Keys(rest) + [KeyOf(row)];
      FirstsSnoc(Keys(rest), KeyOf(row));
      assert Keys(Gathered(rest) + [row]) == Keys(Gathered(rest)) + [KeyOf(row)];
    }
  }

  lemma SameKeyIff(a: Evidence, b: Evidence)
    ensures KeyOf(a) == KeyOf(b) <==> a.(title := b.title) == b
  {
  }

  /** Row `i` is the first of those that differ from it at most in their title. */
  predicate FirstRow(rows: seq<Evidence>, i: nat)
    requires i < |rows|
  {
    forall j :: 0 <= j < i ==> rows[j].(title := rows[i].title) != rows[i]
  }

  lemma KeyListed(rows: seq<Evidence>, e: Evidence)
    ensures KeyOf(e) in Keys(rows) <==> exists j :: 0 <= j < |rows| && rows[j].(title := e.title) == e
  {
    if j :| 0 <= j < |rows| && rows[j].(title := e.title) == e {
      SameKeyIff(rows[j], e);
      assert Keys(rows)[j] == KeyOf(e);
    }
    if KeyOf(e) in Keys(rows) {
      var j :| 0 <= j < |rows| && Keys(rows)[j] == KeyOf(e);
      SameKeyIff(rows[j], e);
    }
  }

  lemma FirstRowIff(rows: seq<Evidence>)
    requires rows != []
    ensures var (front, last) := (rows[..|rows| - 1], |rows| - 1);
      FirstRow(rows, last) <==> KeyOf(rows[last]) !in Keys(Gathered(front))
  {
    var (front, last) := (rows[..|rows| - 1], |rows| - 1);
    GatheredKeys(front);
    assert KeyOf(rows[last]) in Firsts(Keys(front)) <==> KeyOf(rows[last]) in Keys(front);
    KeyListed(front, rows[last]);
  }

  /** The evidence gathered is the rows, in order, without those that repeat an earlier one but for the title. */
  lemma {:induction false} GatheredIsFirstRows(rows: seq<Evidence>, e: Evidence)
    ensures e in Gathered(rows) <==> exists i :: 0 <= i < |rows| && rows[i] == e && FirstRow(rows, i)
  {
    if rows != [] {
      var (front, last) := (rows[..|rows| - 1], |rows| - 1);
      GatheredIsFirstRows(front, e);
      FirstRowIff(rows);
      assert forall i :: 0 <= i < |front| ==> (FirstRow(front, i) <==> FirstRow(rows, i));
    }
  }

  /* ---- Cited evidence ---- */

  datatype Failure = NoValidClaims | UncitedClaim | OutsideNotebook

  datatype Result<T> = Ok(value: T) | Err(failure: Failure)

  /** The position of an id among C1..Cn. */
  function IndexOf(ids: seq<string>, id: string): (r: Option<nat>)
    ensures r.Some? ==> r.value < |ids| && ids[r.value] == id
    ensures r == None ==> id !in ids
  {
    if ids == [] then None
    else if ids[|ids| - 1] == id then Some(|ids| - 1)
    else IndexOf(ids[..|ids| - 1], id)
  }

  predicate HasWords(c: Claim) {
    !AllSpace(c.text)
  }

  function AllIds(claims: seq<Claim>): seq<string> {
    if claims == [] then [] else AllIds(claims[..|claims| - 1]) + claims[|claims| - 1].citationIds
  }

  /** The evidence of a list of known ids. */
  function Named(ids: seq<string>, evidence: seq<Evidence>): seq<Evidence>
    requires forall id :: id in ids ==> id in EvidenceIds(|evidence|)
  {
    seq(|ids|, i requires 0 <= i < |ids| => assert ids[i] in ids; evidence[IndexOf(EvidenceIds(|evidence|), ids[i]).value])
  }

  /** Every claim has words and citations, all of them in the notebook. */
  predicate ClaimSound(c: Claim, n: nat) {
    HasWords(c) && c.citationIds != [] && forall id :: id in c.citationIds ==> id in EvidenceIds(n)
  }

  predicate ClaimsSound(claims: seq<Claim>, n: nat) {
    forall i :: 0 <= i < |claims| ==> ClaimSound(claims[i], n)
  }

  lemma {:induction false} SoundIds(claims: seq<Claim>, n: nat)
    requires ClaimsSound(claims, n)
    ensures forall id :: id in AllIds(claims) ==> id in EvidenceIds(n)
  {
    if claims != [] {
      SoundIds(claims[..|claims| - 1], n);
      assert ClaimSound(claims[|claims| - 1], n);
    }
  }

  /** The evidence cited, in the order of its first citation; nothing when a claim is at fault. */
  function Cited(claims: seq<Claim>, evidence: seq<Evidence>, maxClaims: nat): Option<seq<Evidence>> {
    if claims == [] || |claims| > maxClaims || !ClaimsSound(claims, |evidence|) then None
    else
      SoundIds(claims, |evidence|);
      Some(Named(Firsts(AllIds(claims)), evidence))
  }

  /** A draft is accepted iff it has 1..max claims, each with a word and with citations of the notebook only. */
  lemma AcceptedIff(claims: seq<Claim>, evidence: seq<Evidence>, maxClaims: nat)
    ensures Cited(claims, evidence, maxClaims).Some? <==>
            && 1 <= |claims| <= maxClaims
            && forall i :: 0 <= i < |claims| ==>
                 && (exists c :: c in claims[i].text && !IsSpace(c)) && claims[i].citationIds != []
                 && forall id :: id in claims[i].citationIds ==> exists n :: 0 <= n < |evidence| && EvidenceIds(|evidence|)[n] == id
  {
    forall i | 0 <= i < |claims|
      ensures ClaimSound(claims[i], |evidence|) <==>
              && (exists c :: c in claims[i].text && !IsSpace(c)) && claims[i].citationIds != []
              && forall id :: id in claims[i].citationIds ==> exists n :: 0 <= n < |evidence| && EvidenceIds(|evidence|)[n] == id
    {
      assert |EvidenceIds(|evidence|)| == |evidence|;
    }
  }

  ghost predicate Tracks(seen: seq<string>, used: seq<Evidence>, evidence: seq<Evidence>) {
    (forall id :: id in seen ==> id in EvidenceIds(|evidence|)) && used == Named(seen, evidence)
  }

  lemma TracksSnoc(seen: seq<string>, used: seq<Evidence>, evidence: seq<Evidence>, id: string, at: nat)
    requires Tracks(seen, used, evidence) && IndexOf(EvidenceIds(|evidence|), id) == Some(at)
    ensures at < |evidence| && Tracks(seen + [id], used + [evidence[at]], evidence)
  {
    assert EvidenceIds(|evidence|)[at] in EvidenceIds(|evidence|);
    assert Named(seen + [id], evidence) == Named(seen, evidence) + [evidence[at]];
  }

  /** The citations of one claim, after `before`. */
  method CiteClaim(claim: Claim, evidence: seq<Evidence>, ghost before: seq<string>, seen: seq<string>, used: seq<Evidence>)
    returns (known: bool, seen': seq<string>, used': seq<Evidence>)
    requires seen == Firsts(before) && Tracks(seen, used, evidence)
    ensures known <==> forall id :: id in claim.citationIds ==> id in EvidenceIds(|evidence|)
    ensures known ==> seen' == Firsts(before + claim.citationIds) && Tracks(seen', used', evidence)
  {
    var (ids, cited) := (EvidenceIds(|evidence|), claim.citationIds);
    seen', used' := seen, used;
    assert before + cited[..0] == before;
    for j := 0 to |cited|
      invariant seen' == Firsts(before + cited[..j]) && Tracks(seen', used', evidence)
      invariant forall id :: id in cited[..j] ==> id in ids
    {
      var (id, at) := (cited[j], IndexOf(ids, cited[j]));
      if at == None {
        assert id in cited;
        return false, seen', used';
      }
      FirstsNext(before, cited, j);
      TracksSnoc(seen', used', evidence, id, at.value);
      if id !in seen' {
        seen', used' := seen' + [id], used' + [evidence[at.value]];
      }
    }
    assert cited[..|cited|] == cited;
    known := true;
  }

  /** The first claim at fault. */
  ghost predicate FirstFault(claims: seq<Claim>, i: nat, n: nat) {
    i < |claims| && ClaimsSound(claims[..i], n) && !ClaimSound(claims[i], n)
  }

  method ClaimsEvidence(claims: seq<Claim>, evidence: seq<Evidence>, maxClaims: nat) returns (r: Result<seq<Evidence>>)
    ensures r.Ok? <==> Cited(claims, evidence, maxClaims).Some?
    ensures r.Ok? ==> Some(r.value) == Cited(claims, evidence, maxClaims)
    ensures r == Err(NoValidClaims) <==> claims == [] || |claims| > maxClaims
    ensures r.Err? && r.failure != NoValidClaims ==>
              exists i: nat :: FirstFault(claims, i, |evidence|)
                && (r.failure == UncitedClaim <==> !HasWords(claims[i]) || claims[i].citationIds == [])
  {
    if claims == [] || |claims| > maxClaims {
      return Err(NoValidClaims);
    }
    var seen, used, known := [], [], true;
    for i := 0 to |claims|
      invariant ClaimsSound(claims[..i], |evidence|)
      invariant seen == Firsts(AllIds(claims[..i])) && Tracks(seen, used, evidence)
    {
      assert claims[..i + 1][..i] == claims[..i];
      if !HasWords(claims[i]) || claims[i].citationIds == [] {
        assert FirstFault(claims, i, |evidence|);
        return Err(UncitedClaim);
      }
      known, seen, used := CiteClaim(claims[i], evidence, AllIds(claims[..i]), seen, used);
      if !known {
        assert FirstFault(claims, i, |evidence|);
        return Err(OutsideNotebook);
      }
    }
    assert claims[..|claims|] == claims;
    r := Ok(used);
  }

  lemma {:induction false} AllIdsMember(claims: seq<Claim>, id: string)
    ensures id in AllIds(claims) <==> exists i :: 0 <= i < |claims| && id in claims[i].citationIds
  {
    if claims != [] {
      AllIdsMember(claims[..|claims| - 1], id);
    }
  }

  lemma IndexOfIds(n: nat, i: nat)
    requires i < n
    ensures IndexOf(EvidenceIds(n), EvidenceIds(n)[i]) == Some(i)
  {
    EvidenceIdsDiffer(n);
    var ids := EvidenceIds(n);
    assert ids[i] in ids;
  }

  lemma NamedAt(ids: seq<string>, evidence: seq<Evidence>, k: nat)
    requires (forall id :: id in ids ==> id in EvidenceIds(|evidence|)) && k < |ids|
    ensures ids[k] in ids
    ensures exists i :: 0 <= i < |evidence| && EvidenceIds(|evidence|)[i] == ids[k] && Named(ids, evidence)[k] == evidence[i]
  {
    assert ids[k] in ids;
    var i := IndexOf(EvidenceIds(|evidence|), ids[k]).value;
    assert EvidenceIds(|evidence|)[i] == ids[k];
  }

  /** A used piece of evidence is the one that some claim's citation names. */
  lemma UsedIsCited(claims: seq<Claim>, evidence: seq<Evidence>, maxClaims: nat, k: nat) returns (i: nat, c: nat)
    requires Cited(claims, evidence, maxClaims).Some? && k < |Cited(claims, evidence, maxClaims).value|
    ensures i < |evidence| && c < |claims|
    ensures evidence[i] == Cited(claims, evidence, maxClaims).value[k] && Cites(claims[c], i, |evidence|)
  {
    SoundIds(claims, |evidence|);
    var firsts := Firsts(AllIds(claims));
    NamedAt(firsts, evidence, k);
    i :| 0 <= i < |evidence| && EvidenceIds(|evidence|)[i] == firsts[k] && Named(firsts, evidence)[k] == evidence[i];
    AllIdsMember(claims, firsts[k]);
    c :| 0 <= c < |claims| && firsts[k] in claims[c].citationIds;
  }

  /** Evidence that a claim cites is used. */
  lemma CitedIsUsed(claims: seq<Claim>, evidence: seq<Evidence>, maxClaims: nat, i: nat, c: nat)
    requires Cited(claims, evidence, maxClaims).Some?
    requires i < |evidence| && c < |claims| && Cites(claims[c], i, |evidence|)
    ensures evidence[i] in Cited(claims, evidence, maxClaims).value
  {
    var (all, id) := (AllIds(claims), EvidenceIds(|evidence|)[i]);
    SoundIds(claims, |evidence|);
    AllIdsMember(claims, id);
    assert id in Firsts(all);
    var k :| 0 <= k < |Firsts(all)| && Firsts(all)[k] == id;
    IndexOfIds(|evidence|, i);
    assert Cited(claims, evidence, maxClaims).value[k] == evidence[i];
  }

  /** Evidence number `i + 1` is among the cited iff some claim cites it. */
  lemma CitedIffUsed(claims: seq<Claim>, evidence: seq<Evidence>, maxClaims: nat, e: Evidence)
    requires Cited(claims, evidence, maxClaims).Some?
    ensures e in Cited(claims, evidence, maxClaims).value <==>
            exists i, c :: 0 <= i < |evidence| && 0 <= c < |claims| && evidence[i] == e && Cites(claims[c], i, |evidence|)
  {
    var used := Cited(claims, evidence, maxClaims).value;
    if e in used {
      var k :| 0 <= k < |used| && used[k] == e;
      var i, c := UsedIsCited(claims, evidence, maxClaims, k);
    }
    if i, c :| 0 <= i < |evidence| && 0 <= c < |claims| && evidence[i] == e && Cites(claims[c], i, |evidence|) {
      CitedIsUsed(claims, evidence, maxClaims, i, c);
    }
  }

  predicate Cites(c: Claim, i: nat, n: nat)
    requires i < n
  {
    EvidenceIds(n)[i] in c.citationIds
  }

  /** No piece of gathered evidence is used twice. */
  lemma CitedNoRepeats(claims: seq<Claim>, rows: seq<Evidence>, maxClaims: nat)
    requires Cited(claims, Gathered(rows), maxClaims).Some?
    ensures NoRepeats(Cited(claims, Gathered(rows), maxClaims).value)
  {
    var evidence := Gathered(rows);
    var (ids, firsts, used) := (EvidenceIds(|evidence|), Firsts(AllIds(claims)), Cited(claims, evidence, maxClaims).value);
    SoundIds(claims, |evidence|);
    FirstsNoRepeats(AllIds(claims));
    GatheredKeys(rows);
    forall a, b | 0 <= a < b < |used|
      ensures used[a] != used[b]
    {
      assert firsts[a] in firsts && firsts[b] in firsts;
      var (i, j) := (IndexOf(ids, firsts[a]).value, IndexOf(ids, firsts[b]).value);
      assert ids[i] == firsts[a] && ids[j] == firsts[b] && i != j;
      assert Keys(evidence)[i] != Keys(evidence)[j];
    }
  }

  /* ---- Entries and citations ---- */

  datatype Citation = Citation(version: Id, excerpt: string)

  datatype Entry = Entry(position: nat, kind: string, links: set<Id>)

  // Citation ids are handed out from `next`.
  datatype Notebook = Notebook(entries: seq<Entry>, citations: map<Id, Citation>, next: Id)

  const EMPTY := Notebook([], map[], 0)

  ghost predicate Sound(nb: Notebook) {
    && (forall i :: 0 <= i < |nb.entries| ==> nb.entries[i].position == i + 1)
    && (forall i, l :: 0 <= i < |nb.entries| && l in nb.entries[i].links ==> l in nb.citations)
    && (forall l :: l in nb.citations ==> l < nb.next)
  }

  /** `coalesce(max(position), 0) + 1`. */
  function NextPosition(entries: seq<Entry>): nat {
    HighestPosition(entries) + 1
  }

  function HighestPosition(entries: seq<Entry>): nat {
    if entries == [] then 0 else Max(HighestPosition(entries[..|entries| - 1]), entries[|entries| - 1].position)
  }

  /** Known evidence is linked by its citation; other evidence gets a new one. */
  function LinkItem(nb: Notebook, item: Evidence): (Notebook, Id) {
    if item.citation.Some? then (nb, item.citation.value)
    else (nb.(citations := nb.citations[nb.next := Citation(item.version, item.excerpt)], next := nb.next + 1), nb.next)
  }

  function LinkAll(nb: Notebook, items: seq<Evidence>): (Notebook, seq<Id>) {
    if items == [] then (nb, []) else
    var (earlier, ids) := LinkAll(nb, items[..|items| - 1]);
    var (nb', l) := LinkItem(earlier, items[|items| - 1]);
    (nb', ids + [l])
  }

  function WithEntry(nb: Notebook, kind: string, items: seq<Evidence>): Notebook {
    var (linked, ids) := LinkAll(nb, items);
    linked.(entries := nb.entries + [Entry(NextPosition(nb.entries), kind, Elements(ids))])
  }

  // A highlight quotes a document version; a generated entry rests on evidence.
  datatype Command = AddNote | AddHighlight(version: Id, excerpt: string) | AddGenerated(kind: string, items: seq<Evidence>)

  function Apply(nb: Notebook, c: Command): Notebook {
    match c
    case AddNote => WithEntry(nb, "note", [])
    case AddHighlight(version, excerpt) => WithEntry(nb, "highlight", [Evidence(0, version, None, excerpt, "")])
    case AddGenerated(kind, items) => WithEntry(nb, kind, items)
  }

  /** Evidence with a citation comes from the citation table. */
  ghost predicate Known(nb: Notebook, item: Evidence) {
    item.citation.Some? ==> item.citation.value in nb.citations && nb.citations[item.citation.value].version == item.version
  }

  ghost predicate AllKnown(nb: Notebook, items: seq<Evidence>) {
    forall i :: 0 <= i < |items| ==> Known(nb, items[i])
  }

  lemma {:induction false} HighestIsLast(entries: seq<Entry>)
    requires forall i :: 0 <= i < |entries| ==> entries[i].position == i + 1
    ensures HighestPosition(entries) == |entries|
  {
    if entries != [] {
      HighestIsLast(entries[..|entries| - 1]);
    }
  }

  /** Link `l` stands for `item`: its own citation, or a new one with its version and excerpt. */
  ghost predicate StandsFor(before: Notebook, after: Notebook, l: Id, item: Evidence) {
    && l in after.citations && after.citations[l].version == item.version
    && if item.citation.Some? then l == item.citation.value
       else l !in before.citations && after.citations[l].excerpt == item.excerpt
  }

  ghost predicate Extends(before: Notebook, after: Notebook) {
    && before.next <= after.next
    && (forall l :: l in before.citations ==> l in after.citations && after.citations[l] == before.citations[l])
    && (forall l :: l in after.citations ==> l < after.next && (l in before.citations || before.next <= l))
  }

  /** Item by item, the ids stand for the evidence. */
  ghost predicate IdsMatch(before: Notebook, after: Notebook, ids: seq<Id>, items: seq<Evidence>) {
    |ids| == |items| && forall i :: 0 <= i < |items| ==> StandsFor(before, after, ids[i], items[i])
  }

  lemma {:induction false} LinkAllMatches(nb: Notebook, items: seq<Evidence>)
    requires Sound(nb) && AllKnown(nb, items)
    ensures var (nb', ids) := LinkAll(nb, items);
      nb'.entries == nb.entries && Extends(nb, nb') && IdsMatch(nb, nb', ids, items)
  {
    if items != [] {
      var (fewer, item) := (items[..|items| - 1], items[|items| - 1]);
      LinkAllMatches(nb, fewer);
      var (earlier, ids) := LinkAll(nb, fewer);
      var (nb', l) := LinkItem(earlier, item);
      assert Known(nb, item);
      assert StandsFor(nb, nb', l, item);
      forall i | 0 <= i < |fewer|
        ensures StandsFor(nb, nb', ids[i], items[i])
      {
        assert StandsFor(nb, earlier, ids[i], fewer[i]);
      }
    }
  }

  /** The links of an entry are ids that stand for the items, and no others. */
  ghost predicate LinksMatch(before: Notebook, after: Notebook, links: set<Id>, items: seq<Evidence>) {
    exists ids: seq<Id> :: links == Elements(ids) && IdsMatch(before, after, ids, items)
  }

  lemma WithEntrySound(nb: Notebook, kind: string, items: seq<Evidence>)
    requires Sound(nb) && AllKnown(nb, items)
    ensures Sound(WithEntry(nb, kind, items)) && Extends(nb, WithEntry(nb, kind, items))
  {
    LinkAllMatches(nb, items);
    HighestIsLast(nb.entries);
    var (linked, ids) := LinkAll(nb, items);
    forall l | l in Elements(ids)
      ensures l in linked.citations
    {
      var i :| 0 <= i < |ids| && ids[i] == l;
      assert StandsFor(nb, linked, ids[i], items[i]);
    }
  }

  /**
   A new entry takes the next position and links exactly what its evidence stands for; other
   entries and citations stay.
   */
  lemma EntryLinksItsEvidence(nb: Notebook, kind: string, items: seq<Evidence>)
    requires Sound(nb) && AllKnown(nb, items)
    ensures var nb' := WithEntry(nb, kind, items);
      && Sound(nb') && Extends(nb, nb')
      && |nb'.entries| == |nb.entries| + 1 && nb'.entries[..|nb.entries|] == nb.entries
      && var entry := nb'.entries[|nb.entries|];
         entry.position == |nb.entries| + 1 && entry.kind == kind && LinksMatch(nb, nb', entry.links, items)
  {
    WithEntrySound(nb, kind, items);
    LinkAllMatches(nb, items);
    HighestIsLast(nb.entries);
    var (linked, ids) := LinkAll(nb, items);
    forall i | 0 <= i < |items|
      ensures StandsFor(nb, WithEntry(nb, kind, items), ids[i], items[i])
    {
      assert StandsFor(nb, linked, ids[i], items[i]);
    }
    assert IdsMatch(nb, WithEntry(nb, kind, items), ids, items);
  }

  lemma LinkOne(nb: Notebook, item: Evidence)
    ensures LinkAll(nb, []) == (nb, []) && LinkAll(nb, [item]) == (LinkItem(nb, item).0, [LinkItem(nb, item).1])
  {
    assert [item][..0] == [] && LinkAll(nb, [item][..0]) == (nb, []);
    assert [] + [LinkItem(nb, item).1] == [LinkItem(nb, item).1];
  }

  /** A note links nothing; a highlight links one new citation of its version and excerpt. */
  lemma PlainEntries(nb: Notebook, version: Id, excerpt: string)
    requires Sound(nb)
    ensures Apply(nb, AddNote) == nb.(entries := nb.entries + [Entry(|nb.entries| + 1, "note", {})])
    ensures Apply(nb, AddHighlight(version, excerpt)) ==
            Notebook(nb.entries + [Entry(|nb.entries| + 1, "highlight", {nb.next})],
                     nb.citations[nb.next := Citation(version, excerpt)], nb.next + 1)
    ensures nb.next !in nb.citations
  {
    HighestIsLast(nb.entries);
    LinkOne(nb, Evidence(0, version, None, excerpt, ""));
    assert Elements<Id>([]) == {} && Elements([nb.next]) == {nb.next};
  }

  ghost predicate Allowed(nb: Notebook, c: Command) {
    c.AddGenerated? ==> AllKnown(nb, c.items)
  }

  ghost predicate AllowedRun(nb: Notebook, commands: seq<Command>)
    decreases |commands|
  {
    commands == [] ||
    (AllowedRun(nb, commands[..|commands| - 1]) && Allowed(After(nb, commands[..|commands| - 1]), commands[|commands| - 1]))
  }

  function After(nb: Notebook, commands: seq<Command>): Notebook
    decreases |commands|
  {
    if commands == [] then nb else Apply(After(nb, commands[..|commands| - 1]), commands[|commands| - 1])
  }

  /** Over every run of commands, entries are numbered 1..n and link known citations. */
  lemma {:induction false} EntriesStayNumbered(commands: seq<Command>)
    requires AllowedRun(EMPTY, commands)
    ensures Sound(After(EMPTY, commands)) && |After(EMPTY, commands).entries| == |commands|
    decreases |commands|
  {
    if commands != [] {
      var (before, c) := (After(EMPTY, commands[..|commands| - 1]), commands[|commands| - 1]);
      EntriesStayNumbered(commands[..|commands| - 1]);
      match c
      case AddNote => EntryLinksItsEvidence(before, "note", []);
      case AddHighlight(version, excerpt) => EntryLinksItsEvidence(before, "highlight", [Evidence(0, version, None, excerpt, "")]);
      case AddGenerated(kind, items) => EntryLinksItsEvidence(before, kind, items);
    }
  }

  function LinkedVersions(nb: Notebook, entry: Entry): set<Id> {
    set l | l in entry.links && l in nb.citations :: nb.citations[l].version
  }

  function VersionsOf(items: seq<Evidence>): set<Id> {
    set i | 0 <= i < |items| :: items[i].version
  }

  lemma MatchingVersions(before: Notebook, after: Notebook, entry: Entry, items: seq<Evidence>)
    requires LinksMatch(before, after, entry.links, items)
    ensures LinkedVersions(after, entry) == VersionsOf(items)
  {
    var ids: seq<Id> :| entry.links == Elements(ids) && IdsMatch(before, after, ids, items);
    forall v | v in LinkedVersions(after, entry)
      ensures v in VersionsOf(items)
    {
      var l :| l in entry.links && l in after.citations && after.citations[l].version == v;
      var i :| 0 <= i < |ids| && ids[i] == l;
      assert StandsFor(before, after, ids[i], items[i]);
    }
    forall v | v in VersionsOf(items)
      ensures v in LinkedVersions(after, entry)
    {
      var i :| 0 <= i < |items| && items[i].version == v;
      assert StandsFor(before, after, ids[i], items[i]) && ids[i] in Elements(ids);
    }
  }

  /* ---- The service over the notebook ---- */

  class NotebookDatabase {
    var notebook: Notebook

    constructor ()
      ensures notebook == EMPTY && Sound(notebook)
    {
      notebook := EMPTY;
    }

    /** The entry, then a link for each piece of evidence. */
    method AddGeneratedEntry(kind: string, items: seq<Evidence>)
      modifies this
      ensures notebook == WithEntry(old(notebook), kind, items)
    {
      var (before, position) := (notebook, NextPosition(notebook.entries));
      notebook := before.(entries := before.entries + [Entry(position, kind, {})]);
      var n := |before.entries|;
      assert items[..0] == [] && Elements<Id>([]) == {};
      for i := 0 to |items|
        invariant notebook == LinkAll(before, items[..i]).0.(entries :=
                    before.entries + [Entry(position, kind, Elements(LinkAll(before, items[..i]).1))])
        invariant LinkAll(before, items[..i]).0.entries == before.entries
      {
        assert items[..i + 1][..i] == items[..i];
        var entry := notebook.entries[n];
        var id: Id;
        if items[i].citation.Some? {
          id := items[i].citation.value;
        } else {
          id := notebook.next;
          notebook := notebook.(citations := notebook.citations[id := Citation(items[i].version, items[i].excerpt)],
                                next := id + 1);
        }
        assert Elements(LinkAll(before, items[..i]).1 + [id]) == entry.links + {id};
        notebook := notebook.(entries := before.entries + [entry.(links := entry.links + {id})]);
      }
      assert items[..|items|] == items;
    }

    /** A summary from a draft of claims over the gathered rows; a faulty draft changes nothing. */
    method GenerateSummary(rows: seq<Evidence>, claims: seq<Claim>, maxClaims: nat) returns (failure: Option<Failure>)
      requires Sound(notebook) && AllKnown(notebook, rows)
      modifies this
      ensures Sound(notebook)
      ensures failure == None <==> Cited(claims, Gathered(rows), maxClaims).Some?
      ensures failure.Some? ==> notebook == old(notebook)
      ensures failure == None ==>
                && |notebook.entries| == |old(notebook).entries| + 1
                && notebook.entries[..|old(notebook).entries|] == old(notebook).entries
                && notebook.entries[|old(notebook).entries|].kind == "summary"
                && LinksMatch(old(notebook), notebook, notebook.entries[|old(notebook).entries|].links,
                              Cited(claims, Gathered(rows), maxClaims).value)
                && LinkedVersions(notebook, notebook.entries[|old(notebook).entries|])
                   == VersionsOf(Cited(claims, Gathered(rows), maxClaims).value)
    {
      var evidence := GatherEvidence(rows);
      var r := ClaimsEvidence(claims, evidence, maxClaims);
      if r.Err? {
        return Some(r.failure);
      }
      ghost var before := notebook;
      CitedKnown(before, rows, claims, maxClaims);
      EntryLinksItsEvidence(before, "summary", r.value);
      AddGeneratedEntry("summary", r.value);
      MatchingVersions(before, notebook, notebook.entries[|before.entries|], r.value);
      failure := None;
    }
  }

  lemma {:induction false} GatheredMember(rows: seq<Evidence>)
    ensures forall e :: e in Gathered(rows) ==> e in rows
  {
    if rows != [] {
      GatheredMember(rows[..|rows| - 1]);
    }
  }

  lemma CitedKnown(nb: Notebook, rows: seq<Evidence>, claims: seq<Claim>, maxClaims: nat)
    requires AllKnown(nb, rows) && Cited(claims, Gathered(rows), maxClaims).Some?
    ensures AllKnown(nb, Cited(claims, Gathered(rows), maxClaims).value)
  {
    var (evidence, used) := (Gathered(rows), Cited(claims, Gathered(rows), maxClaims).value);
    GatheredMember(rows);
    forall i | 0 <= i < |used|
      ensures Known(nb, used[i])
    {
      assert used[i] in used;
      CitedIffUsed(claims, evidence, maxClaims, used[i]);
      assert used[i] in rows;
      var j :| 0 <= j < |rows| && rows[j] == used[i];
      assert Known(nb, rows[j]);
    }
  }
}
