/**
 What the evidence list of a record holds, field by field: which part of a match is its value, which
 offsets it carries, and when the title, the date and the agenda items have spans.
 */
module SpanMeanings {
  import opened Options
  import opened SpanLists
  import opened Strings
  import opened EvidenceSpans

  /* ---- One match ---- */

  /** `whole` is the match and `group` its first group. */
  ghost predicate Reads(text: string, m: Match, whole: string, group: string) {
    InBounds(text, m) && whole == text[m.start..m.end] && group == text[m.groupStart..m.groupEnd]
  }

  /** Addresses, amounts, deadlines and actions are the whole match, trimmed, at the match's offsets. */
  lemma WholeMatchSpan(text: string, m: Match, f: SpanField, whole: string, group: string)
    requires Reads(text, m, whole, group) && f in {Addresses, MoneyAmounts, Deadlines, Actions}
    ensures SpanOf(text, m, f) == Span(f, Strip(whole), Strip(whole), m.start, m.end)
  {
  }

  /** Parcel, case and permit numbers are the group, trimmed, quoted from the whole match at its offsets. */
  lemma GroupSpan(text: string, m: Match, f: SpanField, whole: string, group: string)
    requires Reads(text, m, whole, group) && f in {ParcelNumbers, CaseNumbers, PermitNumbers}
    ensures SpanOf(text, m, f) == Span(f, Strip(group), Strip(whole), m.start, m.end)
  {
  }

  /** Project names are the group as it stands, at the match's offsets. */
  lemma ProjectSpan(text: string, m: Match, f: SpanField, whole: string, group: string)
    requires Reads(text, m, whole, group) && f == ProjectNames
    ensures SpanOf(text, m, f) == Span(f, group, group, m.start, m.end)
  {
  }

  /** Agenda items are the group, trimmed, quoted from the whole match at the offsets of the group. */
  lemma AgendaSpan(text: string, m: Match, f: SpanField, whole: string, group: string)
    requires Reads(text, m, whole, group) && f == AgendaItems
    ensures SpanOf(text, m, f) == Span(f, Strip(group), Strip(whole), m.groupStart, m.groupEnd)
  {
  }

  /* ---- One field ---- */

  /** Span `s` is that of match `k`, the first match with its value. */
  ghost predicate FromMatch(text: string, matches: seq<Match>, f: SpanField, s: Span, k: nat)
    requires Bounded(text, matches) && k < |matches|
  {
    && s == SpanOf(text, matches[k], f)
    && forall j :: 0 <= j < k ==> SpanOf(text, matches[j], f).value != s.value
  }

  lemma SpanAt(text: string, matches: seq<Match>, f: SpanField, k: nat)
    requires Bounded(text, matches) && k < |matches|
    ensures AllSpans(text, matches, f)[k] == SpanOf(text, matches[k], f)
  {
  }

  lemma FirstAtFromMatch(text: string, matches: seq<Match>, f: SpanField, k: nat)
    requires Bounded(text, matches) && k < |matches| && FirstAt(AllSpans(text, matches, f), k)
    ensures FromMatch(text, matches, f, AllSpans(text, matches, f)[k], k)
  {
    SpanAt(text, matches, f, k);
    forall j | 0 <= j < k
      ensures SpanOf(text, matches[j], f).value != AllSpans(text, matches, f)[k].value
    {
      SpanAt(text, matches, f, j);
    }
  }

  lemma FromMatchFirstAt(text: string, matches: seq<Match>, f: SpanField, s: Span, k: nat)
    requires Bounded(text, matches) && k < |matches| && FromMatch(text, matches, f, s, k)
    ensures AllSpans(text, matches, f)[k] == s && FirstAt(AllSpans(text, matches, f), k)
  {
    SpanAt(text, matches, f, k);
    forall j | 0 <= j < k
      ensures AllSpans(text, matches, f)[j].value != s.value
    {
      SpanAt(text, matches, f, j);
    }
  }

  /** The first spans of values are the spans that come first with their value. */
  lemma FirstOfMember(spans: seq<Span>, s: Span)
    ensures s in FirstOf(spans) <==> exists k :: 0 <= k < |spans| && spans[k] == s && FirstAt(spans, k)
  {
    var firsts := FirstOf(spans);
    FirstOfIsFirst(spans);
    if s in firsts {
      var i :| 0 <= i < |firsts| && firsts[i] == s;
      var k :| 0 <= k < |spans| && firsts[i] == spans[k] && FirstAt(spans, k);
    }
    if k :| 0 <= k < |spans| && spans[k] == s && FirstAt(spans, k) {
      assert HasValue(firsts, spans[k].value);
      var i :| 0 <= i < |firsts| && firsts[i].value == spans[k].value;
      var l :| 0 <= l < |spans| && firsts[i] == spans[l] && FirstAt(spans, l);
      assert l == k;
    }
  }

  lemma FirstSpansMember(text: string, matches: seq<Match>, f: SpanField, s: Span)
    requires Bounded(text, matches)
    ensures s in FirstSpans(text, matches, f) <==> exists k :: 0 <= k < |matches| && FromMatch(text, matches, f, s, k)
  {
    var spans := AllSpans(text, matches, f);
    FirstOfMember(spans, s);
    if k :| 0 <= k < |spans| && spans[k] == s && FirstAt(spans, k) {
      FirstAtFromMatch(text, matches, f, k);
    }
    if k :| 0 <= k < |matches| && FromMatch(text, matches, f, s, k) {
      FromMatchFirstAt(text, matches, f, s, k);
    }
  }

  lemma PatternEvidence(src: Source, decides: string -> bool, boilerplate: string -> bool, s: Span)
    requires WellFormed(src) && Rank(s.field) < 7
    ensures s in Evidence(src, decides, boilerplate) <==>
            exists k :: 0 <= k < |MatchesOf(src, s.field)| && FromMatch(src.text, MatchesOf(src, s.field), s.field, s, k)
  {
    EvidenceMember(src, decides, boilerplate, s);
    PatternBlockSound(src, decides, boilerplate, Rank(s.field));
    FirstSpansMember(src.text, MatchesOf(src, s.field), s.field, s);
  }

  lemma NameEvidence(src: Source, decides: string -> bool, boilerplate: string -> bool, s: Span)
    requires WellFormed(src) && s.field == ProjectNames
    ensures s in Evidence(src, decides, boilerplate) <==>
            exists k :: 0 <= k < |MatchesOf(src, s.field)| && FromMatch(src.text, MatchesOf(src, s.field), s.field, s, k)
  {
    EvidenceMember(src, decides, boilerplate, s);
    LaterBlockAt(src, decides, boilerplate, Rank(ProjectNames));
    FirstSpansMember(src.text, MatchesOf(src, s.field), s.field, s);
  }

  /** The spans of a pattern's field are those of its matches, the first match of each value. */
  lemma MatchEvidence(src: Source, decides: string -> bool, boilerplate: string -> bool, s: Span)
    requires WellFormed(src)
    requires s.field in {Addresses, ParcelNumbers, CaseNumbers, PermitNumbers, MoneyAmounts, Deadlines, Actions, ProjectNames}
    ensures s in Evidence(src, decides, boilerplate) <==>
            exists k :: 0 <= k < |MatchesOf(src, s.field)| && FromMatch(src.text, MatchesOf(src, s.field), s.field, s, k)
  {
    if s.field == ProjectNames {
      NameEvidence(src, decides, boilerplate, s);
    } else {
      PatternEvidence(src, decides, boilerplate, s);
    }
  }

  /** Agenda items have spans in records that list an agenda, and in no others. */
  lemma AgendaEvidence(src: Source, decides: string -> bool, boilerplate: string -> bool, s: Span)
    requires WellFormed(src) && s.field == AgendaItems
    ensures s in Evidence(src, decides, boilerplate) <==>
            && src.agenda
            && exists k :: 0 <= k < |MatchesOf(src, AgendaItems)| && FromMatch(src.text, MatchesOf(src, AgendaItems), AgendaItems, s, k)
  {
    EvidenceMember(src, decides, boilerplate, s);
    LaterBlockAt(src, decides, boilerplate, Rank(AgendaItems));
    FirstSpansMember(src.text, MatchesOf(src, AgendaItems), AgendaItems, s);
  }

  /** `s` quotes `needle` at its first occurrence. */
  ghost predicate QuotesFirst(text: string, needle: string, f: SpanField, s: Span) {
    && s == Span(f, needle, needle, s.start, s.start + |needle|)
    && OccursAt(text, needle, s.start) && forall i :: 0 <= i < s.start ==> !OccursAt(text, needle, i)
  }

  lemma FoundIffQuotesFirst(text: string, needle: string, f: SpanField, s: Span)
    ensures QuotesFirst(text, needle, f, s) <==>
            Find(text, needle).Some?
            && s == Span(f, needle, needle, Find(text, needle).value, Find(text, needle).value + |needle|)
  {
    var at := Find(text, needle);
    if at.Some? {
      assert OccursAt(text, needle, at.value);
    }
  }

  lemma TitleMember(src: Source, s: Span)
    ensures s in TitleSpans(src) <==> QuotesFirst(src.text, src.title, Title, s)
  {
    FoundIffQuotesFirst(src.text, src.title, Title, s);
  }

  /** The title has one span, at its first occurrence, iff it occurs in the text. */
  lemma TitleEvidence(src: Source, decides: string -> bool, boilerplate: string -> bool, s: Span)
    requires WellFormed(src) && s.field == Title
    ensures s in Evidence(src, decides, boilerplate) <==> QuotesFirst(src.text, src.title, Title, s)
  {
    EvidenceMember(src, decides, boilerplate, s);
    LaterBlockAt(src, decides, boilerplate, Rank(Title));
    TitleMember(src, s);
  }

  lemma SummaryMember(text: string, summary: string, s: Span)
    ensures s in SpansOfSummary(text, summary) <==> summary != "" && QuotesFirst(text, summary, Summary, s)
  {
    FoundIffQuotesFirst(text, summary, Summary, s);
  }

  /** A summary has one span, at its first occurrence, iff it is not empty and occurs in the text. */
  lemma SummaryQuoted(src: Source, decides: string -> bool, boilerplate: string -> bool, s: Span)
    requires WellFormed(src) && s.field == Summary
    ensures s in Evidence(src, decides, boilerplate) <==>
            SummaryOf(src, boilerplate) != "" && QuotesFirst(src.text, SummaryOf(src, boilerplate), Summary, s)
  {
    EvidenceMember(src, decides, boilerplate, s);
    SummaryBlock(src, decides, boilerplate);
    SummaryMember(src.text, SummaryOf(src, boilerplate), s);
  }

  /** The publication date has the span of its candidate, if it has one. */
  lemma PublishedEvidence(src: Source, decides: string -> bool, boilerplate: string -> bool, s: Span)
    requires WellFormed(src) && s.field == PublishedAt
    ensures s in Evidence(src, decides, boilerplate) <==> src.published == Some(s)
  {
    EvidenceMember(src, decides, boilerplate, s);
    LaterBlockAt(src, decides, boilerplate, Rank(PublishedAt));
  }

  /* ---- The summary ---- */

  /** A sentence of at least 35 normalized characters that is not boilerplate. */
  predicate Usable(sentence: string, boilerplate: string -> bool) {
    |Join(Words(sentence), ' ')| >= 35 && !boilerplate(Join(Words(sentence), ' '))
  }

  /** The summary is the first usable sentence, or else the whole text, normalized and cut at 600 characters. */
  lemma SummaryMeaning(src: Source, boilerplate: string -> bool, i: nat)
    requires i <= |src.sentences| && forall j :: 0 <= j < i ==> !Usable(src.sentences[j], boilerplate)
    requires i < |src.sentences| ==> Usable(src.sentences[i], boilerplate)
    ensures var whole := Join(Words(if i < |src.sentences| then src.sentences[i] else src.text), ' ');
      SummaryOf(src, boilerplate) == if |whole| <= 600 then whole else whole[..600]
  {
    BasisMeaning(src.text, src.sentences, boilerplate, i);
  }

  lemma {:induction false} BasisMeaning(text: string, sentences: seq<string>, boilerplate: string -> bool, i: nat)
    requires i <= |sentences| && forall j :: 0 <= j < i ==> !Usable(sentences[j], boilerplate)
    requires i < |sentences| ==> Usable(sentences[i], boilerplate)
    ensures SummaryBasis(text, sentences, boilerplate) == Join(Words(if i < |sentences| then sentences[i] else text), ' ')
    decreases |sentences|
  {
    if sentences != [] && i > 0 {
      assert !Usable(sentences[0], boilerplate);
      BasisMeaning(text, sentences[1..], boilerplate, i - 1);
    }
  }

  /* ---- The signal ---- */

  predicate SignalField(f: SpanField) {
    f == Actions || f == MoneyAmounts || f == PermitNumbers || f == CaseNumbers || f == Summary
  }

  lemma {:induction false} FirstInIsFirst(spans: seq<Span>, fields: set<SpanField>, i: nat)
    requires i < |spans| && spans[i].field in fields && forall j :: 0 <= j < i ==> spans[j].field !in fields
    ensures FirstIn(spans, fields) == Some(spans[i])
  {
    if i > 0 {
      assert spans[0].field !in fields;
      FirstInIsFirst(spans[1..], fields, i - 1);
    }
  }

  /** A signal quotes the first span of a signal field in the order of the evidence list. */
  lemma SignalIsFirst(evidence: seq<Span>, recordType: string, changeTypes: seq<string>, i: nat)
    requires changeTypes != [] && Commercial(recordType)
    requires i < |evidence| && SignalField(evidence[i].field) && forall j :: 0 <= j < i ==> !SignalField(evidence[j].field)
    ensures SignalOf(evidence, recordType, changeTypes)
         == Some(Signal(evidence[i].sourceText, evidence[i].start, evidence[i].end))
  {
    CommercialIff(recordType);
    assert forall f :: f in SIGNAL_FIELDS <==> SignalField(f);
    FirstInIsFirst(evidence, SIGNAL_FIELDS, i);
  }

  /* ---- Decisions and the whole list ---- */

  /** The first span listed for a value, as a decision. */
  ghost predicate DecidedBy(listed: seq<Span>, s: Span, i: nat) {
    && i < |listed| && (forall j :: 0 <= j < i ==> listed[j].value != listed[i].value)
    && s == Span(Decisions, listed[i].value, listed[i].sourceText, listed[i].start, listed[i].end)
  }

  lemma DecisionSpanOf(listed: seq<Span>, v: string, s: Span)
    requires HasValue(listed, v)
    ensures s == DecisionSpan(listed, v) <==> exists i :: DecidedBy(listed, s, i) && s.value == v
  {
    var found := LookUp(listed, v).value;
    var k :| 0 <= k < |listed| && listed[k] == found && found.value == v && forall j :: 0 <= j < k ==> listed[j].value != v;
    if s == DecisionSpan(listed, v) {
      assert DecidedBy(listed, s, k);
    }
    if i :| DecidedBy(listed, s, i) && s.value == v {
      assert i == k;
    }
  }

  lemma DecisionSpansMember(listed: seq<Span>, decisions: seq<string>, s: Span)
    requires forall v :: v in decisions ==> HasValue(listed, v)
    ensures s in DecisionSpans(listed, decisions) <==> s.value in decisions && exists i :: DecidedBy(listed, s, i)
  {
    var spans := DecisionSpans(listed, decisions);
    if k :| 0 <= k < |spans| && spans[k] == s {
      assert decisions[k] in decisions;
      DecisionSpanOf(listed, decisions[k], s);
    }
    if s.value in decisions && exists i :: DecidedBy(listed, s, i) {
      DecisionSpanOf(listed, s.value, s);
      var k :| 0 <= k < |decisions| && decisions[k] == s.value;
      assert spans[k] == s;
    }
  }

  /** An action that decides has one more span, with the source and offsets of the first item listed with its value. */
  lemma DecisionEvidence(src: Source, decides: string -> bool, boilerplate: string -> bool, s: Span)
    requires WellFormed(src) && s.field == Decisions
    ensures s in Evidence(src, decides, boilerplate) <==>
            && s.value in ValuesIn(SpansOf(src, Actions)) && decides(s.value)
            && exists i :: DecidedBy(PatternSpans(src), s, i)
  {
    EvidenceMember(src, decides, boilerplate, s);
    LaterBlockAt(src, decides, boilerplate, Rank(Decisions));
    DecisionsListed(src, decides);
    DecisionSpansMember(PatternSpans(src), DecisionValues(src, decides), s);
    ChosenMember(ValuesIn(SpansOf(src, Actions)), decides, s.value);
  }

  lemma {:induction false} ChosenMember(values: seq<string>, decides: string -> bool, v: string)
    ensures v in Chosen(values, decides) <==> v in values && decides(v)
  {
    if values != [] {
      ChosenMember(values[..|values| - 1], decides, v);
      assert v in values <==> v in values[..|values| - 1] || v == values[|values| - 1];
    }
  }

  /** In the order of the fields that `Rank` gives. */
  ghost predicate InRankOrder(spans: seq<Span>) {
    forall i, j :: 0 <= i < j < |spans| ==> Rank(spans[i].field) <= Rank(spans[j].field)
  }

  ghost predicate RanksBelow(spans: seq<Span>, n: nat) {
    forall i :: 0 <= i < |spans| ==> Rank(spans[i].field) < n
  }

  lemma RankedSnoc(spans: seq<Span>, more: seq<Span>, n: nat)
    requires InRankOrder(spans) && RanksBelow(spans, n) && forall i :: 0 <= i < |more| ==> Rank(more[i].field) == n
    ensures InRankOrder(spans + more) && RanksBelow(spans + more, n + 1)
  {
  }

  lemma {:induction false} FlattenRanked(blocks: seq<Block>)
    requires |blocks| <= |ORDER| && forall k :: 0 <= k < |blocks| ==> Sound(blocks[k]) && blocks[k].field == ORDER[k]
    ensures InRankOrder(Flatten(blocks)) && RanksBelow(Flatten(blocks), |blocks|)
  {
    if blocks != [] {
      var n := |blocks| - 1;
      FlattenRanked(blocks[..n]);
      RankOfOrder(n);
      assert Sound(blocks[n]) && blocks[n].field == ORDER[n];
      RankedSnoc(Flatten(blocks[..n]), blocks[n].spans, n);
    }
  }

  /** The list goes through the fields in the order in which the program fills it. */
  lemma EvidenceInRankOrder(src: Source, decides: string -> bool, boilerplate: string -> bool)
    requires WellFormed(src)
    ensures InRankOrder(Evidence(src, decides, boilerplate))
  {
    BlocksLabelled(src, decides, boilerplate);
    var blocks := Blocks(src, decides, boilerplate);
    forall k | 0 <= k < |blocks|
      ensures Sound(blocks[k]) && blocks[k].field == ORDER[k]
    {
      BlockSound(src, decides, boilerplate, k);
    }
    FlattenRanked(blocks);
  }
}
