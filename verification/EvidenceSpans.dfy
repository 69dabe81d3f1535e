/**
 The evidence list of a canonical record: spans of the stored text for the values that patterns
 match, and the span a commercial signal quotes.

 Pattern engines and the sentence splitter are parameters: any list of matches, any sentences.
 */
module EvidenceSpans {
  import opened Options
  import opened SpanLists
  import opened Strings

  // A match and its first group, as offsets into the text.
  datatype Match = Match(start: nat, end: nat, groupStart: nat, groupEnd: nat)

  // What one processed document gives the extraction; `agenda` when its type lists agenda items.
  datatype Source = Source(
    text: string, title: string, matches: map<SpanField, seq<Match>>, sentences: seq<string>,
    published: Option<Span>, agenda: bool)

  predicate InBounds(text: string, m: Match) {
    m.start < m.end <= |text| && m.groupStart <= m.groupEnd <= |text|
  }

  predicate Bounded(text: string, matches: seq<Match>) {
    forall i :: 0 <= i < |matches| ==> InBounds(text, matches[i])
  }

  ghost predicate WellFormed(src: Source) {
    && (forall f :: f in src.matches ==> Bounded(src.text, src.matches[f]))
    && (src.published.Some? ==> src.published.value.field == PublishedAt)
  }

  function MatchesOf(src: Source, f: SpanField): seq<Match> {
    if f in src.matches then src.matches[f] else []
  }

  /* ---- Values of one pattern ---- */

  function SpanOf(text: string, m: Match, f: SpanField): Span
    requires InBounds(text, m)
  {
    var (whole, group) := (text[m.start..m.end], text[m.groupStart..m.groupEnd]);
    match f
    case ProjectNames => Span(f, group, group, m.start, m.end)
    case AgendaItems => Span(f, Strip(group), Strip(whole), m.groupStart, m.groupEnd)
    case ParcelNumbers => Span(f, Strip(group), Strip(whole), m.start, m.end)
    case CaseNumbers => Span(f, Strip(group), Strip(whole), m.start, m.end)
    case PermitNumbers => Span(f, Strip(group), Strip(whole), m.start, m.end)
    case _ => Span(f, Strip(whole), Strip(whole), m.start, m.end)
  }

  function AllSpans(text: string, matches: seq<Match>, f: SpanField): seq<Span>
    requires Bounded(text, matches)
  {
    seq(|matches|, i requires 0 <= i < |matches| => SpanOf(text, matches[i], f))
  }

  function FirstSpans(text: string, matches: seq<Match>, f: SpanField): seq<Span>
    requires Bounded(text, matches)
  {
    FirstOf(AllSpans(text, matches, f))
  }

  /* ---- Summary and title ---- */

  predicate OccursAt(text: string, needle: string, i: nat) {
    i + |needle| <= |text| && text[i..i + |needle|] == needle
  }

  lemma OccursLater(text: string, needle: string, i: nat)
    requires text != "" && i > 0
    ensures OccursAt(text, needle, i) <==> OccursAt(text[1..], needle, i - 1)
  {
    if i + |needle| <= |text| {
      assert text[i..i + |needle|] == text[1..][i - 1..i - 1 + |needle|];
    }
  }

  /** Python's `find`: the first occurrence. */
  function Find(text: string, needle: string): (r: Option<nat>)
    ensures r.Some? ==> OccursAt(text, needle, r.value)
    ensures forall i: nat :: OccursAt(text, needle, i) ==> r.Some? && r.value <= i
  {
    if OccursAt(text, needle, 0) then Some(0)
    else if text == "" then None
    else
      var r := Find(text[1..], needle);
      assert forall i: nat :: OccursAt(text, needle, i) ==> r.Some? && r.value + 1 <= i by {
        forall i: nat | OccursAt(text, needle, i)
          ensures r.Some? && r.value + 1 <= i
        {
          OccursLater(text, needle, i);
        }
      }
      if r == None then None
      else
        OccursLater(text, needle, r.value + 1);
        Some(r.value + 1)
  }

  const SHORTEST_SUMMARY := 35
  const LONGEST_SUMMARY := 600

  function Normalized(s: string): string {
    Join(Words(s), ' ')
  }

  function Cut(s: string): string {
    s[..Min(LONGEST_SUMMARY, |s|)]
  }

  /** The normalized sentence or text that the summary is cut from. */
  function SummaryBasis(text: string, sentences: seq<string>, boilerplate: string -> bool): string {
    if sentences == [] then Normalized(text)
    else if |Normalized(sentences[0])| >= SHORTEST_SUMMARY && !boilerplate(Normalized(sentences[0]))
    then Normalized(sentences[0])
    else SummaryBasis(text, sentences[1..], boilerplate)
  }

  function SummaryOf(src: Source, boilerplate: string -> bool): string {
    Cut(SummaryBasis(src.text, src.sentences, boilerplate))
  }

  function TitleSpans(src: Source): seq<Span> {
    var at := Find(src.text, src.title);
    if at == None then [] else [Span(Title, src.title, src.title, at.value, at.value + |src.title|)]
  }

  function SpansOfSummary(text: string, summary: string): seq<Span> {
    var at := Find(text, summary);
    if summary == "" || at == None then [] else [Span(Summary, summary, summary, at.value, at.value + |summary|)]
  }

  function SummarySpans(src: Source, boilerplate: string -> bool): seq<Span> {
    SpansOfSummary(src.text, SummaryOf(src, boilerplate))
  }

  /* ---- The evidence list ---- */

  // The fields of the first patterns, in order, and of all blocks of spans.
  const PATTERNS := [Addresses, ParcelNumbers, CaseNumbers, PermitNumbers, MoneyAmounts, Deadlines, Actions]
  const ORDER := PATTERNS + [Decisions, Title, Summary, PublishedAt, ProjectNames, AgendaItems]

  function SpansOf(src: Source, f: SpanField): seq<Span>
    requires Bounded(src.text, MatchesOf(src, f))
  {
    FirstSpans(src.text, MatchesOf(src, f), f)
  }

  function PublishedSpans(src: Source): seq<Span> {
    if src.published == None then [] else [src.published.value]
  }

  function AgendaSpans(src: Source): seq<Span>
    requires Bounded(src.text, MatchesOf(src, AgendaItems))
  {
    if src.agenda then SpansOf(src, AgendaItems) else []
  }

  ghost function PatternBlocks(src: Source, n: nat): (blocks: seq<Block>)
    requires WellFormed(src) && n <= |PATTERNS|
    ensures |blocks| == n
  {
    if n == 0 then [] else PatternBlocks(src, n - 1) + [Block(PATTERNS[n - 1], SpansOf(src, PATTERNS[n - 1]))]
  }

  ghost function PatternSpans(src: Source): seq<Span>
    requires WellFormed(src)
  {
    Flatten(PatternBlocks(src, 7))
  }

  /** The actions that name a decision. */
  ghost function DecisionValues(src: Source, decides: string -> bool): seq<string>
    requires WellFormed(src)
  {
    Chosen(ValuesIn(SpansOf(src, Actions)), decides)
  }

  /** Every decision is the value of some span already listed: the look-up never fails. */
  lemma DecisionsListed(src: Source, decides: string -> bool)
    requires WellFormed(src)
    ensures forall v :: v in DecisionValues(src, decides) ==> HasValue(PatternSpans(src), v)
  {
    var (blocks, spans) := (PatternBlocks(src, 6), SpansOf(src, Actions));
    FlattenSnoc(blocks, Block(Actions, spans));
    forall v | v in DecisionValues(src, decides)
      ensures HasValue(PatternSpans(src), v)
    {
      ValuesListed(Flatten(blocks), spans, v);
    }
  }

  ghost function DecisionBlock(src: Source, decides: string -> bool): seq<Span>
    requires WellFormed(src)
  {
    DecisionsListed(src, decides);
    DecisionSpans(PatternSpans(src), DecisionValues(src, decides))
  }

  ghost function Blocks(src: Source, decides: string -> bool, boilerplate: string -> bool): (blocks: seq<Block>)
    requires WellFormed(src)
    ensures |blocks| == |ORDER|
  {
    PatternBlocks(src, 7)
    + [Block(Decisions, DecisionBlock(src, decides)), Block(Title, TitleSpans(src)),
       Block(Summary, SummarySpans(src, boilerplate)), Block(PublishedAt, PublishedSpans(src)),
       Block(ProjectNames, SpansOf(src, ProjectNames)), Block(AgendaItems, AgendaSpans(src))]
  }

  ghost function Evidence(src: Source, decides: string -> bool, boilerplate: string -> bool): seq<Span>
    requires WellFormed(src)
  {
    Flatten(Blocks(src, decides, boilerplate))
  }

  lemma FlattenSix(blocks: seq<Block>, a: Block, b: Block, c: Block, d: Block, e: Block, f: Block)
    ensures Flatten(blocks + [a, b, c, d, e, f])
         == Flatten(blocks) + a.spans + b.spans + c.spans + d.spans + e.spans + f.spans
  {
    FlattenSnoc(blocks, a);
    FlattenSnoc(blocks + [a], b);
    FlattenSnoc(blocks + [a] + [b], c);
    FlattenSnoc(blocks + [a] + [b] + [c], d);
    FlattenSnoc(blocks + [a] + [b] + [c] + [d], e);
    FlattenSnoc(blocks + [a] + [b] + [c] + [d] + [e], f);
    assert blocks + [a] + [b] + [c] + [d] + [e] + [f] == blocks + [a, b, c, d, e, f];
  }

  lemma EvidenceInOrder(src: Source, decides: string -> bool, boilerplate: string -> bool)
    requires WellFormed(src)
    ensures Evidence(src, decides, boilerplate)
         == PatternSpans(src) + DecisionBlock(src, decides) + TitleSpans(src) + SummarySpans(src, boilerplate)
            + PublishedSpans(src) + SpansOf(src, ProjectNames) + AgendaSpans(src)
  {
    FlattenSix(PatternBlocks(src, 7), Block(Decisions, DecisionBlock(src, decides)), Block(Title, TitleSpans(src)),
               Block(Summary, SummarySpans(src, boilerplate)), Block(PublishedAt, PublishedSpans(src)),
               Block(ProjectNames, SpansOf(src, ProjectNames)), Block(AgendaItems, AgendaSpans(src)));
  }

  /** The evidence after the first `n` patterns; Actions is the last of them. */
  ghost predicate PatternsAdded(src: Source, n: nat, evidence: seq<Span>, actions: seq<string>)
    requires WellFormed(src) && n <= |PATTERNS|
  {
    && evidence == Flatten(PatternBlocks(src, n))
    && (n == |PATTERNS| ==> actions == ValuesIn(SpansOf(src, Actions)))
  }

  lemma NextPattern(src: Source, n: nat, evidence: seq<Span>, actions: seq<string>)
    requires WellFormed(src) && n < |PATTERNS| && PatternsAdded(src, n, evidence, actions)
    ensures var spans := SpansOf(src, PATTERNS[n]);
      PatternsAdded(src, n + 1, evidence + spans, ValuesIn(spans))
  {
    FlattenSnoc(PatternBlocks(src, n), Block(PATTERNS[n], SpansOf(src, PATTERNS[n])));
  }

  class Canonicalizer {
    const text: string
    var evidence: seq<Span>

    constructor (text: string)
      ensures this.text == text && evidence == []
    {
      this.text := text;
      evidence := [];
    }

    /** The loop over the matches of a pattern: the first span of each value joins the evidence. */
    method AddFirst(spans: seq<Span>) returns (result: seq<string>)
      modifies this
      ensures evidence == old(evidence) + FirstOf(spans)
      ensures result == ValuesIn(FirstOf(spans))
    {
      assert spans[..0] == [];
      result := [];
      for i := 0 to |spans|
        invariant evidence == old(evidence) + FirstOf(spans[..i])
        invariant result == ValuesIn(FirstOf(spans[..i]))
      {
        NextSpan(spans, i);
        if spans[i].value !in result {
          result := result + [spans[i].value];
          evidence := evidence + [spans[i]];
        }
      }
      assert spans[..|spans|] == spans;
    }

    method Values(matches: seq<Match>, f: SpanField) returns (result: seq<string>)
      requires Bounded(text, matches)
      modifies this
      ensures evidence == old(evidence) + FirstSpans(text, matches, f)
      ensures result == ValuesIn(FirstSpans(text, matches, f))
    {
      result := AddFirst(AllSpans(text, matches, f));
    }

    /** A span for every decision, with the source of the first item that has its value. */
    method AddDecisions(decisions: seq<string>)
      requires forall v :: v in decisions ==> HasValue(evidence, v)
      modifies this
      ensures evidence == old(evidence) + DecisionSpans(old(evidence), decisions)
    {
      ghost var before := evidence;
      assert before + [] == before;
      for i := 0 to |decisions|
        invariant forall v :: v in decisions[..i] ==> v in decisions
        invariant evidence == before + DecisionSpans(before, decisions[..i])
      {
        DecisionSpansNext(before, decisions, i);
        NextDecision(before, decisions, i);
        var action := LookUp(evidence, decisions[i]);
        evidence := evidence + [action.value.(field := Decisions)];
      }
      assert decisions[..|decisions|] == decisions;
    }

    method AddPatterns(src: Source) returns (actions: seq<string>)
      requires WellFormed(src) && src.text == text && evidence == []
      modifies this
      ensures evidence == PatternSpans(src)
      ensures actions == ValuesIn(SpansOf(src, Actions))
    {
      actions := [];
      for i := 0 to |PATTERNS|
        invariant PatternsAdded(src, i, evidence, actions)
      {
        NextPattern(src, i, evidence, actions);
        actions := Values(MatchesOf(src, PATTERNS[i]), PATTERNS[i]);
      }
    }

    /** The evidence part of `canonicalize_document`. */
    method Canonicalize(src: Source, decides: string -> bool, boilerplate: string -> bool)
      requires WellFormed(src) && src.text == text && evidence == []
      modifies this
      ensures evidence == Evidence(src, decides, boilerplate)
    {
      EvidenceInOrder(src, decides, boilerplate);
      var actions := AddPatterns(src);
      DecisionsListed(src, decides);
      AddDecisions(Chosen(actions, decides));
      evidence := evidence + TitleSpans(src) + SummarySpans(src, boilerplate) + PublishedSpans(src);
      var projects := Values(MatchesOf(src, ProjectNames), ProjectNames);
      if src.agenda {
        var items := Values(MatchesOf(src, AgendaItems), AgendaItems);
      }
    }
  }

  /* ---- One span for each value ---- */

  function Rank(f: SpanField): (k: nat)
    ensures k < |ORDER| && ORDER[k] == f
  {
    match f
    case Addresses => 0
    case ParcelNumbers => 1
    case CaseNumbers => 2
    case PermitNumbers => 3
    case MoneyAmounts => 4
    case Deadlines => 5
    case Actions => 6
    case Decisions => 7
    case Title => 8
    case Summary => 9
    case PublishedAt => 10
    case ProjectNames => 11
    case AgendaItems => 12
  }

  lemma RankOfOrder(k: nat)
    requires k < |ORDER|
    ensures Rank(ORDER[k]) == k
  {
  }

  lemma SpansOfSound(src: Source, f: SpanField)
    requires Bounded(src.text, MatchesOf(src, f))
    ensures Sound(Block(f, SpansOf(src, f)))
  {
    FirstOfSound(AllSpans(src.text, MatchesOf(src, f), f), f);
  }

  lemma DecisionBlockSound(src: Source, decides: string -> bool)
    requires WellFormed(src)
    ensures Sound(Block(Decisions, DecisionBlock(src, decides)))
    ensures ValuesIn(DecisionBlock(src, decides)) == DecisionValues(src, decides)
  {
    var actions := SpansOf(src, Actions);
    SpansOfSound(src, Actions);
    assert Sound(Block(Actions, actions));
    assert forall i, j :: 0 <= i < j < |actions| ==> ValuesIn(actions)[i] != ValuesIn(actions)[j];
    ChosenDistinct(ValuesIn(actions), decides);
    DecisionsListed(src, decides);
    DecisionSpansSound(PatternSpans(src), DecisionValues(src, decides));
  }

  lemma {:induction false} PatternBlock(src: Source, n: nat, k: nat)
    requires WellFormed(src) && k < n <= |PATTERNS|
    ensures PatternBlocks(src, n)[k] == Block(PATTERNS[k], SpansOf(src, PATTERNS[k]))
    decreases n
  {
    if k < n - 1 {
      PatternBlock(src, n - 1, k);
    }
  }

  lemma OneSpanBlockSound(src: Source, boilerplate: string -> bool)
    requires WellFormed(src)
    ensures Sound(Block(Title, TitleSpans(src))) && Sound(Block(Summary, SummarySpans(src, boilerplate)))
    ensures Sound(Block(PublishedAt, PublishedSpans(src)))
  {
  }

  lemma PatternBlockSound(src: Source, decides: string -> bool, boilerplate: string -> bool, k: nat)
    requires WellFormed(src) && k < 7
    ensures Blocks(src, decides, boilerplate)[k] == Block(PATTERNS[k], SpansOf(src, PATTERNS[k]))
    ensures Sound(Blocks(src, decides, boilerplate)[k])
  {
    PatternBlock(src, 7, k);
    SpansOfSound(src, PATTERNS[k]);
  }

  /** The blocks after the patterns, in their order. */
  ghost function LaterBlock(src: Source, decides: string -> bool, boilerplate: string -> bool, k: nat): Block
    requires WellFormed(src) && 7 <= k < |ORDER|
  {
    match k
    case 7 => Block(Decisions, DecisionBlock(src, decides))
    case 8 => Block(Title, TitleSpans(src))
    case 9 => Block(Summary, SummarySpans(src, boilerplate))
    case 10 => Block(PublishedAt, PublishedSpans(src))
    case 11 => Block(ProjectNames, SpansOf(src, ProjectNames))
    case _ => Block(AgendaItems, AgendaSpans(src))
  }

  lemma LaterBlockAt(src: Source, decides: string -> bool, boilerplate: string -> bool, k: nat)
    requires WellFormed(src) && 7 <= k < |ORDER|
    ensures Blocks(src, decides, boilerplate)[k] == LaterBlock(src, decides, boilerplate, k)
  {
  }

  lemma AgendaSound(src: Source)
    requires WellFormed(src)
    ensures Sound(Block(AgendaItems, AgendaSpans(src)))
  {
    SpansOfSound(src, AgendaItems);
  }

  lemma LaterBlockSound(src: Source, decides: string -> bool, boilerplate: string -> bool, k: nat)
    requires WellFormed(src) && 7 <= k < |ORDER|
    ensures var b := LaterBlock(src, decides, boilerplate, k); Sound(b) && b.field == ORDER[k]
  {
    match k
    case 7 => DecisionBlockSound(src, decides);
    case 8 => OneSpanBlockSound(src, boilerplate);
    case 9 => OneSpanBlockSound(src, boilerplate);
    case 10 => OneSpanBlockSound(src, boilerplate);
    case 11 => SpansOfSound(src, ProjectNames);
    case _ => AgendaSound(src);
  }

  lemma BlockSound(src: Source, decides: string -> bool, boilerplate: string -> bool, k: nat)
    requires WellFormed(src) && k < |ORDER|
    ensures var b := Blocks(src, decides, boilerplate)[k]; Sound(b) && b.field == ORDER[k]
  {
    if k < 7 {
      PatternBlockSound(src, decides, boilerplate, k);
    } else {
      LaterBlockAt(src, decides, boilerplate, k);
      LaterBlockSound(src, decides, boilerplate, k);
    }
  }

  lemma BlocksLabelled(src: Source, decides: string -> bool, boilerplate: string -> bool)
    requires WellFormed(src)
    ensures Labelled(Blocks(src, decides, boilerplate))
    ensures forall k :: 0 <= k < |ORDER| ==> Blocks(src, decides, boilerplate)[k].field == ORDER[k]
  {
    var blocks := Blocks(src, decides, boilerplate);
    forall k | 0 <= k < |blocks|
      ensures Sound(blocks[k]) && blocks[k].field == ORDER[k]
    {
      BlockSound(src, decides, boilerplate, k);
    }
    forall i, j | 0 <= i < j < |blocks|
      ensures blocks[i].field != blocks[j].field
    {
      RankOfOrder(i);
      RankOfOrder(j);
    }
  }

  /** The values a record keeps for a field. */
  ghost function RecordValues(src: Source, decides: string -> bool, f: SpanField): seq<string>
    requires WellFormed(src) && f !in {Title, Summary, PublishedAt}
  {
    if f == Decisions then DecisionValues(src, decides)
    else if f == AgendaItems then ValuesIn(AgendaSpans(src))
    else ValuesIn(SpansOf(src, f))
  }

  lemma LaterBlockValues(src: Source, decides: string -> bool, boilerplate: string -> bool, f: SpanField)
    requires WellFormed(src) && f in {Decisions, ProjectNames, AgendaItems}
    ensures ValuesIn(Blocks(src, decides, boilerplate)[Rank(f)].spans) == RecordValues(src, decides, f)
  {
    LaterBlockAt(src, decides, boilerplate, Rank(f));
    DecisionBlockSound(src, decides);
  }

  lemma BlockValues(src: Source, decides: string -> bool, boilerplate: string -> bool, f: SpanField)
    requires WellFormed(src) && f !in {Title, Summary, PublishedAt}
    ensures ValuesIn(Blocks(src, decides, boilerplate)[Rank(f)].spans) == RecordValues(src, decides, f)
  {
    if Rank(f) < 7 {
      PatternBlockSound(src, decides, boilerplate, Rank(f));
    } else {
      LaterBlockValues(src, decides, boilerplate, f);
    }
  }

  /** Every value taken from a pattern, decisions included, has exactly one span of its field. */
  lemma EachValueHasOneSpan(src: Source, decides: string -> bool, boilerplate: string -> bool, f: SpanField, v: string)
    requires WellFormed(src) && f !in {Title, Summary, PublishedAt} && v in RecordValues(src, decides, f)
    ensures OneSpan(Evidence(src, decides, boilerplate), f, v)
  {
    BlocksLabelled(src, decides, boilerplate);
    BlockValues(src, decides, boilerplate, f);
    FlattenOne(Blocks(src, decides, boilerplate), Rank(f), v);
  }

  /* ---- Signals quote the stored text ---- */

  const SIGNAL_PATTERNS := {Actions, MoneyAmounts, PermitNumbers, CaseNumbers}
  const SIGNAL_FIELDS := SIGNAL_PATTERNS + {Summary}
  const SIGNAL_TYPES := {"procurement_rfp", "contract_award", "permit", "planning_zoning_case", "budget_financial_report"}

  datatype Signal = Signal(excerpt: string, start: nat, end: nat)

  function SignalOf(evidence: seq<Span>, recordType: string, changeTypes: seq<string>): Option<Signal> {
    if changeTypes == [] || recordType !in SIGNAL_TYPES then None else
    var item := FirstIn(evidence, SIGNAL_FIELDS);
    if item == None then None else Some(Signal(item.value.sourceText, item.value.start, item.value.end))
  }

  /** A non-empty stretch of the text whose trimmed characters are the source text. */
  predicate Grounded(text: string, s: Span) {
    s.start < s.end <= |text| && Strip(text[s.start..s.end]) == s.sourceText
  }

  lemma SpanGrounded(text: string, m: Match, f: SpanField, whole: string)
    requires InBounds(text, m) && whole == text[m.start..m.end] && f != ProjectNames && f != AgendaItems
    ensures var s := SpanOf(text, m, f); s.start == m.start && s.end == m.end && s.sourceText == Strip(whole)
  {
    match f
    case ParcelNumbers =>
    case CaseNumbers =>
    case PermitNumbers =>
    case _ =>
  }

  lemma PatternSpansGrounded(src: Source, f: SpanField, s: Span)
    requires Bounded(src.text, MatchesOf(src, f)) && s in SpansOf(src, f)
    requires f != ProjectNames && f != AgendaItems
    ensures Grounded(src.text, s)
  {
    var spans := AllSpans(src.text, MatchesOf(src, f), f);
    FirstOfIsFirst(spans);
    var i :| 0 <= i < |FirstOf(spans)| && FirstOf(spans)[i] == s;
    var k :| 0 <= k < |spans| && FirstOf(spans)[i] == spans[k] && FirstAt(spans, k);
    var m := MatchesOf(src, f)[k];
    SpanGrounded(src.text, m, f, src.text[m.start..m.end]);
  }

  /** The summary was cut right after a space. */
  predicate CutAtSpace(basis: string) {
    |basis| > LONGEST_SUMMARY && IsSpace(basis[LONGEST_SUMMARY - 1])
  }

  lemma {:induction false} BasisEnds(text: string, sentences: seq<string>, boilerplate: string -> bool)
    ensures var b := SummaryBasis(text, sentences, boilerplate); b == "" || (!IsSpace(b[0]) && !IsSpace(b[|b| - 1]))
  {
    var s := if sentences == [] then text else sentences[0];
    WordsAreSolid(s);
    if Words(s) != [] {
      JoinedEnds(Words(s));
    }
    if sentences != [] {
      BasisEnds(text, sentences[1..], boilerplate);
    }
  }

  lemma CutTrimmedIff(basis: string)
    requires basis == "" || (!IsSpace(basis[0]) && !IsSpace(basis[|basis| - 1]))
    ensures Strip(Cut(basis)) == Cut(basis) <==> !CutAtSpace(basis)
  {
    StripFixedIff(Cut(basis));
  }

  lemma SummaryTrimmedIff(src: Source, boilerplate: string -> bool)
    ensures var (b, summary) := (SummaryBasis(src.text, src.sentences, boilerplate), SummaryOf(src, boilerplate));
      Strip(summary) == summary <==> !CutAtSpace(b)
  {
    BasisEnds(src.text, src.sentences, boilerplate);
    CutTrimmedIff(SummaryBasis(src.text, src.sentences, boilerplate));
  }

  lemma EvidenceMember(src: Source, decides: string -> bool, boilerplate: string -> bool, s: Span)
    requires WellFormed(src)
    ensures s in Evidence(src, decides, boilerplate) <==> s in Blocks(src, decides, boilerplate)[Rank(s.field)].spans
  {
    BlocksLabelled(src, decides, boilerplate);
    BlockMember(Blocks(src, decides, boilerplate), Rank(s.field), s);
  }

  lemma SummaryBlock(src: Source, decides: string -> bool, boilerplate: string -> bool)
    requires WellFormed(src)
    ensures Blocks(src, decides, boilerplate)[Rank(Summary)].spans == SummarySpans(src, boilerplate)
  {
    LaterBlockAt(src, decides, boilerplate, Rank(Summary));
  }

  /** The block a span of a signal field comes from. */
  lemma SignalFieldOrigin(src: Source, decides: string -> bool, boilerplate: string -> bool, s: Span)
    requires WellFormed(src) && s.field in SIGNAL_FIELDS
    ensures s in Evidence(src, decides, boilerplate) <==>
            if s.field == Summary then s in SummarySpans(src, boilerplate) else s in SpansOf(src, s.field)
  {
    EvidenceMember(src, decides, boilerplate, s);
    if s.field == Summary {
      SummaryBlock(src, decides, boilerplate);
    } else {
      PatternBlockSound(src, decides, boilerplate, Rank(s.field));
    }
  }

  /** What an excerpt with its offsets says of the text; `padded` iff the excerpt is not trimmed. */
  ghost predicate Quotes(text: string, signal: Signal, padded: bool) {
    && signal.start < signal.end <= |text|
    && Strip(text[signal.start..signal.end]) == Strip(signal.excerpt)
    && (Strip(text[signal.start..signal.end]) == signal.excerpt <==> !padded)
  }

  lemma SummaryQuotes(text: string, summary: string, s: Span, padded: bool)
    requires s in SpansOfSummary(text, summary) && (Strip(summary) == summary <==> !padded)
    ensures Quotes(text, Signal(s.sourceText, s.start, s.end), padded)
  {
    assert OccursAt(text, summary, s.start) && text[s.start..s.end] == summary;
  }

  lemma PatternQuotes(src: Source, f: SpanField, s: Span)
    requires WellFormed(src) && f in SIGNAL_PATTERNS && s in SpansOf(src, f)
    ensures Quotes(src.text, Signal(s.sourceText, s.start, s.end), false)
  {
    PatternSpansGrounded(src, f, s);
    StripTwice(src.text[s.start..s.end]);
  }

  /** The signal's excerpt is not trimmed: it is a summary cut right after a space. */
  ghost predicate Padded(src: Source, boilerplate: string -> bool, s: Span) {
    s.field == Summary && CutAtSpace(SummaryBasis(src.text, src.sentences, boilerplate))
  }

  /**
   A signal quotes one of the evidence spans, at a non-empty stretch of the stored text with the
   same trimmed characters.  The excerpt itself is trimmed except when it is a summary cut right
   after a space.
   */
  lemma SignalGrounded(src: Source, decides: string -> bool, boilerplate: string -> bool,
                       recordType: string, changeTypes: seq<string>) returns (s: Span)
    requires WellFormed(src) && SignalOf(Evidence(src, decides, boilerplate), recordType, changeTypes).Some?
    ensures s in Evidence(src, decides, boilerplate) && s.field in SIGNAL_FIELDS
    ensures SignalOf(Evidence(src, decides, boilerplate), recordType, changeTypes) == Some(Signal(s.sourceText, s.start, s.end))
    ensures Quotes(src.text, Signal(s.sourceText, s.start, s.end), Padded(src, boilerplate, s))
  {
    s := FirstIn(Evidence(src, decides, boilerplate), SIGNAL_FIELDS).value;
    SignalFieldOrigin(src, decides, boilerplate, s);
    if s.field == Summary {
      SummaryTrimmedIff(src, boilerplate);
      SummaryQuotes(src.text, SummaryOf(src, boilerplate), s, Padded(src, boilerplate, s));
    } else {
      PatternQuotes(src, s.field, s);
    }
  }

  lemma StripTwice(s: string)
    ensures Strip(Strip(s)) == Strip(s)
  {
    if Strip(s) != "" {
      StripEnds(s);
    }
    StripFixedIff(Strip(s));
  }

  lemma SignalFieldNeeded(src: Source, decides: string -> bool, boilerplate: string -> bool, s: Span)
    requires WellFormed(src) && s in Evidence(src, decides, boilerplate) && s.field in SIGNAL_FIELDS
    ensures SummarySpans(src, boilerplate) != [] || exists f :: f in SIGNAL_PATTERNS && MatchesOf(src, f) != []
  {
    SignalFieldOrigin(src, decides, boilerplate, s);
    if s.field != Summary {
      assert MatchesOf(src, s.field) != [];
    }
  }

  lemma SignalFieldFound(src: Source, decides: string -> bool, boilerplate: string -> bool)
    requires WellFormed(src)
    requires SummarySpans(src, boilerplate) != [] || exists f :: f in SIGNAL_PATTERNS && MatchesOf(src, f) != []
    ensures exists s :: s in Evidence(src, decides, boilerplate) && s.field in SIGNAL_FIELDS
  {
    if SummarySpans(src, boilerplate) != [] {
      SignalFieldOrigin(src, decides, boilerplate, SummarySpans(src, boilerplate)[0]);
    } else {
      var f :| f in SIGNAL_PATTERNS && MatchesOf(src, f) != [];
      var s := FirstMatchSpan(src, f);
      SignalFieldOrigin(src, decides, boilerplate, s);
    }
  }

  /** The record types with commercial signals. */
  predicate Commercial(recordType: string) {
    || recordType == "procurement_rfp" || recordType == "contract_award" || recordType == "permit"
    || recordType == "planning_zoning_case" || recordType == "budget_financial_report"
  }

  /** Some action, amount, permit number or case number was matched. */
  predicate SignalMatched(src: Source) {
    || MatchesOf(src, Actions) != [] || MatchesOf(src, MoneyAmounts) != []
    || MatchesOf(src, PermitNumbers) != [] || MatchesOf(src, CaseNumbers) != []
  }

  lemma SignalMatchedIff(src: Source)
    ensures SignalMatched(src) <==> exists f :: f in SIGNAL_PATTERNS && MatchesOf(src, f) != []
  {
    assert Actions in SIGNAL_PATTERNS && MoneyAmounts in SIGNAL_PATTERNS;
    assert PermitNumbers in SIGNAL_PATTERNS && CaseNumbers in SIGNAL_PATTERNS;
  }

  lemma CommercialIff(recordType: string)
    ensures Commercial(recordType) <==> recordType in SIGNAL_TYPES
  {
  }

  lemma SignalFieldsIff(src: Source, decides: string -> bool, boilerplate: string -> bool)
    requires WellFormed(src)
    ensures (exists s :: s in Evidence(src, decides, boilerplate) && s.field in SIGNAL_FIELDS) <==>
            SummarySpans(src, boilerplate) != [] || SignalMatched(src)
  {
    SignalMatchedIff(src);
    if SummarySpans(src, boilerplate) != [] || SignalMatched(src) {
      SignalFieldFound(src, decides, boilerplate);
    } else if s :| s in Evidence(src, decides, boilerplate) && s.field in SIGNAL_FIELDS {
      SignalFieldNeeded(src, decides, boilerplate, s);
      assert false;
    }
  }

  lemma SignalOfIff(evidence: seq<Span>, recordType: string, changeTypes: seq<string>)
    ensures SignalOf(evidence, recordType, changeTypes).Some? <==>
            changeTypes != [] && recordType in SIGNAL_TYPES && exists s :: s in evidence && s.field in SIGNAL_FIELDS
  {
    if s :| s in evidence && s.field in SIGNAL_FIELDS {
      var i :| 0 <= i < |evidence| && evidence[i] == s;
    }
  }

  /** A signal appears iff something changed, the type has signals and a signal field has evidence. */
  lemma SignalIff(src: Source, decides: string -> bool, boilerplate: string -> bool,
                  recordType: string, changeTypes: seq<string>)
    requires WellFormed(src)
    ensures SignalOf(Evidence(src, decides, boilerplate), recordType, changeTypes).Some? <==>
            && changeTypes != [] && Commercial(recordType)
            && (SummarySpans(src, boilerplate) != [] || SignalMatched(src))
  {
    SignalOfIff(Evidence(src, decides, boilerplate), recordType, changeTypes);
    SignalFieldsIff(src, decides, boilerplate);
    CommercialIff(recordType);
  }

  lemma FirstMatchSpan(src: Source, f: SpanField) returns (s: Span)
    requires WellFormed(src) && MatchesOf(src, f) != []
    ensures s in SpansOf(src, f) && s.field == f
  {
    EveryValueListed(AllSpans(src.text, MatchesOf(src, f), f), 0);
    SpansOfSound(src, f);
    assert Sound(Block(f, SpansOf(src, f)));
    s := SpansOf(src, f)[0];
  }

  /* ---- Where the documentation and the code part ---- */

  lemma TwoWords(a: string, gap: char, b: string)
    requires a != "" && b != "" && Solid(a) && Solid(b) && IsSpace(gap)
    ensures Normalized(a + [gap] + b) == a + " " + b
  {
    WordsAppend(a, gap, b);
    SolidIsOneWord(a);
    SolidIsOneWord(b);
    assert Words(a + [gap] + b) == [a, b] && [a, b][1..] == [b];
    assert Join([a, b], ' ') == a + [' '] + Join([b], ' ');
  }

  /** A long first word followed by another: the signal's excerpt ends with a space. */
  lemma ExcerptCanEndInSpace(a: string, b: string, title: string, boilerplate: string -> bool, decides: string -> bool)
    requires |a| == LONGEST_SUMMARY - 1 && b != "" && Solid(a) && Solid(b)
    ensures var src := Source(a + " " + b, title, map[], [a + " " + b], None, false);
      SignalOf(Evidence(src, decides, boilerplate), "permit", ["new_record"]) == Some(Signal(a + " ", 0, LONGEST_SUMMARY))
  {
    var src := Source(a + " " + b, title, map[], [a + " " + b], None, false);
    TwoWords(a, ' ', b);
    OneSentenceBasis(src.text, boilerplate);
    assert Cut(src.text) == a + " ";
    assert OccursAt(src.text, a + " ", 0);
    assert SummarySpans(src, boilerplate) == [Span(Summary, a + " ", a + " ", 0, LONGEST_SUMMARY)];
    SignalIff(src, decides, boilerplate, "permit", ["new_record"]);
    var item := FirstIn(Evidence(src, decides, boilerplate), SIGNAL_FIELDS).value;
    SignalFieldOrigin(src, decides, boilerplate, item);
  }

  lemma OneSentenceBasis(text: string, boilerplate: string -> bool)
    ensures SummaryBasis(text, [text], boilerplate) == Normalized(text)
  {
    assert [text][1..] == [];
  }

  /** Two short lines: the summary joins them with a space, and has no span in the text. */
  lemma SummaryCanLackSpan(a: string, b: string, title: string, boilerplate: string -> bool)
    requires a != "" && b != "" && Solid(a) && Solid(b) && |a| < SHORTEST_SUMMARY && |b| < SHORTEST_SUMMARY
    ensures var src := Source(a + "\n" + b, title, map[], [a, b], None, false);
      SummaryOf(src, boilerplate) == a + " " + b && SummarySpans(src, boilerplate) == []
  {
    var src := Source(a + "\n" + b, title, map[], [a, b], None, false);
    TwoWords(a, '\n', b);
    SolidIsOneWord(a);
    SolidIsOneWord(b);
    assert Normalized(a) == a && Normalized(b) == b;
    ShortSentences(src.text, a, b, boilerplate);
    var summary := a + " " + b;
    assert SummaryOf(src, boilerplate) == summary;
    assert !OccursAt(src.text, summary, 0) by {
      assert summary[|a|] == ' ' && src.text[|a|] == '\n';
    }
  }

  lemma ShortSentences(text: string, a: string, b: string, boilerplate: string -> bool)
    requires |Normalized(a)| < SHORTEST_SUMMARY && |Normalized(b)| < SHORTEST_SUMMARY
    ensures SummaryBasis(text, [a, b], boilerplate) == Normalized(text)
  {
    assert [a, b][1..] == [b] && [b][1..] == [];
    assert SummaryBasis(text, [b], boilerplate) == SummaryBasis(text, [], boilerplate);
  }
}
