/**
 Answers bound to citations: an untrusted draft of claims is accepted as a whole or not at all,
 and scored by how far its citations reach.
 */
module GroundedAnswers {
  import opened Options
  import opened Strings
  import opened Distinct

  datatype Hit = Hit(document: nat, title: string, sourceName: string)

  datatype Claim = Claim(text: string, citationIds: seq<string>)

  datatype Policy = Policy(maxClaims: int, minCitations: int, targetSources: int, high: real, medium: real)

  /** The ranges the settings enforce. */
  predicate Configured(p: Policy) {
    && 1 <= p.maxClaims <= 10 && 1 <= p.minCitations <= 5 && 1 <= p.targetSources <= 10
    && 0.0 < p.medium < p.high <= 1.0
  }

  datatype Level = Low | Medium | High

  datatype Reason = NoRecords | InvalidDraft | NotEnoughEvidence

  // The score in hundredths.
  datatype Answer =
    | Answered(claims: seq<Claim>, citations: seq<string>, score: int, level: Level)
    | Insufficient(reason: Reason)

  /* ---- Citation ids ---- */

  const DIGITS := "0123456789"

  function Decimal(n: nat): (s: string)
    ensures s != "" && (|s| == 1 <==> n < 10)
  {
    if n < 10 then [DIGITS[n]] else Decimal(n / 10) + [DIGITS[n % 10]]
  }

  function CitationId(number: nat): string {
    "C" + Decimal(number)
  }

  function EvidenceIds(n: nat): seq<string> {
    seq(n, i requires 0 <= i < n => CitationId(i + 1))
  }

  /** The number a decimal numeral stands for. */
  function Value(s: string): int {
    if s == "" then 0 else 10 * Value(s[..|s| - 1]) + (s[|s| - 1] as int - '0' as int)
  }

  predicate IsNumeral(s: string) {
    s != "" && (forall i :: 0 <= i < |s| ==> '0' <= s[i] <= '9') && (s[0] == '0' ==> |s| == 1)
  }

  lemma DigitValue(d: nat)
    requires d < 10
    ensures DIGITS[d] as int - '0' as int == d && '0' <= DIGITS[d] <= '9' && (DIGITS[d] == '0' ==> d == 0)
  {
  }

  lemma {:induction false} DecimalReads(n: nat)
    ensures IsNumeral(Decimal(n)) && Value(Decimal(n)) == n && (n > 0 ==> Decimal(n)[0] != '0')
  {
    DigitValue(n % 10);
    if n < 10 {
      assert Decimal(n) == [DIGITS[n]] && Decimal(n)[..0] == "";
      assert Value("") == 0;
    } else {
      DecimalReads(n / 10);
      assert Decimal(n)[..|Decimal(n)| - 1] == Decimal(n / 10);
    }
  }

  /** Evidence number i + 1 has the id C followed by that number in decimal. */
  lemma EvidenceIdReads(n: nat, i: nat)
    requires i < n
    ensures |EvidenceIds(n)| == n
    ensures var id := EvidenceIds(n)[i]; |id| > 1 && id[0] == 'C' && IsNumeral(id[1..]) && Value(id[1..]) == i + 1
  {
    DecimalReads(i + 1);
    assert EvidenceIds(n)[i][1..] == Decimal(i + 1);
  }

  lemma DigitsDiffer(a: nat, b: nat)
    requires a < 10 && b < 10 && DIGITS[a] == DIGITS[b]
    ensures a == b
  {
  }

  lemma {:induction false} DecimalInjective(a: nat, b: nat)
    requires Decimal(a) == Decimal(b)
    ensures a == b
    decreases a
  {
    var (x, y) := (Decimal(a), Decimal(b));
    if a < 10 {
      DigitsDiffer(a, b);
    } else {
      assert x[..|x| - 1] == Decimal(a / 10) && y[..|y| - 1] == Decimal(b / 10);
      assert x[|x| - 1] == DIGITS[a % 10] && y[|y| - 1] == DIGITS[b % 10];
      DecimalInjective(a / 10, b / 10);
      DigitsDiffer(a % 10, b % 10);
    }
  }

  lemma CitationIdsDiffer(a: nat, b: nat)
    requires a != b
    ensures CitationId(a) != CitationId(b)
  {
    if CitationId(a) == CitationId(b) {
      assert CitationId(a)[1..] == Decimal(a) && CitationId(b)[1..] == Decimal(b);
      DecimalInjective(a, b);
    }
  }

  lemma EvidenceIdsDiffer(n: nat)
    ensures NoRepeats(EvidenceIds(n))
  {
    forall i, j | 0 <= i < j < n
      ensures EvidenceIds(n)[i] != EvidenceIds(n)[j]
    {
      CitationIdsDiffer(i + 1, j + 1);
    }
  }

  /* ---- Claims ---- */

  function Normalized(c: Claim): Claim {
    Claim(Join(Words(c.text), ' '), Firsts(c.citationIds))
  }

  predicate Accepts(p: Policy, ids: seq<string>, c: Claim) {
    && c.text != "" && |c.citationIds| >= p.minCitations
    && forall id :: id in c.citationIds ==> id in ids
  }

  function NormalizedAll(claims: seq<Claim>): seq<Claim> {
    seq(|claims|, i requires 0 <= i < |claims| => Normalized(claims[i]))
  }

  function Validated(p: Policy, ids: seq<string>, claims: seq<Claim>): seq<Claim> {
    if claims == [] || |claims| > p.maxClaims then []
    else if forall i :: 0 <= i < |claims| ==> Accepts(p, ids, Normalized(claims[i])) then NormalizedAll(claims)
    else []
  }

  method ValidateClaims(p: Policy, ids: seq<string>, claims: seq<Claim>) returns (validated: seq<Claim>)
    ensures validated == Validated(p, ids, claims)
  {
    if claims == [] || |claims| > p.maxClaims {
      return [];
    }
    validated := [];
    for i := 0 to |claims|
      invariant |validated| == i && forall j :: 0 <= j < i ==> validated[j] == Normalized(claims[j])
      invariant forall j :: 0 <= j < i ==> Accepts(p, ids, Normalized(claims[j]))
    {
      var claim := Normalized(claims[i]);
      if claim.text == "" || |claim.citationIds| < p.minCitations || exists id :: id in claim.citationIds && id !in ids {
        assert !Accepts(p, ids, Normalized(claims[i]));
        return [];
      }
      validated := validated + [claim];
    }
    assert validated == NormalizedAll(claims);
  }

  /* ---- The score ---- */

  function RoundHalfEven(x: real): int {
    var n := x.Floor;
    if x - n as real < 0.5 || (x - n as real == 0.5 && n % 2 == 0) then n else n + 1
  }

  function Ratio(part: nat, whole: nat): real
    requires whole > 0
  {
    if part >= whole then 1.0 else part as real / whole as real
  }

  function Score(claims: nat, citations: nat, sources: nat, target: nat): int
    requires claims > 0 && target > 0
  {
    RoundHalfEven(100.0 * (1.0 + Ratio(citations, claims) + Ratio(sources, target)) / 3.0)
  }

  function LevelOf(p: Policy, score: int): Level {
    if score as real / 100.0 >= p.high then High else if score as real / 100.0 >= p.medium then Medium else Low
  }

  lemma RatioBounds(part: nat, whole: nat)
    requires 0 < part && 0 < whole <= 10
    ensures 0.1 <= Ratio(part, whole) <= 1.0
    ensures part < whole ==> Ratio(part, whole) <= 0.9
  {
    if part < whole {
      assert whole == 2 || whole == 3 || whole == 4 || whole == 5 || whole == 6 || whole == 7 || whole == 8 || whole == 9 || whole == 10;
    }
  }

  /** Under the configured ranges a score is at least 0.40, and 1.00 iff nothing is missing. */
  lemma ScoreRange(claims: nat, citations: nat, sources: nat, target: nat)
    requires 1 <= claims <= 10 && 1 <= target <= 10 && citations > 0 && sources > 0
    ensures 40 <= Score(claims, citations, sources, target) <= 100
    ensures Score(claims, citations, sources, target) == 100 <==> citations >= claims && sources >= target
  {
    RatioBounds(citations, claims);
    RatioBounds(sources, target);
  }

  /* ---- Answers ---- */

  function SourceOf(h: Hit): string {
    if h.sourceName != "" then h.sourceName else h.title
  }

  function CitedIds(claims: seq<Claim>): set<string> {
    set c, id | c in claims && id in c.citationIds :: id
  }

  function Sources(hits: seq<Hit>, cited: set<string>): set<string> {
    set i | 0 <= i < |hits| && EvidenceIds(|hits|)[i] in cited :: SourceOf(hits[i])
  }

  function AnswerOf(p: Policy, hits: seq<Hit>, draft: Option<seq<Claim>>): Answer
    requires Configured(p)
  {
    if hits == [] then Insufficient(NoRecords)
    else if draft == None then Insufficient(InvalidDraft)
    else
      var claims := Validated(p, EvidenceIds(|hits|), draft.value);
      if claims == [] then Insufficient(NotEnoughEvidence)
      else
        var citations := Restrict(EvidenceIds(|hits|), CitedIds(claims));
        var score := Score(|claims|, |citations|, |Sources(hits, CitedIds(claims))|, p.targetSources);
        Answered(claims, citations, score, LevelOf(p, score))
  }

  method GroundedAnswer(p: Policy, hits: seq<Hit>, draft: Option<seq<Claim>>) returns (a: Answer)
    requires Configured(p)
    ensures a == AnswerOf(p, hits, draft)
  {
    if hits == [] {
      return Insufficient(NoRecords);
    }
    if draft == None {
      return Insufficient(InvalidDraft);
    }
    var claims := ValidateClaims(p, EvidenceIds(|hits|), draft.value);
    if claims == [] {
      return Insufficient(NotEnoughEvidence);
    }
    var citations := Restrict(EvidenceIds(|hits|), CitedIds(claims));
    var score := Score(|claims|, |citations|, |Sources(hits, CitedIds(claims))|, p.targetSources);
    a := Answered(claims, citations, score, LevelOf(p, score));
  }

  /* ---- What an answer promises ---- */

  /** A drafted claim with a word, enough different citations and none outside the evidence. */
  ghost predicate Supported(p: Policy, hits: seq<Hit>, c: Claim) {
    && !AllSpace(c.text)
    && |Elements(c.citationIds)| >= p.minCitations
    && Elements(c.citationIds) <= Elements(EvidenceIds(|hits|))
  }

  lemma {:induction false} NoWordsIff(s: string)
    ensures Words(s) == [] <==> AllSpace(s)
  {
    if s != "" {
      NoWordsIff(s[1..]);
      assert AllSpace(s) <==> IsSpace(s[0]) && AllSpace(s[1..]) by {
        assert s == [s[0]] + s[1..];
      }
    }
  }

  lemma SupportedIffAccepted(p: Policy, hits: seq<Hit>, c: Claim)
    ensures Accepts(p, EvidenceIds(|hits|), Normalized(c)) <==> Supported(p, hits, c)
  {
    FirstsCount(c.citationIds);
    NoWordsIff(c.text);
    WordsAreSolid(c.text);
    if Words(c.text) != [] {
      JoinedEnds(Words(c.text));
    }
    assert Normalized(c).text != "" <==> !AllSpace(c.text);
    var (kept, ids) := (Normalized(c).citationIds, EvidenceIds(|hits|));
    assert (forall id :: id in kept ==> id in ids) <==> Elements(c.citationIds) <= Elements(ids) by {
      assert forall id :: id in kept <==> id in Elements(c.citationIds);
    }
  }

  /** Why an answer is refused: no records, no valid draft, or not enough evidence, in this order. */
  lemma RefusalReasons(p: Policy, hits: seq<Hit>, draft: Option<seq<Claim>>)
    requires Configured(p) && !AnswerOf(p, hits, draft).Answered?
    ensures AnswerOf(p, hits, draft).reason ==
            if hits == [] then NoRecords else if draft == None then InvalidDraft else NotEnoughEvidence
  {
  }

  /** An answer is given iff records were found and every claim of a draft of allowed size is supported. */
  lemma AnsweredIff(p: Policy, hits: seq<Hit>, draft: Option<seq<Claim>>)
    requires Configured(p)
    ensures AnswerOf(p, hits, draft).Answered? <==>
            && hits != [] && draft.Some? && 1 <= |draft.value| <= p.maxClaims
            && forall i :: 0 <= i < |draft.value| ==> Supported(p, hits, draft.value[i])
  {
    if draft.Some? {
      forall i | 0 <= i < |draft.value|
        ensures Accepts(p, EvidenceIds(|hits|), Normalized(draft.value[i])) <==> Supported(p, hits, draft.value[i])
      {
        SupportedIffAccepted(p, hits, draft.value[i]);
      }
    }
  }

  ghost predicate KeepsClaim(p: Policy, drafted: Claim, shown: Claim) {
    && shown.text != "" && shown.text == Join(Words(drafted.text), ' ')
    && NoRepeats(shown.citationIds) && Elements(shown.citationIds) == Elements(drafted.citationIds)
    && |shown.citationIds| >= p.minCitations
  }

  /** An answer shows every drafted claim, in order, with its words and its different citations. */
  lemma AnswerKeepsClaims(p: Policy, hits: seq<Hit>, draft: Option<seq<Claim>>)
    requires Configured(p)
    ensures var a := AnswerOf(p, hits, draft);
      a.Answered? ==>
        && draft.Some? && 1 <= |a.claims| == |draft.value| <= p.maxClaims
        && forall i :: 0 <= i < |a.claims| ==> KeepsClaim(p, draft.value[i], a.claims[i])
  {
    var a := AnswerOf(p, hits, draft);
    forall i | a.Answered? && 0 <= i < |a.claims|
      ensures KeepsClaim(p, draft.value[i], a.claims[i])
    {
      assert a.claims[i] == Normalized(draft.value[i]);
      FirstsNoRepeats(draft.value[i].citationIds);
      assert Elements(Firsts(draft.value[i].citationIds)) == Elements(draft.value[i].citationIds);
    }
  }

  /** The citation list is exactly the ids the claims use, in evidence order, without repeats. */
  lemma CitationsAreThoseUsed(p: Policy, hits: seq<Hit>, draft: Option<seq<Claim>>, id: string)
    requires Configured(p)
    ensures var a := AnswerOf(p, hits, draft);
      a.Answered? ==>
        && (id in a.citations <==> exists i :: 0 <= i < |a.claims| && id in a.claims[i].citationIds)
        && NoRepeats(a.citations) && Subsequence(a.citations, EvidenceIds(|hits|))
  {
    var (a, ids) := (AnswerOf(p, hits, draft), EvidenceIds(|hits|));
    if a.Answered? {
      RestrictIsSubsequence(ids, CitedIds(a.claims));
      EvidenceIdsDiffer(|hits|);
      RestrictNoRepeats(ids, CitedIds(a.claims));
      if i :| 0 <= i < |a.claims| && id in a.claims[i].citationIds {
        assert Accepts(p, ids, Normalized(draft.value[i])) && a.claims[i] in a.claims;
      }
    }
  }

  /** A validated claim cites something, and only known ids. */
  lemma ValidatedCites(p: Policy, ids: seq<string>, claims: seq<Claim>)
    requires Configured(p) && Validated(p, ids, claims) != []
    ensures var first := Validated(p, ids, claims)[0];
      first.citationIds != [] && first.citationIds[0] in first.citationIds && first.citationIds[0] in ids
  {
    assert Validated(p, ids, claims)[0] == Normalized(claims[0]);
    assert Accepts(p, ids, Normalized(claims[0]));
  }

  lemma FirstIsCited(claims: seq<Claim>, id: string)
    requires claims != [] && id in claims[0].citationIds
    ensures id in CitedIds(claims)
  {
    assert claims[0] in claims;
  }

  lemma SomethingCited(p: Policy, hits: seq<Hit>, draft: Option<seq<Claim>>) returns (i: nat)
    requires Configured(p) && AnswerOf(p, hits, draft).Answered?
    ensures i < |hits| && EvidenceIds(|hits|)[i] in AnswerOf(p, hits, draft).citations
  {
    var (a, ids) := (AnswerOf(p, hits, draft), EvidenceIds(|hits|));
    ValidatedCites(p, ids, draft.value);
    var id := a.claims[0].citationIds[0];
    FirstIsCited(a.claims, id);
    i :| 0 <= i < |ids| && ids[i] == id;
  }

  lemma SourcesOfCitations(hits: seq<Hit>, cited: set<string>)
    ensures Sources(hits, Elements(Restrict(EvidenceIds(|hits|), cited))) == Sources(hits, cited)
  {
    var ids := EvidenceIds(|hits|);
    var shown := Elements(Restrict(ids, cited));
    forall i | 0 <= i < |hits|
      ensures ids[i] in shown <==> ids[i] in cited
    {
      assert ids[i] in ids;
    }
    assert Sources(hits, shown) <= Sources(hits, cited);
    assert Sources(hits, cited) <= Sources(hits, shown);
  }

  lemma LevelBounds(p: Policy, score: int)
    requires Configured(p)
    ensures LevelOf(p, score) == High <==> score as real >= 100.0 * p.high
    ensures LevelOf(p, score) == Low <==> score as real < 100.0 * p.medium
  {
  }

  lemma AnswerParts(p: Policy, hits: seq<Hit>, draft: Option<seq<Claim>>)
    requires Configured(p)
    ensures var a := AnswerOf(p, hits, draft);
      a.Answered? ==>
        && 1 <= |a.claims| <= p.maxClaims
        && a.citations == Restrict(EvidenceIds(|hits|), CitedIds(a.claims))
        && a.score == Score(|a.claims|, |a.citations|, |Sources(hits, CitedIds(a.claims))|, p.targetSources)
        && a.level == LevelOf(p, a.score)
  {
  }

  /**
   The score lies between 0.40 and 1.00, is 1.00 iff citations and sources suffice, and its level
   is read off the two thresholds.
   */
  lemma AnswerScore(p: Policy, hits: seq<Hit>, draft: Option<seq<Claim>>)
    requires Configured(p)
    ensures var a := AnswerOf(p, hits, draft);
      a.Answered? ==>
        && 40 <= a.score <= 100
        && (a.score == 100 <==>
            |a.citations| >= |a.claims| && |Sources(hits, Elements(a.citations))| >= p.targetSources)
        && (a.level == High <==> a.score as real >= 100.0 * p.high)
        && (a.level == Low <==> a.score as real < 100.0 * p.medium)
  {
    var a := AnswerOf(p, hits, draft);
    if a.Answered? {
      AnswerParts(p, hits, draft);
      LevelBounds(p, a.score);
      var i := SomethingCited(p, hits, draft);
      CitedSourceCounts(hits, a.claims, a.citations, i);
      ScoreRange(|a.claims|, |a.citations|, |Sources(hits, CitedIds(a.claims))|, p.targetSources);
    }
  }

  lemma CitedSourceCounts(hits: seq<Hit>, claims: seq<Claim>, citations: seq<string>, i: nat)
    requires citations == Restrict(EvidenceIds(|hits|), CitedIds(claims))
    requires i < |hits| && EvidenceIds(|hits|)[i] in citations
    ensures Sources(hits, Elements(citations)) == Sources(hits, CitedIds(claims))
    ensures |citations| > 0 && |Sources(hits, CitedIds(claims))| > 0
  {
    SourcesOfCitations(hits, CitedIds(claims));
    assert SourceOf(hits[i]) in Sources(hits, CitedIds(claims));
  }

  /* ---- What the score counts ---- */

  /** The cited documents are counted by source name, or by title where there is none. */
  lemma SourcesMeaning(hits: seq<Hit>, cited: set<string>, x: string)
    ensures x in Sources(hits, cited) <==>
            exists i :: 0 <= i < |hits| && EvidenceIds(|hits|)[i] in cited
                        && (hits[i].sourceName == x || (hits[i].sourceName == "" && hits[i].title == x))
                        && (hits[i].sourceName == "" ==> hits[i].title == x)
  {
  }

  /** The share of `whole` that `part` covers, at most all of it. */
  ghost predicate IsShare(share: real, part: nat, whole: nat) {
    share * whole as real == Min(part, whole) as real
  }

  /** `n` is `x` rounded to a whole number, the even one of two equally near. */
  ghost predicate IsRounded(n: int, x: real) {
    && n as real - 0.5 <= x <= n as real + 0.5
    && (x == n as real - 0.5 || x == n as real + 0.5 ==> n % 2 == 0)
  }

  lemma RoundHalfEvenRounds(x: real)
    ensures IsRounded(RoundHalfEven(x), x)
  {
    var n := x.Floor;
    assert n as real <= x < n as real + 1.0;
    if x == n as real + 0.5 {
      assert RoundHalfEven(x) % 2 == 0;
    }
  }

  lemma RatioIsShare(part: nat, whole: nat)
    requires whole > 0
    ensures IsShare(Ratio(part, whole), part, whole)
  {
  }

  /**
   The score in hundredths is a third of one, the share of claims that citations cover, and the share
   of the target that sources cover, rounded.
   */
  lemma ScoreMeaning(claims: nat, citations: nat, sources: nat, target: nat)
    requires claims > 0 && target > 0
    ensures exists depth, diversity ::
              && IsShare(depth, citations, claims) && IsShare(diversity, sources, target)
              && IsRounded(Score(claims, citations, sources, target), 100.0 * (1.0 + depth + diversity) / 3.0)
  {
    var (depth, diversity) := (Ratio(citations, claims), Ratio(sources, target));
    RatioIsShare(citations, claims);
    RatioIsShare(sources, target);
    RoundHalfEvenRounds(100.0 * (1.0 + depth + diversity) / 3.0);
    assert IsShare(depth, citations, claims) && IsShare(diversity, sources, target);
  }

  /** The score of an answer counts its own claims and citations, and the sources of its citations. */
  lemma AnswerScoreMeaning(p: Policy, hits: seq<Hit>, draft: Option<seq<Claim>>)
    requires Configured(p)
    ensures var a := AnswerOf(p, hits, draft);
      a.Answered? ==>
        exists depth, diversity ::
          && IsShare(depth, |a.citations|, |a.claims|)
          && IsShare(diversity, |Sources(hits, Elements(a.citations))|, p.targetSources)
          && IsRounded(a.score, 100.0 * (1.0 + depth + diversity) / 3.0)
  {
    var a := AnswerOf(p, hits, draft);
    if a.Answered? {
      AnswerParts(p, hits, draft);
      SourcesOfCitations(hits, CitedIds(a.claims));
      ScoreMeaning(|a.claims|, |a.citations|, |Sources(hits, Elements(a.citations))|, p.targetSources);
    }
  }
}
