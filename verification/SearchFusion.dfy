/**
 Hybrid search: reciprocal-rank fusion of the keyword and semantic result lists, truncation,
 and the fallback to keyword results. Scores are exact; rounding is not modelled.
 */
module SearchFusion {
  import opened Options
  import opened StableSort

  type Id = nat

  datatype MatchKind = Keyword | Semantic | Hybrid

  datatype Hit = Hit(document: Id, publishedAt: Option<int>, excerpt: string, score: real, kind: MatchKind)

  const RANK_CONSTANT := 60

  function Reciprocal(rank: nat): real {
    1.0 / (RANK_CONSTANT + rank) as real
  }

  /** Rank r counts for one over sixty plus r. */
  lemma ReciprocalRank(rank: nat)
    ensures Reciprocal(rank) * (60 + rank) as real == 1.0
  {
  }

  /* ---- The fused ranking, from the two lists alone ---- */

  /** The sum of the reciprocal ranks of every occurrence of a document. */
  function RankScore(results: seq<Hit>, d: Id): real {
    if results == [] then 0.0 else
    RankScore(results[..|results| - 1], d)
    + (if results[|results| - 1].document == d then Reciprocal(|results|) else 0.0)
  }

  function FusedScore(keyword: seq<Hit>, semantic: seq<Hit>, d: Id): real {
    RankScore(keyword, d) + RankScore(semantic, d)
  }

  /** The documents of a list in order of first appearance, after those already known. */
  function Appearing(known: seq<Id>, results: seq<Hit>): seq<Id> {
    if results == [] then known else
    var before := Appearing(known, results[..|results| - 1]);
    if results[|results| - 1].document in before then before else before + [results[|results| - 1].document]
  }

  function Documents(keyword: seq<Hit>, semantic: seq<Hit>): seq<Id> {
    Appearing(Appearing([], keyword), semantic)
  }

  predicate Occurs(results: seq<Hit>, d: Id) {
    exists i :: 0 <= i < |results| && results[i].document == d
  }

  /** The hit shown for a document: its last keyword hit, or else its first semantic hit. */
  ghost predicate Represents(hit: Hit, keyword: seq<Hit>, semantic: seq<Hit>) {
    var d := hit.document;
    if Occurs(keyword, d)
    then exists i :: 0 <= i < |keyword| && keyword[i].document == d && SameRecord(hit, keyword[i])
                     && forall j :: i < j < |keyword| ==> keyword[j].document != d
    else exists i :: 0 <= i < |semantic| && semantic[i].document == d && SameRecord(hit, semantic[i])
                     && forall j :: 0 <= j < i ==> semantic[j].document != d
  }

  predicate SameRecord(a: Hit, b: Hit) {
    a.document == b.document && a.publishedAt == b.publishedAt && a.excerpt == b.excerpt
  }

  /** `a` comes before `b`: a higher fused score, or the same score and an earlier first appearance. */
  predicate Beats(keyword: seq<Hit>, semantic: seq<Hit>, a: Id, b: Id) {
    var (x, y) := (FusedScore(keyword, semantic, a), FusedScore(keyword, semantic, b));
    x > y || (x == y && Position(Documents(keyword, semantic), a) < Position(Documents(keyword, semantic), b))
  }

  /**
   A fused list: `limit` distinct documents or all there are, each with its exact score and
   its own record, in rank order, and nothing left out beats anything kept.
   */
  ghost predicate IsFusion(out: seq<Hit>, keyword: seq<Hit>, semantic: seq<Hit>, limit: nat) {
    && |out| == Min(limit, |Documents(keyword, semantic)|)
    && (forall i, j :: 0 <= i < j < |out| ==> Beats(keyword, semantic, out[i].document, out[j].document))
    && (forall i :: 0 <= i < |out| ==>
          && (Occurs(keyword, out[i].document) || Occurs(semantic, out[i].document))
          && out[i].score == FusedScore(keyword, semantic, out[i].document)
          && out[i].kind == Hybrid
          && Represents(out[i], keyword, semantic))
    && (forall i, d :: 0 <= i < |out| && (Occurs(keyword, d) || Occurs(semantic, d))
                       && (forall j :: 0 <= j < |out| ==> out[j].document != d) ==>
          Beats(keyword, semantic, out[i].document, d))
  }

  lemma {:induction false} AppearingProperties(known: seq<Id>, results: seq<Hit>)
    requires Distinct(known)
    ensures Distinct(Appearing(known, results))
    ensures known <= Appearing(known, results)
    ensures forall d :: d in Appearing(known, results) <==> d in known || Occurs(results, d)
  {
    if results != [] {
      var before, last := results[..|results| - 1], results[|results| - 1];
      AppearingProperties(known, before);
      forall d
        ensures Occurs(results, d) <==> Occurs(before, d) || last.document == d
      {
        if Occurs(before, d) {
          var i :| 0 <= i < |before| && before[i].document == d;
          assert results[i].document == d;
        }
      }
    }
  }

  lemma DocumentsProperties(keyword: seq<Hit>, semantic: seq<Hit>)
    ensures Distinct(Documents(keyword, semantic))
    ensures forall d :: d in Documents(keyword, semantic) <==> Occurs(keyword, d) || Occurs(semantic, d)
  {
    AppearingProperties([], keyword);
    AppearingProperties(Appearing([], keyword), semantic);
  }

  /* ---- The accumulation loops ---- */

  ghost predicate Representatives(hits: map<Id, Hit>, keyword: seq<Hit>, semantic: seq<Hit>) {
    && (forall d :: d in hits <==> Occurs(keyword, d) || Occurs(semantic, d))
    && (forall d :: d in hits ==> hits[d].document == d && Represents(hits[d], keyword, semantic))
  }

  ghost predicate Scores(scores: map<Id, real>, keyword: seq<Hit>, semantic: seq<Hit>) {
    forall d :: if d in scores then scores[d] == FusedScore(keyword, semantic, d)
                else FusedScore(keyword, semantic, d) == 0.0
  }

  lemma OccursAppend(results: seq<Hit>, hit: Hit)
    ensures forall d :: Occurs(results + [hit], d) <==> Occurs(results, d) || hit.document == d
  {
    assert (results + [hit])[|results|] == hit;
    forall d | Occurs(results, d)
      ensures Occurs(results + [hit], d)
    {
      var i :| 0 <= i < |results| && results[i].document == d;
      assert (results + [hit])[i].document == d;
    }
  }

  lemma AppendHit(known: seq<Id>, results: seq<Hit>, hit: Hit)
    ensures Appearing(known, results + [hit]) ==
            var before := Appearing(known, results);
            if hit.document in before then before else before + [hit.document]
    ensures forall d ::
              RankScore(results + [hit], d)
              == RankScore(results, d) + (if hit.document == d then Reciprocal(|results| + 1) else 0.0)
  {
    var all := results + [hit];
    assert all[..|all| - 1] == results;
  }

  lemma KeywordRepresentatives(hits: map<Id, Hit>, keyword: seq<Hit>, hit: Hit)
    requires Representatives(hits, keyword, [])
    ensures Representatives(hits[hit.document := hit], keyword + [hit], [])
  {
    OccursAppend(keyword, hit);
    var all, hits' := keyword + [hit], hits[hit.document := hit];
    forall d | d in hits'
      ensures hits'[d].document == d && Represents(hits'[d], all, [])
    {
      if d == hit.document {
        assert all[|keyword|] == hit;
      } else {
        assert Represents(hits[d], keyword, []);
        var i :| 0 <= i < |keyword| && keyword[i].document == d && SameRecord(hits[d], keyword[i])
                 && forall j :: i < j < |keyword| ==> keyword[j].document != d;
        assert all[i] == keyword[i];
        forall j | i < j < |all|
          ensures all[j].document != d
        {
        }
      }
    }
  }

  lemma SemanticRepresentatives(hits: map<Id, Hit>, keyword: seq<Hit>, semantic: seq<Hit>, hit: Hit)
    requires Representatives(hits, keyword, semantic)
    ensures Representatives(
              if hit.document in hits then hits else hits[hit.document := hit], keyword, semantic + [hit])
  {
    OccursAppend(semantic, hit);
    var all := semantic + [hit];
    var hits' := if hit.document in hits then hits else hits[hit.document := hit];
    forall d | d in hits'
      ensures hits'[d].document == d && Represents(hits'[d], keyword, all)
    {
      if d in hits {
        assert Represents(hits[d], keyword, semantic);
        if !Occurs(keyword, d) {
          var i :| 0 <= i < |semantic| && semantic[i].document == d && SameRecord(hits[d], semantic[i])
                   && forall j :: 0 <= j < i ==> semantic[j].document != d;
          assert all[i] == semantic[i];
          assert forall j :: 0 <= j < i ==> all[j] == semantic[j];
        }
      } else {
        assert all[|semantic|] == hit;
        assert forall j :: 0 <= j < |semantic| ==> all[j] == semantic[j];
        assert forall j :: 0 <= j < |semantic| ==> semantic[j].document != d by {
          if exists j :: 0 <= j < |semantic| && semantic[j].document == d {
            assert Occurs(semantic, d);
          }
        }
      }
    }
  }

  /** The dictionaries of `_fuse`; `order` is the insertion order of the score dictionary. */
  ghost predicate Tallied(order: seq<Id>, scores: map<Id, real>, keyword: seq<Hit>, semantic: seq<Hit>) {
    && order == Documents(keyword, semantic)
    && (forall d :: d in scores <==> d in order)
    && Scores(scores, keyword, semantic)
  }

  lemma KeywordTallied(order: seq<Id>, scores: map<Id, real>, keyword: seq<Hit>, hit: Hit)
    requires Tallied(order, scores, keyword, [])
    ensures var d := hit.document;
      Tallied(if d in order then order else order + [d],
              scores[d := (if d in scores then scores[d] else 0.0) + Reciprocal(|keyword| + 1)], keyword + [hit], [])
  {
    AppendHit([], keyword, hit);
  }

  lemma SemanticTallied(order: seq<Id>, scores: map<Id, real>, keyword: seq<Hit>, semantic: seq<Hit>, hit: Hit)
    requires Tallied(order, scores, keyword, semantic)
    ensures var d := hit.document;
      Tallied(if d in order then order else order + [d],
              scores[d := (if d in scores then scores[d] else 0.0) + Reciprocal(|semantic| + 1)], keyword, semantic + [hit])
  {
    AppendHit(Appearing([], keyword), semantic, hit);
  }

  function OrderWith(order: seq<Id>, d: Id): seq<Id> {
    if d in order then order else order + [d]
  }

  function ScoresWith(scores: map<Id, real>, d: Id, rank: nat): map<Id, real>
    requires rank >= 1
  {
    scores[d := (if d in scores then scores[d] else 0.0) + Reciprocal(rank)]
  }

  lemma KeywordNext(keyword: seq<Hit>, i: nat, order: seq<Id>, scores: map<Id, real>, hits: map<Id, Hit>)
    requires i < |keyword|
    requires Tallied(order, scores, keyword[..i], []) && Representatives(hits, keyword[..i], [])
    ensures var d := keyword[i].document;
      && Tallied(OrderWith(order, d), ScoresWith(scores, d, i + 1), keyword[..i + 1], [])
      && Representatives(hits[d := keyword[i]], keyword[..i + 1], [])
  {
    assert keyword[..i] + [keyword[i]] == keyword[..i + 1];
    KeywordTallied(order, scores, keyword[..i], keyword[i]);
    KeywordRepresentatives(hits, keyword[..i], keyword[i]);
  }

  method AccumulateKeyword(keyword: seq<Hit>)
    returns (order: seq<Id>, scores: map<Id, real>, hits: map<Id, Hit>)
    ensures Tallied(order, scores, keyword, []) && Representatives(hits, keyword, [])
  {
    order, scores, hits := [], map[], map[];
    for i := 0 to |keyword|
      invariant Tallied(order, scores, keyword[..i], []) && Representatives(hits, keyword[..i], [])
    {
      KeywordNext(keyword, i, order, scores, hits);
      order, scores := AddScore(order, scores, keyword[i].document, i + 1);
      hits := hits[keyword[i].document := keyword[i]];
    }
    assert keyword[..|keyword|] == keyword;
  }

  lemma SemanticNext(
    keyword: seq<Hit>, semantic: seq<Hit>, i: nat, order: seq<Id>, scores: map<Id, real>, hits: map<Id, Hit>)
    requires i < |semantic|
    requires Tallied(order, scores, keyword, semantic[..i]) && Representatives(hits, keyword, semantic[..i])
    ensures var d := semantic[i].document;
      && Tallied(OrderWith(order, d), ScoresWith(scores, d, i + 1), keyword, semantic[..i + 1])
      && Representatives(if d in hits then hits else hits[d := semantic[i]], keyword, semantic[..i + 1])
  {
    assert semantic[..i] + [semantic[i]] == semantic[..i + 1];
    SemanticTallied(order, scores, keyword, semantic[..i], semantic[i]);
    SemanticRepresentatives(hits, keyword, semantic[..i], semantic[i]);
  }

  method AccumulateSemantic(
    keyword: seq<Hit>, semantic: seq<Hit>, order0: seq<Id>, scores0: map<Id, real>, hits0: map<Id, Hit>)
    returns (order: seq<Id>, scores: map<Id, real>, hits: map<Id, Hit>)
    requires Tallied(order0, scores0, keyword, []) && Representatives(hits0, keyword, [])
    ensures Tallied(order, scores, keyword, semantic) && Representatives(hits, keyword, semantic)
  {
    order, scores, hits := order0, scores0, hits0;
    for i := 0 to |semantic|
      invariant Tallied(order, scores, keyword, semantic[..i]) && Representatives(hits, keyword, semantic[..i])
    {
      SemanticNext(keyword, semantic, i, order, scores, hits);
      order, scores := AddScore(order, scores, semantic[i].document, i + 1);
      hits := KeepFirst(hits, semantic[i]);
    }
    assert semantic[..|semantic|] == semantic;
  }

  /** `setdefault`: a document keeps the record it has. */
  method KeepFirst(hits: map<Id, Hit>, hit: Hit) returns (hits': map<Id, Hit>)
    ensures hits' == if hit.document in hits then hits else hits[hit.document := hit]
  {
    hits' := hits;
    if hit.document !in hits {
      hits' := hits[hit.document := hit];
    }
  }

  method AddScore(order: seq<Id>, scores: map<Id, real>, d: Id, rank: nat)
    returns (order': seq<Id>, scores': map<Id, real>)
    requires forall x :: x in scores <==> x in order
    requires rank >= 1
    ensures order' == OrderWith(order, d) && scores' == ScoresWith(scores, d, rank)
  {
    if d in scores {
      order', scores' := order, scores[d := scores[d] + Reciprocal(rank)];
    } else {
      order', scores' := order + [d], scores[d := 0.0 + Reciprocal(rank)];
    }
  }

  function FusedOrder(keyword: seq<Hit>, semantic: seq<Hit>): seq<Id> {
    Sort(Documents(keyword, semantic), (d: Id) => FusedScore(keyword, semantic, d))
  }

  method Fuse(keyword: seq<Hit>, semantic: seq<Hit>, limit: nat) returns (out: seq<Hit>)
    ensures IsFusion(out, keyword, semantic, limit)
    ensures |out| == Min(limit, |FusedOrder(keyword, semantic)|)
    ensures forall i :: 0 <= i < |out| ==> out[i].document == FusedOrder(keyword, semantic)[i]
  {
    var order, scores, hits := AccumulateKeyword(keyword);
    order, scores, hits := AccumulateSemantic(keyword, semantic, order, scores, hits);
    var ranked := Sort(order, (d: Id) => if d in scores then scores[d] else 0.0);
    RankedIsFusedOrder(order, scores, hits, keyword, semantic);
    out := Present(ranked, scores, hits, limit);
    FusionFromOrder(out, hits, keyword, semantic, limit);
  }

  /** The comprehension that attaches scores to the first `limit` ranked documents. */
  method Present(ranked: seq<Id>, scores: map<Id, real>, hits: map<Id, Hit>, limit: nat) returns (out: seq<Hit>)
    requires forall i :: 0 <= i < |ranked| ==> ranked[i] in hits && ranked[i] in scores
    ensures |out| == Min(limit, |ranked|)
    ensures forall i :: 0 <= i < |out| ==> out[i] == hits[ranked[i]].(score := scores[ranked[i]], kind := Hybrid)
  {
    out := [];
    for i := 0 to Min(limit, |ranked|)
      invariant |out| == i
      invariant forall j :: 0 <= j < i ==> out[j] == hits[ranked[j]].(score := scores[ranked[j]], kind := Hybrid)
    {
      out := out + [hits[ranked[i]].(score := scores[ranked[i]], kind := Hybrid)];
    }
  }

  lemma RankedIsFusedOrder(
    order: seq<Id>, scores: map<Id, real>, hits: map<Id, Hit>, keyword: seq<Hit>, semantic: seq<Hit>)
    requires Tallied(order, scores, keyword, semantic) && Representatives(hits, keyword, semantic)
    ensures Sort(order, (d: Id) => if d in scores then scores[d] else 0.0) == FusedOrder(keyword, semantic)
    ensures forall d :: d in FusedOrder(keyword, semantic) ==>
              && d in hits && hits[d].document == d
              && d in scores && scores[d] == FusedScore(keyword, semantic, d)
  {
    DocumentsProperties(keyword, semantic);
    FusedOrderProperties(keyword, semantic);
    SortSameKeys(order, (d: Id) => if d in scores then scores[d] else 0.0, (d: Id) => FusedScore(keyword, semantic, d));
  }

  lemma FusedOrderProperties(keyword: seq<Hit>, semantic: seq<Hit>)
    ensures var order := FusedOrder(keyword, semantic);
      && |order| == |Documents(keyword, semantic)|
      && Distinct(order)
      && (forall d :: d in order <==> d in Documents(keyword, semantic))
      && forall i, j :: 0 <= i < j < |order| ==> Beats(keyword, semantic, order[i], order[j])
  {
    DocumentsProperties(keyword, semantic);
    SortRanked(Documents(keyword, semantic), (d: Id) => FusedScore(keyword, semantic, d));
    SortProperties(Documents(keyword, semantic), (d: Id) => FusedScore(keyword, semantic, d));
  }

  lemma RepresentsKept(hit: Hit, score: real, keyword: seq<Hit>, semantic: seq<Hit>)
    requires Represents(hit, keyword, semantic)
    ensures Represents(hit.(score := score, kind := Hybrid), keyword, semantic)
  {
    var d := hit.document;
    if Occurs(keyword, d) {
      var i :| 0 <= i < |keyword| && keyword[i].document == d && SameRecord(hit, keyword[i])
               && forall j :: i < j < |keyword| ==> keyword[j].document != d;
      assert SameRecord(hit.(score := score, kind := Hybrid), keyword[i]);
    } else {
      var i :| 0 <= i < |semantic| && semantic[i].document == d && SameRecord(hit, semantic[i])
               && forall j :: 0 <= j < i ==> semantic[j].document != d;
      assert SameRecord(hit.(score := score, kind := Hybrid), semantic[i]);
    }
  }

  lemma FusionFromOrder(out: seq<Hit>, hits: map<Id, Hit>, keyword: seq<Hit>, semantic: seq<Hit>, limit: nat)
    requires Representatives(hits, keyword, semantic)
    requires |out| == Min(limit, |FusedOrder(keyword, semantic)|)
    requires forall i :: 0 <= i < |out| ==>
               && FusedOrder(keyword, semantic)[i] in hits
               && out[i].document == FusedOrder(keyword, semantic)[i]
               && out[i] == hits[FusedOrder(keyword, semantic)[i]].(
                    score := FusedScore(keyword, semantic, out[i].document), kind := Hybrid)
    ensures IsFusion(out, keyword, semantic, limit)
  {
    DocumentsProperties(keyword, semantic);
    FusedOrderProperties(keyword, semantic);
    var order := FusedOrder(keyword, semantic);
    forall i | 0 <= i < |out|
      ensures Represents(out[i], keyword, semantic)
    {
      RepresentsKept(hits[order[i]], out[i].score, keyword, semantic);
    }
    forall i, d | 0 <= i < |out| && (Occurs(keyword, d) || Occurs(semantic, d))
                  && (forall j :: 0 <= j < |out| ==> out[j].document != d)
      ensures Beats(keyword, semantic, out[i].document, d)
    {
      assert d in order;
      var k :| 0 <= k < |order| && order[k] == d;
      assert forall j :: 0 <= j < |out| ==> order[j] != d;
    }
  }
}
