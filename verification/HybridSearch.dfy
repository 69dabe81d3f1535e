/** The search service: modes, semantic outages, and what hybrid search falls back to. */
module HybridSearch {
  import opened Options
  import opened StableSort
  import opened SearchFusion

  datatype Mode = KeywordOnly | SemanticOnly | Fused

  // The semantic client is absent, raises, or its candidates pass the database's own filter.
  datatype Backend = Absent | Raising | Answering(hits: seq<Hit>)

  datatype Response = Response(results: seq<Hit>, semanticAvailable: bool) | Unavailable | NotConfigured

  // The ordinal of the earliest date, which stands in for a missing publication date.
  const DATE_MIN := 1

  function DateKey(hit: Hit): real {
    (if hit.publishedAt.Some? then hit.publishedAt.value else DATE_MIN) as real
  }

  /** The semantic list that takes part in fusion. */
  function SemanticHits(backend: Backend, rawDocuments: bool): seq<Hit> {
    if backend.Answering? && rawDocuments then backend.hits else []
  }

  method Search(
    mode: Mode, keyword: seq<Hit>, backend: Backend, rawDocuments: bool, newestFirst: bool, limit: nat)
    returns (response: Response)
    ensures response.NotConfigured? <==> mode.SemanticOnly? && (backend.Absent? || !rawDocuments)
    ensures response.Unavailable? <==> mode.SemanticOnly? && backend.Raising? && rawDocuments
    ensures mode.KeywordOnly? ==> response == Response(keyword, !backend.Absent? && rawDocuments)
    ensures mode.SemanticOnly? && backend.Answering? && rawDocuments ==>
              response == Response(backend.hits[..Min(limit, |backend.hits|)], true)
    ensures mode.Fused? ==>
              && response.Response?
              && (response.semanticAvailable <==> backend.Answering? && rawDocuments)
              && exists fused ::
                   && IsFusion(fused, keyword, SemanticHits(backend, rawDocuments), limit)
                   && InFusedOrder(fused, keyword, SemanticHits(backend, rawDocuments))
                   && response.results == if newestFirst then Sort(fused, DateKey) else fused
  {
    var available := !backend.Absent? && rawDocuments;
    var semantic: seq<Hit> := [];
    if !mode.KeywordOnly? && available {
      match backend
      case Answering(hits) => semantic := hits;
      case Raising =>
        if mode.SemanticOnly? {
          return Unavailable;
        }
        available := false;
      case Absent =>
    } else if mode.SemanticOnly? {
      return NotConfigured;
    }
    if mode.KeywordOnly? {
      return Response(keyword, available);
    }
    if mode.SemanticOnly? {
      return Response(semantic[..Min(limit, |semantic|)], true);
    }
    assert semantic == SemanticHits(backend, rawDocuments);
    var fused := Fuse(keyword, semantic, limit);
    assert InFusedOrder(fused, keyword, semantic);
    response := Response(if newestFirst then Sort(fused, DateKey) else fused, available);
  }

  ghost predicate InFusedOrder(out: seq<Hit>, keyword: seq<Hit>, semantic: seq<Hit>) {
    && |out| <= |FusedOrder(keyword, semantic)|
    && forall i :: 0 <= i < |out| ==> out[i].document == FusedOrder(keyword, semantic)[i]
  }

  /* ---- The keyword fallback ---- */

  function Ids(results: seq<Hit>): seq<Id> {
    seq(|results|, i requires 0 <= i < |results| => results[i].document)
  }

  ghost predicate DistinctIds(results: seq<Hit>) {
    forall i, j :: 0 <= i < j < |results| ==> results[i].document != results[j].document
  }

  lemma {:induction false} AppearingDistinct(results: seq<Hit>)
    ensures |Appearing([], results)| <= |results|
    ensures |Appearing([], results)| == |results| <==> DistinctIds(results)
    ensures DistinctIds(results) ==> Appearing([], results) == Ids(results)
  {
    AppearingProperties([], results);
    if results != [] {
      var before, last := results[..|results| - 1], results[|results| - 1];
      AppearingDistinct(before);
      AppearingProperties([], before);
      assert forall i :: 0 <= i < |before| ==> before[i] == results[i];
      if Occurs(before, last.document) {
        var i :| 0 <= i < |before| && before[i].document == last.document;
        assert results[i].document == results[|results| - 1].document;
      } else {
        assert forall i :: 0 <= i < |before| ==> before[i].document != last.document by {
          if exists i :: 0 <= i < |before| && before[i].document == last.document {
            assert Occurs(before, last.document);
          }
        }
        assert DistinctIds(results) <==> DistinctIds(before);
        assert DistinctIds(before) ==> Ids(results) == Ids(before) + [last.document];
      }
    }
  }

  lemma {:induction false} RankScoreAbsent(results: seq<Hit>, d: Id)
    requires forall i :: 0 <= i < |results| ==> results[i].document != d
    ensures RankScore(results, d) == 0.0
  {
    if results != [] {
      RankScoreAbsent(results[..|results| - 1], d);
    }
  }

  lemma {:induction false} RankScoreDistinct(results: seq<Hit>, i: nat)
    requires DistinctIds(results) && i < |results|
    ensures RankScore(results, results[i].document) == Reciprocal(i + 1)
  {
    var before := results[..|results| - 1];
    if i == |results| - 1 {
      RankScoreAbsent(before, results[i].document);
    } else {
      RankScoreDistinct(before, i);
    }
  }

  lemma KeywordOrder(keyword: seq<Hit>)
    requires DistinctIds(keyword)
    ensures FusedOrder(keyword, []) == Ids(keyword)
    ensures forall i :: 0 <= i < |keyword| ==> FusedScore(keyword, [], keyword[i].document) == Reciprocal(i + 1)
  {
    AppearingDistinct(keyword);
    forall i | 0 <= i < |keyword|
      ensures FusedScore(keyword, [], keyword[i].document) == Reciprocal(i + 1)
    {
      RankScoreDistinct(keyword, i);
    }
    var key := (d: Id) => FusedScore(keyword, [], d);
    forall i, j | 0 <= i < j < |keyword|
      ensures key(Ids(keyword)[i]) >= key(Ids(keyword)[j])
    {
      ReciprocalDecreases(i + 1, j + 1);
    }
    SortedUnchanged(Ids(keyword), key);
  }

  lemma ReciprocalDecreases(a: nat, b: nat)
    requires a < b
    ensures Reciprocal(a) > Reciprocal(b) > 0.0
  {
    var x, y := (RANK_CONSTANT + a) as real, (RANK_CONSTANT + b) as real;
    InverseDecreases(x, y, Reciprocal(a), Reciprocal(b));
  }

  lemma InverseDecreases(x: real, y: real, p: real, q: real)
    requires 0.0 < x < y && p * x == 1.0 && q * y == 1.0
    ensures p > q > 0.0
  {
    if q <= 0.0 {
      Scaled(q, 0.0, y);
    } else {
      Scaled(x, y, q);
      assert x * q < y * q == 1.0;
      if p <= q {
        Scaled(p, q, x);
      }
    }
  }

  lemma Scaled(a: real, b: real, factor: real)
    requires factor > 0.0 && a <= b
    ensures a * factor <= b * factor
    ensures a < b ==> a * factor < b * factor
  {
  }

  /** Position by position the fallback holds the keyword records, with the score of their rank. */
  lemma FallbackRecord(out: seq<Hit>, keyword: seq<Hit>, limit: nat, i: nat)
    requires DistinctIds(keyword) && i < |out| <= |keyword|
    requires IsFusion(out, keyword, [], limit) && InFusedOrder(out, keyword, [])
    requires FusedOrder(keyword, []) == Ids(keyword)
    requires FusedScore(keyword, [], keyword[i].document) == Reciprocal(i + 1)
    ensures SameRecord(out[i], keyword[i]) && out[i].score == Reciprocal(i + 1)
  {
    assert out[i].document == Ids(keyword)[i] == keyword[i].document;
    assert Represents(out[i], keyword, []);
    assert Occurs(keyword, out[i].document);
  }

  lemma SameDatesStaySorted(out: seq<Hit>, keyword: seq<Hit>)
    requires |out| == |keyword| && Descending(keyword, DateKey)
    requires forall i :: 0 <= i < |out| ==> SameRecord(out[i], keyword[i])
    ensures Sort(out, DateKey) == out
  {
    assert forall i :: 0 <= i < |out| ==> DateKey(out[i]) == DateKey(keyword[i]);
    SortedUnchanged(out, DateKey);
  }

  /**
   Without semantic results hybrid search is keyword search: the same records in the same order,
   also after the newest-first sort of a list that was already newest first.
   */
  lemma FallbackIsKeywordSearch(out: seq<Hit>, keyword: seq<Hit>, limit: nat)
    requires DistinctIds(keyword) && |keyword| <= limit
    requires IsFusion(out, keyword, [], limit) && InFusedOrder(out, keyword, [])
    ensures |out| == |keyword|
    ensures forall i :: 0 <= i < |out| ==> SameRecord(out[i], keyword[i]) && out[i].score == Reciprocal(i + 1)
    ensures Descending(keyword, DateKey) ==> Sort(out, DateKey) == out
  {
    KeywordOrder(keyword);
    FallbackKeepsEveryHitIff(out, keyword, limit);
    forall i | 0 <= i < |out|
      ensures SameRecord(out[i], keyword[i]) && out[i].score == Reciprocal(i + 1)
    {
      FallbackRecord(out, keyword, limit, i);
    }
    if Descending(keyword, DateKey) {
      SameDatesStaySorted(out, keyword);
    }
  }

  /**
   The fallback returns every keyword hit iff no two of them share a document. Canonical hits
   can: one raw document may carry several records, and fusion keeps the last of them.
   */
  lemma FallbackKeepsEveryHitIff(out: seq<Hit>, keyword: seq<Hit>, limit: nat)
    requires |keyword| <= limit
    requires IsFusion(out, keyword, [], limit)
    ensures |out| == |keyword| <==> DistinctIds(keyword)
  {
    AppearingDistinct(keyword);
  }

  /** Newest first: dated hits by descending date, undated ones as if of the first day; every hit is kept. */
  lemma NewestFirst(hits: seq<Hit>, i: nat, j: nat)
    requires i < j < |hits|
    ensures var s := Sort(hits, DateKey);
      && |s| == |hits| && multiset(s) == multiset(hits)
      && (s[i].publishedAt.Some? && s[j].publishedAt.Some? ==> s[i].publishedAt.value >= s[j].publishedAt.value)
      && (s[i].publishedAt == None && s[j].publishedAt.Some? ==> s[j].publishedAt.value <= 1)
      && (s[i].publishedAt.Some? && s[j].publishedAt == None ==> s[i].publishedAt.value >= 1)
  {
    SortPermutes(hits, DateKey);
    SortDescending(hits, DateKey);
    assert DateKey(Sort(hits, DateKey)[i]) >= DateKey(Sort(hits, DateKey)[j]);
  }
}
