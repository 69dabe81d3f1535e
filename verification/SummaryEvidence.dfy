/**
 When the summary of a record has an evidence span.  A summary is a normalized sentence or, when no
 sentence qualifies, the whole text normalized; it has a span iff it occurs in the stored text.
 */
module SummaryEvidence {
  import opened Options
  import opened SpanLists
  import opened Strings
  import opened TextCleaning
  import opened EvidenceSpans

  /* ---- Texts that normalization changes only at their white space ---- */

  /** No white space at the ends and none next to another. */
  predicate Tidy(t: string) {
    && (t != "" ==> !IsSpace(t[0]) && !IsSpace(t[|t| - 1]))
    && forall i :: 0 <= i < |t| - 1 ==> !IsSpace(t[i]) || !IsSpace(t[i + 1])
  }

  function Spaced(t: string): (r: string)
    ensures |r| == |t|
  {
    seq(|t|, i requires 0 <= i < |t| => if IsSpace(t[i]) then ' ' else t[i])
  }

  /** Tidy, and its only white space is the space. */
  predicate SingleSpaced(t: string) {
    Tidy(t) && Spaced(t) == t
  }

  lemma TidyTail(t: string)
    requires Tidy(t) && |t| > 1
    ensures !IsSpace(t[1]) ==> Tidy(t[1..])
    ensures IsSpace(t[1]) ==> |t| > 2 && Tidy(t[2..]) && t[1..][1..] == t[2..]
  {
    assert forall i :: 0 <= i < |t[1..]| ==> t[1..][i] == t[i + 1];
    if IsSpace(t[1]) {
      assert !IsSpace(t[0 + 1]) || !IsSpace(t[1 + 1]);
      assert forall i :: 0 <= i < |t[2..]| ==> t[2..][i] == t[i + 2];
    }
  }

  lemma JoinAfterSpace(c: char, words: seq<string>)
    requires words != []
    ensures Join([[c]] + words, ' ') == [c] + (" " + Join(words, ' '))
  {
    assert ([[c]] + words)[1..] == words;
  }

  lemma {:induction false} TidyNormalized(t: string)
    requires Tidy(t)
    ensures Normalized(t) == Spaced(t)
    decreases |t|
  {
    if |t| == 1 {
      SolidIsOneWord(t);
    } else if |t| > 1 {
      TidyTail(t);
      if IsSpace(t[1]) {
        TidyNormalized(t[2..]);
        JoinAfterSpace(t[0], Words(t[2..]));
        assert Spaced(t) == [t[0]] + (" " + Spaced(t[2..]));
      } else {
        TidyNormalized(t[1..]);
        JoinPrefix(t[0], Words(t[1..]), ' ');
        assert Spaced(t) == [t[0]] + Spaced(t[1..]);
      }
    }
  }

  /* ---- The two sources of a summary ---- */

  predicate Qualifies(sentence: string, boilerplate: string -> bool) {
    |Normalized(sentence)| >= SHORTEST_SUMMARY && !boilerplate(Normalized(sentence))
  }

  predicate AnyQualifies(sentences: seq<string>, boilerplate: string -> bool) {
    exists s :: s in sentences && Qualifies(s, boilerplate)
  }

  lemma {:induction false} BasisOf(text: string, sentences: seq<string>, boilerplate: string -> bool)
    ensures !AnyQualifies(sentences, boilerplate) ==> SummaryBasis(text, sentences, boilerplate) == Normalized(text)
    ensures AnyQualifies(sentences, boilerplate) ==>
              exists s :: s in sentences && Qualifies(s, boilerplate)
                          && SummaryBasis(text, sentences, boilerplate) == Normalized(s)
  {
    if sentences != [] {
      BasisOf(text, sentences[1..], boilerplate);
      if Qualifies(sentences[0], boilerplate) {
        assert sentences[0] in sentences;
      } else {
        assert forall s :: s in sentences <==> s == sentences[0] || s in sentences[1..];
      }
    }
  }

  lemma SpanIff(text: string, summary: string)
    ensures SpansOfSummary(text, summary) != [] <==> summary != "" && exists i: nat :: OccursAt(text, summary, i)
  {
  }

  lemma CutOccurs(text: string, s: string, i: nat)
    requires OccursAt(text, s, i)
    ensures OccursAt(text, Cut(s), i)
  {
    assert text[i..i + |s|][..|Cut(s)|] == text[i..i + |Cut(s)|];
  }

  /** A piece of the text as sentences are: no white space but single spaces. */
  ghost predicate Piece(text: string, s: string) {
    SingleSpaced(s) && exists i: nat :: OccursAt(text, s, i)
  }

  /** A summary taken from a qualifying sentence of the text always has a span. */
  lemma QualifyingSentenceHasSpan(src: Source, boilerplate: string -> bool)
    requires AnyQualifies(src.sentences, boilerplate) && forall s :: s in src.sentences ==> Piece(src.text, s)
    ensures SummarySpans(src, boilerplate) != []
  {
    BasisOf(src.text, src.sentences, boilerplate);
    var s :| s in src.sentences && Qualifies(s, boilerplate)
             && SummaryBasis(src.text, src.sentences, boilerplate) == Normalized(s);
    assert Piece(src.text, s);
    TidyNormalized(s);
    var i: nat :| OccursAt(src.text, s, i);
    CutOccurs(src.text, s, i);
    SpanIff(src.text, Cut(s));
  }

  /** What is kept of the text, single-spaced, occurs further on in the text. */
  ghost predicate Echoed(text: string) {
    exists i: nat :: i > 0 && OccursAt(text, Spaced(Cut(text)), i)
  }

  lemma CutSpaced(text: string)
    ensures Cut(Spaced(text)) == Spaced(Cut(text)) && |Spaced(Cut(text))| <= |text|
  {
  }

  lemma KeptOccursIff(text: string)
    ensures (exists i: nat :: OccursAt(text, Spaced(Cut(text)), i)) <==> Spaced(Cut(text)) == Cut(text) || Echoed(text)
  {
    var kept := Spaced(Cut(text));
    assert text[0..0 + |kept|] == Cut(text);
    assert OccursAt(text, kept, 0) <==> kept == Cut(text);
    if i: nat :| OccursAt(text, kept, i) && i > 0 {
      assert Echoed(text);
    }
  }

  /**
   A whole text normalized has a span iff what is kept of it was single-spaced already or, when
   something is cut off, happens to occur single-spaced further on.
   */
  lemma FallbackHasSpanIff(src: Source, boilerplate: string -> bool)
    requires Tidy(src.text) && !AnyQualifies(src.sentences, boilerplate)
    ensures SummarySpans(src, boilerplate) != [] <==>
            src.text != "" && (Spaced(Cut(src.text)) == Cut(src.text) || Echoed(src.text))
  {
    BasisOf(src.text, src.sentences, boilerplate);
    TidyNormalized(src.text);
    CutSpaced(src.text);
    SpanIff(src.text, Spaced(Cut(src.text)));
    KeptOccursIff(src.text);
  }

  /** Nothing is cut off a short text, so it cannot be echoed. */
  lemma ShortIsNotEchoed(text: string)
    requires |text| <= LONGEST_SUMMARY
    ensures Cut(text) == text && !Echoed(text)
  {
  }

  /* ---- Cleaned texts ---- */

  /** The only white space is the space and the newline. */
  predicate PlainSpace(text: string) {
    forall i :: 0 <= i < |text| && IsSpace(text[i]) ==> text[i] == ' ' || text[i] == '\n'
  }

  lemma CleanLineTidy(line: string)
    requires IsCleanLine(line) && PlainSpace(line)
    ensures Tidy(line)
  {
    assert forall i :: 0 <= i < |line| ==> line[i] >= ' ';
  }

  lemma JoinTwoTidy(a: string, b: string)
    requires a != "" && b != "" && Tidy(a) && Tidy(b)
    ensures Tidy(a + ['\n'] + b)
  {
    var t := a + ['\n'] + b;
    forall i | 0 <= i < |t| - 1
      ensures !IsSpace(t[i]) || !IsSpace(t[i + 1])
    {
      if i < |a| - 1 {
        assert t[i] == a[i] && t[i + 1] == a[i + 1];
      } else if i > |a| {
        assert t[i] == b[i - |a| - 1] && t[i + 1] == b[i - |a|];
      }
    }
  }

  lemma {:induction false} JoinTidy(lines: seq<string>)
    requires lines != [] && forall l :: l in lines ==> IsCleanLine(l) && PlainSpace(l)
    ensures Join(lines, '\n') != "" && Tidy(Join(lines, '\n'))
  {
    assert lines[0] in lines;
    CleanLineTidy(lines[0]);
    if |lines| > 1 {
      assert forall l :: l in lines[1..] ==> l in lines;
      JoinTidy(lines[1..]);
      JoinTwoTidy(lines[0], Join(lines[1..], '\n'));
    }
  }

  lemma {:induction false} SplitPlainSpace(text: string)
    requires PlainSpace(text)
    ensures forall i :: 0 <= i < |Split(text, '\n')| ==> PlainSpace(Split(text, '\n')[i])
  {
    if text != "" {
      assert forall i :: 0 <= i < |text[1..]| ==> text[1..][i] == text[i + 1];
      SplitPlainSpace(text[1..]);
    }
  }

  lemma CleanTextTidy(text: string)
    requires IsClean(text) && PlainSpace(text)
    ensures Tidy(text)
  {
    if text != "" {
      var lines := Split(text, '\n');
      SplitPlainSpace(text);
      JoinSplit(text, '\n');
      JoinTidy(lines);
    }
  }

  lemma NoNewlineIff(text: string)
    requires PlainSpace(text)
    ensures Spaced(text) == text <==> '\n' !in text
  {
    if '\n' !in text {
      forall i | 0 <= i < |text|
        ensures Spaced(text)[i] == text[i]
      {
        assert text[i] in text;
      }
    } else {
      var i :| 0 <= i < |text| && text[i] == '\n';
      assert Spaced(text)[i] == ' ';
    }
  }

  /**
   For a cleaned text and its own sentences: a summary has a span iff some sentence qualifies, the
   kept part of the text is a single line, or that part with its newlines as spaces occurs further on.
   */
  lemma SummaryHasSpanIff(src: Source, boilerplate: string -> bool)
    requires IsClean(src.text) && PlainSpace(src.text)
    requires AnyQualifies(src.sentences, boilerplate) ==> forall s :: s in src.sentences ==> Piece(src.text, s)
    ensures SummarySpans(src, boilerplate) != [] <==>
            || AnyQualifies(src.sentences, boilerplate)
            || (src.text != "" && ('\n' !in Cut(src.text) || Echoed(src.text)))
    ensures |src.text| <= LONGEST_SUMMARY ==>
              (SummarySpans(src, boilerplate) != [] <==>
               AnyQualifies(src.sentences, boilerplate) || (src.text != "" && '\n' !in src.text))
  {
    if AnyQualifies(src.sentences, boilerplate) {
      QualifyingSentenceHasSpan(src, boilerplate);
    } else {
      CleanTextTidy(src.text);
      FallbackHasSpanIff(src, boilerplate);
      NoNewlineIff(Cut(src.text));
    }
    if |src.text| <= LONGEST_SUMMARY {
      ShortIsNotEchoed(src.text);
    }
  }
}
