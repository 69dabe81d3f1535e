/** The string operations the program uses, on sequences of characters. */
module Strings {

  function Split(s: string, c: char): (parts: seq<string>)
    ensures |parts| >= 1
  {
    if s == "" then [""]
    else if s[0] == c then [""] + Split(s[1..], c)
    else
      var rest := Split(s[1..], c);
      [[s[0]] + rest[0]] + rest[1..]
  }

  function Join(parts: seq<string>, c: char): string {
    if parts == [] then ""
    else if |parts| == 1 then parts[0]
    else parts[0] + [c] + Join(parts[1..], c)
  }

  predicate StartsWith(s: string, prefix: string) {
    prefix <= s
  }

  predicate EndsWith(s: string, suffix: string) {
    |suffix| <= |s| && s[|s| - |suffix|..] == suffix
  }

  predicate IsSuffix<T(==)>(suffix: seq<T>, s: seq<T>) {
    |suffix| <= |s| && s[|s| - |suffix|..] == suffix
  }

  /** Python's `rstrip` with a single character. */
  function StripRight(s: string, c: char): (r: string)
    ensures r <= s && (r == "" || r[|r| - 1] != c)
    ensures forall i :: |r| <= i < |s| ==> s[i] == c
  {
    if s == "" || s[|s| - 1] != c then s else StripRight(s[..|s| - 1], c)
  }

  /** Prefixing the first part prefixes the whole. */
  lemma JoinPrefix(x: char, parts: seq<string>, c: char)
    requires parts != []
    ensures Join([[x] + parts[0]] + parts[1..], c) == [x] + Join(parts, c)
  {
    assert ([[x] + parts[0]] + parts[1..])[1..] == parts[1..];
  }

  lemma {:induction false} JoinSplit(s: string, c: char)
    ensures Join(Split(s, c), c) == s
  {
    if s != "" {
      JoinSplit(s[1..], c);
      var rest := Split(s[1..], c);
      if s[0] == c {
        assert ([""] + rest)[1..] == rest;
      } else {
        JoinPrefix(s[0], rest, c);
      }
    }
  }

  lemma {:induction false} JoinAppend(a: seq<string>, b: seq<string>, c: char)
    requires a != [] && b != []
    ensures Join(a + b, c) == Join(a, c) + [c] + Join(b, c)
  {
    assert (a + b)[1..] == a[1..] + b;
    if |a| > 1 {
      JoinAppend(a[1..], b, c);
    }
  }

  lemma TailAppend(a: string, c: char, b: string)
    requires a != ""
    ensures (a + [c] + b)[1..] == a[1..] + [c] + b && (a + [c] + b)[0] == a[0]
  {
  }

  lemma {:induction false} SplitAppend(a: string, b: string, c: char)
    ensures Split(a + [c] + b, c) == Split(a, c) + Split(b, c)
  {
    if a == "" {
      assert (a + [c] + b)[1..] == b;
    } else {
      SplitAppend(a[1..], b, c);
      TailAppend(a, c, b);
    }
  }

  lemma SuffixSplits(s: string, t: string, c: char)
    requires EndsWith(s, [c] + t)
    ensures IsSuffix(Split(t, c), Split(s, c))
  {
    var a := s[..|s| - |t| - 1];
    assert s == a + ([c] + t) == a + [c] + t;
    SplitAppend(a, t, c);
  }

  lemma JoinSuffix(s: string, a: seq<string>, t: string, c: char)
    requires Split(s, c) == a + Split(t, c) && a != []
    ensures s == Join(a, c) + [c] + t
  {
    JoinSplit(s, c);
    JoinSplit(t, c);
    JoinAppend(a, Split(t, c), c);
  }

  lemma EndsWithTail(a: string, c: char, t: string)
    ensures EndsWith(a + [c] + t, [c] + t)
  {
    assert a + [c] + t == a + ([c] + t);
  }

  lemma SplitSuffix(s: string, t: string, c: char)
    requires IsSuffix(Split(t, c), Split(s, c))
    ensures s == t || EndsWith(s, [c] + t)
  {
    var a := Split(s, c)[..|Split(s, c)| - |Split(t, c)|];
    assert Split(s, c) == a + Split(t, c);
    if a == [] {
      assert a + Split(t, c) == Split(t, c);
      JoinSplit(s, c);
      JoinSplit(t, c);
    } else {
      JoinSuffix(s, a, t, c);
      EndsWithTail(Join(a, c), c, t);
    }
  }

  /** A string is another, or ends with it after a separator, iff its parts end with the other's parts. */
  lemma SuffixParts(s: string, t: string, c: char)
    ensures s == t || EndsWith(s, [c] + t) <==> IsSuffix(Split(t, c), Split(s, c))
  {
    if s != t && EndsWith(s, [c] + t) {
      SuffixSplits(s, t, c);
    }
    if IsSuffix(Split(t, c), Split(s, c)) {
      SplitSuffix(s, t, c);
    }
  }

  /** A string is another, or starts with it before a separator, iff its parts start with the other's parts. */
  lemma PrefixParts(s: string, t: string, c: char)
    ensures s == t || StartsWith(s, t + [c]) <==> Split(t, c) <= Split(s, c)
  {
    if StartsWith(s, t + [c]) {
      var b := s[|t| + 1..];
      assert s == t + [c] + b;
      SplitAppend(t, b, c);
    }
    if Split(t, c) <= Split(s, c) {
      var b := Split(s, c)[|Split(t, c)|..];
      assert Split(s, c) == Split(t, c) + b;
      JoinSplit(s, c);
      JoinSplit(t, c);
      if b != [] {
        JoinAppend(Split(t, c), b, c);
      } else {
        assert Split(t, c) + b == Split(t, c);
      }
    }
  }

  /* ---- White space ---- */

  // The white space characters beyond ASCII, as inclusive ranges of code points.
  const WIDE_SPACES: seq<(int, int)> := [
    (0x85, 0x85), (0xA0, 0xA0), (0x1680, 0x1680), (0x2000, 0x200A), (0x2028, 0x2029), (0x202F, 0x202F),
    (0x205F, 0x205F), (0x3000, 0x3000)]

  predicate InRanges(n: int, ranges: seq<(int, int)>) {
    ranges != [] && (ranges[0].0 <= n <= ranges[0].1 || InRanges(n, ranges[1..]))
  }

  /** The characters that Python's `str.strip` and `str.split` take for white space. */
  predicate IsSpace(c: char) {
    var n := c as int;
    if n < 0x80 then 0x09 <= n <= 0x0D || 0x1C <= n <= 0x20 else InRanges(n, WIDE_SPACES)
  }

  lemma InRangesNext(n: int, low: int, high: int, rest: seq<(int, int)>)
    ensures InRanges(n, [(low, high)] + rest) <==> low <= n <= high || InRanges(n, rest)
  {
    assert ([(low, high)] + rest)[1..] == rest;
  }

  /** White space, character by character. */
  lemma SpacesListed(c: char)
    ensures IsSpace(c) <==>
            c as int in {0x09, 0x0A, 0x0B, 0x0C, 0x0D, 0x1C, 0x1D, 0x1E, 0x1F, 0x20, 0x85, 0xA0, 0x1680,
                         0x2000, 0x2001, 0x2002, 0x2003, 0x2004, 0x2005, 0x2006, 0x2007, 0x2008, 0x2009, 0x200A,
                         0x2028, 0x2029, 0x202F, 0x205F, 0x3000}
  {
    var n := c as int;
    var s: seq<(int, int)> := [];
    InRangesNext(n, 0x3000, 0x3000, s);
    s := [(0x3000, 0x3000)] + s;
    InRangesNext(n, 0x205F, 0x205F, s);
    s := [(0x205F, 0x205F)] + s;
    InRangesNext(n, 0x202F, 0x202F, s);
    s := [(0x202F, 0x202F)] + s;
    InRangesNext(n, 0x2028, 0x2029, s);
    s := [(0x2028, 0x2029)] + s;
    InRangesNext(n, 0x2000, 0x200A, s);
    s := [(0x2000, 0x200A)] + s;
    InRangesNext(n, 0x1680, 0x1680, s);
    s := [(0x1680, 0x1680)] + s;
    InRangesNext(n, 0xA0, 0xA0, s);
    s := [(0xA0, 0xA0)] + s;
    InRangesNext(n, 0x85, 0x85, s);
    s := [(0x85, 0x85)] + s;
    assert s == WIDE_SPACES;
  }

  predicate AllSpace(s: string) {
    forall c :: c in s ==> IsSpace(c)
  }

  function StripStart(s: string): (r: string)
    ensures r == "" || !IsSpace(r[0])
    ensures EndsWith(s, r)
  {
    if s == "" || !IsSpace(s[0]) then s else StripStart(s[1..])
  }

  function StripEnd(s: string): (r: string)
    ensures r == "" || !IsSpace(r[|r| - 1])
    ensures r <= s
  {
    if s == "" || !IsSpace(s[|s| - 1]) then s else StripEnd(s[..|s| - 1])
  }

  /** Python's `strip`. */
  function Strip(s: string): string {
    StripEnd(StripStart(s))
  }

  lemma StripEnds(s: string)
    requires Strip(s) != ""
    ensures !IsSpace(Strip(s)[0]) && !IsSpace(Strip(s)[|Strip(s)| - 1])
  {
    assert Strip(s)[0] == StripStart(s)[0];
  }

  /** Stripping leaves a string alone iff it has no white space at either end. */
  lemma StripFixedIff(s: string)
    ensures Strip(s) == s <==> s == "" || (!IsSpace(s[0]) && !IsSpace(s[|s| - 1]))
  {
    assert Strip(s) == s ==> |StripStart(s)| == |s|;
  }

  /** Python's `split` without arguments. */
  function Words(s: string): (words: seq<string>)
    ensures s != "" && !IsSpace(s[0]) ==> words != []
  {
    if s == "" then []
    else if IsSpace(s[0]) then Words(s[1..])
    else if |s| == 1 || IsSpace(s[1]) then [[s[0]]] + Words(s[1..])
    else
      var rest := Words(s[1..]);
      [[s[0]] + rest[0]] + rest[1..]
  }

  /** The words of a string whose first character is not white space. */
  lemma WordsFront(x: char, rest: string)
    requires !IsSpace(x)
    ensures Words([x] + rest) == if rest == "" || IsSpace(rest[0]) then [[x]] + Words(rest)
                                 else [[x] + Words(rest)[0]] + Words(rest)[1..]
  {
    var s := [x] + rest;
    assert s[1..] == rest && s[0] == x;
  }

  lemma WordsSkip(x: char, rest: string)
    requires IsSpace(x)
    ensures Words([x] + rest) == Words(rest)
  {
    var s := [x] + rest;
    assert s[1..] == rest && s[0] == x;
  }

  lemma FrontOfAppend(a: string, c: char, b: string)
    requires a != ""
    ensures a + [c] + b == [a[0]] + (a[1..] + [c] + b) && a == [a[0]] + a[1..]
    ensures a[1..] + [c] + b != "" && (a[1..] + [c] + b)[0] == if |a| == 1 then c else a[1]
  {
  }

  lemma MergeAppend(x: char, words: seq<string>, more: seq<string>)
    requires words != []
    ensures [[x] + (words + more)[0]] + (words + more)[1..] == ([[x] + words[0]] + words[1..]) + more
  {
  }

  lemma {:induction false} WordsAppend(a: string, c: char, b: string)
    requires IsSpace(c)
    ensures Words(a + [c] + b) == Words(a) + Words(b)
  {
    if a == "" {
      assert a + [c] + b == [c] + b;
      WordsSkip(c, b);
    } else {
      var (x, rest) := (a[0], a[1..]);
      FrontOfAppend(a, c, b);
      WordsAppend(rest, c, b);
      if IsSpace(x) {
        WordsSkip(x, rest);
        WordsSkip(x, rest + [c] + b);
      } else {
        WordsFront(x, rest);
        WordsFront(x, rest + [c] + b);
        if rest == "" || IsSpace(rest[0]) {
          assert [[x]] + (Words(rest) + Words(b)) == ([[x]] + Words(rest)) + Words(b);
        } else {
          MergeAppend(x, Words(rest), Words(b));
        }
      }
    }
  }

  /** No white space anywhere. */
  predicate Solid(s: string) {
    forall i :: 0 <= i < |s| ==> !IsSpace(s[i])
  }

  predicate SolidWords(words: seq<string>) {
    forall i :: 0 <= i < |words| ==> words[i] != "" && Solid(words[i])
  }

  lemma SolidFront(x: char, words: seq<string>)
    requires !IsSpace(x) && SolidWords(words)
    ensures SolidWords([[x]] + words)
    ensures words != [] ==> SolidWords([[x] + words[0]] + words[1..])
  {
  }

  lemma {:induction false} WordsAreSolid(s: string)
    ensures SolidWords(Words(s))
  {
    if s != "" {
      WordsAreSolid(s[1..]);
      if !IsSpace(s[0]) {
        SolidFront(s[0], Words(s[1..]));
      }
    }
  }

  lemma {:induction false} SolidIsOneWord(s: string)
    requires s != "" && Solid(s)
    ensures Words(s) == [s]
  {
    if |s| > 1 {
      assert forall i :: 0 <= i < |s[1..]| ==> s[1..][i] == s[i + 1];
      SolidIsOneWord(s[1..]);
      assert [s[0]] + s[1..] == s;
    } else {
      assert s[1..] == "" && s == [s[0]];
    }
  }

  /** Words joined by a space begin and end with a word. */
  lemma {:induction false} JoinedEnds(words: seq<string>)
    requires words != [] && SolidWords(words)
    ensures var s := Join(words, ' '); s != "" && !IsSpace(s[0]) && !IsSpace(s[|s| - 1])
  {
    if |words| > 1 {
      assert forall i :: 0 <= i < |words[1..]| ==> words[1..][i] == words[i + 1];
      JoinedEnds(words[1..]);
    }
  }
}
