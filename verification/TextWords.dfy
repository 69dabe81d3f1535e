/**
 When cleaning keeps the words of a text.  Control characters are dropped before white space is
 looked at, so a word is lost when one of its characters is a control, and two words become one
 when only dropped characters part them.
 */
module TextWords {
  import opened Strings
  import opened TextCleaning

  /* ---- The condition ---- */

  predicate Ink(c: char) {
    Kept(c) && !IsSpace(c)
  }

  /** Every control character that is dropped is white space. */
  predicate DropsOnlySpace(r: string) {
    forall i :: 0 <= i < |r| && !Kept(r[i]) ==> IsSpace(r[i])
  }

  /** Characters `i` and `j` are parted by dropped characters and nothing else. */
  predicate Glued(r: string, i: nat, j: nat) {
    i + 1 < j < |r| && Ink(r[i]) && Ink(r[j]) && forall k :: i < k < j ==> !Kept(r[k])
  }

  ghost predicate AnyGlued(r: string) {
    exists i: nat, j: nat :: Glued(r, i, j)
  }

  /** The text after the newline steps, before control characters are dropped. */
  function Unified(s: string): string {
    ReplaceCr(ReplaceCrLf(s))
  }

  /* ---- Newlines ---- */

  lemma {:induction false} CrLfWords(s: string)
    ensures Words(ReplaceCrLf(s)) == Words(s)
    ensures ReplaceCrLf(s) == "" <==> s == ""
    ensures s != "" ==> (IsSpace(ReplaceCrLf(s)[0]) <==> IsSpace(s[0]))
  {
    if s != "" {
      var r := ReplaceCrLf(s);
      if |s| >= 2 && s[0] == '\r' && s[1] == '\n' {
        CrLfWords(s[2..]);
        assert r[1..] == ReplaceCrLf(s[2..]) && s[1..][1..] == s[2..];
      } else {
        CrLfWords(s[1..]);
        assert r[1..] == ReplaceCrLf(s[1..]);
      }
    }
  }

  lemma {:induction false} CrWords(s: string)
    ensures Words(ReplaceCr(s)) == Words(s)
  {
    if s != "" {
      CrWords(s[1..]);
      assert ReplaceCr(s)[1..] == ReplaceCr(s[1..]);
    }
  }

  lemma UnifiedWords(s: string)
    ensures Words(Unified(s)) == Words(s)
  {
    CrLfWords(s);
    CrWords(ReplaceCrLf(s));
  }

  /* ---- Characters that are not white space ---- */

  function Solids(s: string): nat {
    if s == "" then 0 else Solids(s[1..]) + if IsSpace(s[0]) then 0 else 1
  }

  function Letters(words: seq<string>): nat {
    if words == [] then 0 else |words[0]| + Letters(words[1..])
  }

  lemma {:induction false} LettersOfWords(s: string)
    ensures Letters(Words(s)) == Solids(s)
  {
    if s != "" {
      LettersOfWords(s[1..]);
      if !IsSpace(s[0]) {
        var rest := Words(s[1..]);
        if |s| == 1 || IsSpace(s[1]) {
          assert ([[s[0]]] + rest)[1..] == rest;
        } else {
          assert ([[s[0]] + rest[0]] + rest[1..])[1..] == rest[1..];
        }
      }
    }
  }

  lemma DropsOnlySpaceTail(r: string)
    requires r != ""
    ensures DropsOnlySpace(r) <==> (Kept(r[0]) || IsSpace(r[0])) && DropsOnlySpace(r[1..])
  {
    assert forall i :: 0 < i < |r| ==> r[1..][i - 1] == r[i];
    assert forall i :: 0 <= i < |r[1..]| ==> r[1..][i] == r[i + 1];
  }

  lemma {:induction false} DropSolids(r: string)
    ensures Solids(DropControls(r)) <= Solids(r)
    ensures Solids(DropControls(r)) == Solids(r) <==> DropsOnlySpace(r)
  {
    if r != "" {
      DropSolids(r[1..]);
      DropsOnlySpaceTail(r);
      if Kept(r[0]) {
        assert ([r[0]] + DropControls(r[1..]))[1..] == DropControls(r[1..]);
      } else {
        assert DropControls(r) == DropControls(r[1..]);
      }
    }
  }

  /* ---- Words that run together ---- */

  /** Position `j` is the first that is kept. */
  predicate KeptFirst(t: string, j: nat) {
    j < |t| && Kept(t[j]) && forall k :: 0 <= k < j ==> !Kept(t[k])
  }

  lemma KeptFirstShift(t: string, j: nat)
    requires t != "" && !Kept(t[0]) && KeptFirst(t[1..], j)
    ensures KeptFirst(t, j + 1) && t[j + 1] == t[1..][j]
  {
    forall k | 0 <= k < j + 1
      ensures !Kept(t[k])
    {
      if k > 0 {
        assert t[k] == t[1..][k - 1];
      }
    }
  }

  lemma {:induction false} NothingKept(t: string)
    requires DropControls(t) == ""
    ensures forall k :: 0 <= k < |t| ==> !Kept(t[k])
  {
    if t != "" {
      NothingKept(t[1..]);
      assert forall k :: 0 < k < |t| ==> t[1..][k - 1] == t[k];
    }
  }

  lemma {:induction false} FirstKept(t: string) returns (j: nat)
    requires DropControls(t) != ""
    ensures KeptFirst(t, j) && t[j] == DropControls(t)[0]
  {
    if Kept(t[0]) {
      j := 0;
    } else {
      var i := FirstKept(t[1..]);
      KeptFirstShift(t, i);
      j := i + 1;
    }
  }

  lemma GlueShift(r: string, i: nat, j: nat)
    requires r != ""
    ensures Glued(r[1..], i, j) <==> Glued(r, i + 1, j + 1)
  {
    assert forall k :: 0 < k < |r| ==> r[1..][k - 1] == r[k];
    if Glued(r, i + 1, j + 1) {
      forall k | i < k < j
        ensures !Kept(r[1..][k])
      {
        assert r[1..][k] == r[k + 1];
      }
    }
  }

  /** Something is glued in the text iff in its tail, or at its front. */
  lemma GlueTail(r: string)
    requires r != ""
    ensures AnyGlued(r) <==> AnyGlued(r[1..]) || exists j: nat :: Glued(r, 0, j)
  {
    if i: nat, j: nat :| Glued(r, i, j) && i > 0 {
      GlueShift(r, i - 1, j - 1);
      assert Glued(r[1..], i - 1, j - 1);
    }
    if i: nat, j: nat :| Glued(r[1..], i, j) {
      GlueShift(r, i, j);
      assert Glued(r, i + 1, j + 1);
    }
  }

  lemma GlueNone(r: string, j: nat)
    requires r != "" && DropControls(r[1..]) == ""
    ensures !Glued(r, 0, j)
  {
    NothingKept(r[1..]);
    if 0 < j < |r| {
      assert r[j] == r[1..][j - 1];
    }
  }

  lemma GlueFirst(r: string, first: nat)
    requires r != "" && Ink(r[0]) && KeptFirst(r[1..], first)
    ensures (exists j: nat :: Glued(r, 0, j)) <==> !Kept(r[1]) && !IsSpace(r[1..][first])
  {
    assert r[first + 1] == r[1..][first];
    forall k | 0 < k < first + 1
      ensures !Kept(r[k])
    {
      assert r[k] == r[1..][k - 1];
    }
    if j: nat :| Glued(r, 0, j) {
      assert j == first + 1;
    }
    if !Kept(r[1]) && !IsSpace(r[1..][first]) {
      assert Glued(r, 0, first + 1);
    }
  }

  /** The first character is glued iff a dropped one follows and the first kept one is a letter. */
  lemma GlueFront(r: string)
    requires r != "" && Ink(r[0])
    ensures (exists j: nat :: Glued(r, 0, j)) <==>
            |r| > 1 && !Kept(r[1]) && DropControls(r[1..]) != "" && !IsSpace(DropControls(r[1..])[0])
  {
    if DropControls(r[1..]) == "" {
      forall j: nat
        ensures !Glued(r, 0, j)
      {
        GlueNone(r, j);
      }
    } else {
      var first := FirstKept(r[1..]);
      GlueFirst(r, first);
    }
  }

  /** What dropping does to the words, the same as what it glues. */
  ghost predicate DropsAsGlued(r: string) {
    && |Words(DropControls(r))| <= |Words(r)|
    && (AnyGlued(r) ==> |Words(DropControls(r))| < |Words(r)|)
    && (!AnyGlued(r) ==> Words(DropControls(r)) == Words(r))
  }

  lemma DropFrontInk(r: string)
    requires DropsOnlySpace(r) && r != "" && Ink(r[0]) && DropsAsGlued(r[1..])
    ensures DropsAsGlued(r)
  {
    var (t, d) := (r[1..], DropControls(r[1..]));
    DropsOnlySpaceTail(r);
    GlueTail(r);
    assert DropControls(r) == [r[0]] + d && ([r[0]] + d)[1..] == d;
    GlueFront(r);
    if t != "" && Kept(t[0]) {
      assert d[0] == t[0];
    }
  }

  lemma DropFrontSpace(r: string)
    requires DropsOnlySpace(r) && r != "" && !Ink(r[0]) && DropsAsGlued(r[1..])
    ensures DropsAsGlued(r)
  {
    var d := DropControls(r[1..]);
    DropsOnlySpaceTail(r);
    GlueTail(r);
    if Kept(r[0]) {
      assert ([r[0]] + d)[1..] == d;
    } else {
      assert DropControls(r) == d;
    }
  }

  lemma {:induction false} DropWords(r: string)
    requires DropsOnlySpace(r)
    ensures DropsAsGlued(r)
  {
    if r != "" {
      DropsOnlySpaceTail(r);
      DropWords(r[1..]);
      if Ink(r[0]) {
        DropFrontInk(r);
      } else {
        DropFrontSpace(r);
      }
    }
  }

  /**
   Cleaning keeps the words of a text iff no dropped character is part of a word and no two words
   are parted by dropped characters alone.
   */
  lemma CleanKeepsWordsIff(s: string)
    ensures Words(Clean(s)) == Words(s) <==> DropsOnlySpace(Unified(s)) && !AnyGlued(Unified(s))
  {
    var r := Unified(s);
    CleanKeepsWords(s);
    UnifiedWords(s);
    DropSolids(r);
    LettersOfWords(r);
    LettersOfWords(DropControls(r));
    if DropsOnlySpace(r) {
      DropWords(r);
    }
  }

  /** Two words parted by a tab become one. */
  lemma TabJoinsWords()
    ensures Clean("a\tb") == "ab"
  {
    ControlJoinsNeighbours("a\tb", "ab");
  }

  /* ---- Line breaks ---- */

  lemma CrLfStep(c: char, rest: string)
    requires !(c == '\r' && rest != "" && rest[0] == '\n')
    ensures ReplaceCrLf([c] + rest) == [c] + ReplaceCrLf(rest)
  {
    assert ([c] + rest)[1..] == rest;
  }

  lemma CrLfPair(rest: string)
    ensures ReplaceCrLf("\r\n" + rest) == "\n" + ReplaceCrLf(rest)
  {
    assert ("\r\n" + rest)[2..] == rest;
  }

  lemma Reassociate(a: string, b: string, c: string)
    ensures (a + b) + c == a + (b + c)
  {
  }

  lemma {:induction false} CrLfAppend(a: string, b: string)
    requires a == "" || a[|a| - 1] != '\r'
    ensures ReplaceCrLf(a + b) == ReplaceCrLf(a) + ReplaceCrLf(b)
    decreases |a|
  {
    if a == "" {
      assert a + b == b;
    } else if |a| >= 2 && a[0] == '\r' && a[1] == '\n' {
      var rest := a[2..];
      assert a == "\r\n" + rest;
      Reassociate("\r\n", rest, b);
      CrLfAppend(rest, b);
      CrLfPair(rest);
      CrLfPair(rest + b);
      Reassociate("\n", ReplaceCrLf(rest), ReplaceCrLf(b));
    } else {
      var rest := a[1..];
      assert a == [a[0]] + rest;
      Reassociate([a[0]], rest, b);
      CrLfAppend(rest, b);
      CrLfStep(a[0], rest);
      CrLfStep(a[0], rest + b);
      Reassociate([a[0]], ReplaceCrLf(rest), ReplaceCrLf(b));
    }
  }

  lemma CrAppend(a: string, b: string)
    ensures ReplaceCr(a + b) == ReplaceCr(a) + ReplaceCr(b)
  {
  }

  lemma BreakUnified(newline: string, b: string)
    requires newline == "\n" || newline == "\r\n" || (newline == "\r" && (b == "" || b[0] != '\n'))
    ensures ReplaceCr(ReplaceCrLf(newline + b)) == "\n" + Unified(b)
  {
    if newline == "\r\n" {
      assert (newline + b)[2..] == b;
    } else {
      assert (newline + b)[1..] == b;
    }
    var rest := ReplaceCrLf(b);
    CrAppend([newline[0]], rest);
    CrAppend("\n", rest);
    assert ReplaceCr("\r") == "\n" == ReplaceCr("\n");
  }

  /** A carriage return, a newline and both together end a line alike. */
  lemma LineBreaksAgree(a: string, newline: string, b: string)
    requires a == "" || a[|a| - 1] != '\r'
    requires newline == "\n" || newline == "\r\n" || (newline == "\r" && (b == "" || b[0] != '\n'))
    ensures Unified(a + newline + b) == Unified(a) + "\n" + Unified(b)
    ensures Clean(a + newline + b) == Clean(a + "\n" + b)
  {
    UnifiedAt(a, newline, b);
    UnifiedAt(a, "\n", b);
    assert Visible(a + newline + b) == DropControls(Unified(a + newline + b));
    assert Visible(a + "\n" + b) == DropControls(Unified(a + "\n" + b));
  }

  lemma UnifiedAt(a: string, newline: string, b: string)
    requires a == "" || a[|a| - 1] != '\r'
    requires newline == "\n" || newline == "\r\n" || (newline == "\r" && (b == "" || b[0] != '\n'))
    ensures Unified(a + newline + b) == Unified(a) + "\n" + Unified(b)
  {
    assert a + newline + b == a + (newline + b);
    CrLfAppend(a, newline + b);
    CrAppend(ReplaceCrLf(a), ReplaceCrLf(newline + b));
    BreakUnified(newline, b);
  }
}
