/**
 Cleaning extracted text: one newline convention, no control characters, single spaces, no
 padding and no empty lines.  The cleaned texts are exactly those that cleaning leaves alone.
 */
module TextCleaning {
  import opened Strings

  function ReplaceCrLf(s: string): string {
    if s == "" then ""
    else if |s| >= 2 && s[0] == '\r' && s[1] == '\n' then "\n" + ReplaceCrLf(s[2..])
    else [s[0]] + ReplaceCrLf(s[1..])
  }

  function ReplaceCr(s: string): string {
    seq(|s|, i requires 0 <= i < |s| => if s[i] == '\r' then '\n' else s[i])
  }

  predicate Kept(c: char) {
    c == '\n' || c >= ' '
  }

  function DropControls(s: string): (r: string)
    ensures forall c :: c in r ==> c in s && Kept(c)
  {
    if s == "" then "" else (if Kept(s[0]) then [s[0]] else "") + DropControls(s[1..])
  }

  predicate IsBlank(c: char) {
    c == ' ' || c == '\t'
  }

  /** Every run of tabs and spaces becomes one space. */
  function CollapseRuns(s: string): string {
    if s == "" then ""
    else if !IsBlank(s[0]) then [s[0]] + CollapseRuns(s[1..])
    else if |s| >= 2 && IsBlank(s[1]) then CollapseRuns(s[1..])
    else " " + CollapseRuns(s[1..])
  }

  function CleanLine(line: string): string {
    Strip(CollapseRuns(line))
  }

  function CleanEach(lines: seq<string>): seq<string> {
    seq(|lines|, i requires 0 <= i < |lines| => CleanLine(lines[i]))
  }

  function NonEmpty(lines: seq<string>): (r: seq<string>)
    ensures forall l :: l in r <==> l in lines && l != ""
  {
    if lines == [] then [] else (if lines[0] != "" then [lines[0]] else []) + NonEmpty(lines[1..])
  }

  function CleanLines(lines: seq<string>): seq<string> {
    NonEmpty(CleanEach(lines))
  }

  /** The text after the newline and control character steps. */
  function Visible(s: string): string {
    DropControls(ReplaceCr(ReplaceCrLf(s)))
  }

  function Clean(s: string): string {
    Join(CleanLines(Split(Visible(s), '\n')), '\n')
  }

  /** The whole function, with Unicode normalization as a parameter. */
  function CleanText(normalize: string -> string, value: string): string {
    Clean(normalize(value))
  }

  /* ---- What clean text is ---- */

  predicate CharactersClean(line: string) {
    forall i :: 0 <= i < |line| ==> line[i] >= ' '
  }

  predicate NoDoubledSpace(line: string) {
    forall i :: 0 <= i < |line| - 1 ==> line[i] != ' ' || line[i + 1] != ' '
  }

  predicate IsCleanLine(line: string) {
    && line != "" && !IsSpace(line[0]) && !IsSpace(line[|line| - 1])
    && CharactersClean(line) && NoDoubledSpace(line)
  }

  predicate IsClean(text: string) {
    text == "" || forall l :: l in Split(text, '\n') ==> IsCleanLine(l)
  }

  lemma {:induction false} CollapseCleans(s: string)
    requires CharactersClean(s)
    ensures var r := CollapseRuns(s);
      && CharactersClean(r) && NoDoubledSpace(r)
      && (r == "" <==> s == "")
      && (s != "" ==> r[0] == s[0])
  {
    if s != "" {
      CollapseCleans(s[1..]);
    }
  }

  lemma SliceCleans(s: string, from: nat, to: nat)
    requires from <= to <= |s| && CharactersClean(s) && NoDoubledSpace(s)
    ensures CharactersClean(s[from..to]) && NoDoubledSpace(s[from..to])
  {
  }

  lemma StripCleans(s: string)
    requires CharactersClean(s) && NoDoubledSpace(s)
    ensures CharactersClean(Strip(s)) && NoDoubledSpace(Strip(s))
  {
    var (start, r) := (StripStart(s), Strip(s));
    SliceCleans(s, |s| - |start|, |s|);
    assert start == s[|s| - |start|..|s|];
    SliceCleans(start, 0, |r|);
    assert r == start[0..|r|];
  }

  lemma CleanLineCleans(line: string)
    requires CharactersClean(line) && CleanLine(line) != ""
    ensures IsCleanLine(CleanLine(line))
  {
    CollapseCleans(line);
    StripCleans(CollapseRuns(line));
    StripEnds(CollapseRuns(line));
  }

  lemma CleanLinesClean(lines: seq<string>)
    requires forall i :: 0 <= i < |lines| ==> CharactersClean(lines[i])
    ensures forall l :: l in CleanLines(lines) ==> IsCleanLine(l)
  {
    forall l | l in CleanLines(lines)
      ensures IsCleanLine(l)
    {
      var i :| 0 <= i < |lines| && CleanEach(lines)[i] == l;
      CleanLineCleans(lines[i]);
    }
  }

  lemma {:induction false} SplitCharacters(s: string)
    requires forall c :: c in s ==> Kept(c)
    ensures forall i :: 0 <= i < |Split(s, '\n')| ==> CharactersClean(Split(s, '\n')[i])
  {
    if s != "" {
      assert forall c :: c in s[1..] ==> c in s;
      SplitCharacters(s[1..]);
      assert s[0] in s;
    }
  }

  lemma {:induction false} SplitWhole(line: string)
    requires CharactersClean(line)
    ensures Split(line, '\n') == [line]
  {
    if line != "" {
      SplitWhole(line[1..]);
      assert [line[0]] + line[1..] == line;
    }
  }

  lemma {:induction false} SplitJoin(lines: seq<string>)
    requires lines != [] && forall i :: 0 <= i < |lines| ==> CharactersClean(lines[i])
    ensures Split(Join(lines, '\n'), '\n') == lines
  {
    SplitWhole(lines[0]);
    if |lines| > 1 {
      SplitJoin(lines[1..]);
      SplitAppend(lines[0], Join(lines[1..], '\n'), '\n');
    }
  }

  /** The output has no control characters but newlines, doubled spaces, blank or padded lines. */
  lemma CleanIsClean(s: string)
    ensures IsClean(Clean(s))
  {
    SplitCharacters(Visible(s));
    CleanLinesClean(Split(Visible(s), '\n'));
    JoinIsClean(CleanLines(Split(Visible(s), '\n')));
  }

  lemma JoinIsClean(lines: seq<string>)
    requires forall l :: l in lines ==> IsCleanLine(l)
    ensures IsClean(Join(lines, '\n'))
  {
    if lines != [] {
      assert forall i :: 0 <= i < |lines| ==> lines[i] in lines;
      SplitJoin(lines);
    }
  }

  /* ---- Clean text is left alone ---- */

  lemma {:induction false} VisibleUnchanged(s: string)
    requires forall c :: c in s ==> Kept(c)
    ensures Visible(s) == s
  {
    CrLfUnchanged(s);
    assert ReplaceCr(s) == s by {
      forall i | 0 <= i < |s|
        ensures s[i] != '\r'
      {
        assert s[i] in s;
      }
    }
    DropUnchanged(s);
  }

  lemma {:induction false} CrLfUnchanged(s: string)
    requires forall c :: c in s ==> Kept(c)
    ensures ReplaceCrLf(s) == s
  {
    if s != "" {
      assert s[0] in s && forall c :: c in s[1..] ==> c in s;
      CrLfUnchanged(s[1..]);
    }
  }

  lemma {:induction false} DropUnchanged(s: string)
    requires forall c :: c in s ==> Kept(c)
    ensures DropControls(s) == s
  {
    if s != "" {
      assert s[0] in s && forall c :: c in s[1..] ==> c in s;
      DropUnchanged(s[1..]);
    }
  }

  lemma {:induction false} CollapseUnchanged(s: string)
    requires CharactersClean(s) && NoDoubledSpace(s)
    ensures CollapseRuns(s) == s
  {
    if s != "" {
      assert forall i :: 0 <= i < |s[1..]| ==> s[1..][i] == s[i + 1];
      CollapseUnchanged(s[1..]);
      if |s| >= 2 {
        assert s[0] != ' ' || s[0 + 1] != ' ';
      }
    }
  }

  lemma {:induction false} NonEmptyUnchanged(lines: seq<string>)
    requires "" !in lines
    ensures NonEmpty(lines) == lines
  {
    if lines != [] {
      NonEmptyUnchanged(lines[1..]);
    }
  }

  lemma CleanLineUnchanged(line: string)
    requires IsCleanLine(line)
    ensures CleanLine(line) == line
  {
    CollapseUnchanged(line);
    StripFixedIff(line);
  }

  lemma CleanLinesUnchanged(lines: seq<string>)
    requires forall l :: l in lines ==> IsCleanLine(l)
    ensures CleanLines(lines) == lines
  {
    forall i | 0 <= i < |lines|
      ensures CleanEach(lines)[i] == lines[i]
    {
      assert lines[i] in lines;
      CleanLineUnchanged(lines[i]);
    }
    assert CleanEach(lines) == lines;
    NonEmptyUnchanged(lines);
  }

  lemma {:induction false} JoinKept(lines: seq<string>)
    requires forall i :: 0 <= i < |lines| ==> CharactersClean(lines[i])
    ensures forall c :: c in Join(lines, '\n') ==> Kept(c)
  {
    if |lines| > 1 {
      JoinKept(lines[1..]);
    }
  }

  lemma JoinedLinesUnchanged(lines: seq<string>)
    requires lines != [] && forall l :: l in lines ==> IsCleanLine(l)
    ensures Clean(Join(lines, '\n')) == Join(lines, '\n')
  {
    assert forall i :: 0 <= i < |lines| ==> lines[i] in lines;
    JoinKept(lines);
    VisibleUnchanged(Join(lines, '\n'));
    SplitJoin(lines);
    CleanLinesUnchanged(lines);
  }

  lemma CleanUnchanged(text: string)
    requires IsClean(text)
    ensures Clean(text) == text
  {
    if text == "" {
      assert CleanLines([""]) == [];
    } else {
      JoinSplit(text, '\n');
      JoinedLinesUnchanged(Split(text, '\n'));
    }
  }

  /** Cleaning leaves a text alone iff it is clean. */
  lemma CleanFixedIff(text: string)
    ensures Clean(text) == text <==> IsClean(text)
  {
    CleanIsClean(text);
    if IsClean(text) {
      CleanUnchanged(text);
    }
  }

  /**
   Cleaning stored text again, as the rebuild of canonical records does, gives the stored text
   whenever normalization leaves it alone; offsets found in one then index the other.  As long as
   normalization does not itself bring in something to clean, that is the only way.
   */
  lemma CleaningAgain(normalize: string -> string, value: string)
    ensures var stored := CleanText(normalize, value);
      && (normalize(stored) == stored ==> CleanText(normalize, stored) == stored)
      && (IsClean(normalize(stored)) ==> (CleanText(normalize, stored) == stored <==> normalize(stored) == stored))
  {
    CleanIsClean(normalize(value));
    CleanFixedIff(CleanText(normalize, value));
    CleanFixedIff(normalize(CleanText(normalize, value)));
  }

  predicate Plain(s: string) {
    forall i :: 0 <= i < |s| ==> s[i] > ' ' && !IsSpace(s[i])
  }

  lemma PlainUnchanged(s: string)
    requires s != "" && Plain(s)
    ensures Visible(s) == s && Clean(s) == s
  {
    VisibleUnchanged(s);
    SplitWhole(s);
    assert IsCleanLine(s);
    CleanFixedIff(s);
  }

  lemma VisibleDrops(a: char, control: char, b: char)
    requires a > ' ' && b > ' ' && !Kept(control) && control != '\r'
    ensures Visible([a, control, b]) == [a, b]
  {
    var s := [a, control, b];
    assert s[1..] == [control, b] && s[1..][1..] == [b] && [b][1..] == [];
    assert ReplaceCrLf([b]) == [b] && ReplaceCrLf([control, b]) == [control, b] && ReplaceCrLf(s) == s;
    assert ReplaceCr(s) == s;
    assert DropControls([b]) == [b] && DropControls([control, b]) == [b];
  }

  lemma SameVisible(s: string, t: string)
    requires Visible(s) == Visible(t)
    ensures Clean(s) == Clean(t)
  {
  }

  /** A dropped control character, a tab among them, leaves its neighbours adjacent. */
  lemma ControlJoinsNeighbours(s: string, joined: string)
    requires |s| == 3 && joined == [s[0], s[2]] && Plain(joined) && !Kept(s[1]) && s[1] != '\r'
    ensures Visible(s) == joined && Clean(s) == joined
  {
    assert s == [s[0], s[1], s[2]] && joined[0] == s[0] && joined[1] == s[2];
    VisibleDrops(s[0], s[1], s[2]);
    PlainUnchanged(joined);
    SameVisible(s, joined);
  }

  /**
   Normalization does not always leave it alone: it runs before control characters are dropped,
   so a base letter and a mark parted by one are composed only the second time.
   */
  lemma DroppedControlComposes(normalize: string -> string, value: string, stored: string, composed: string)
    requires |stored| == 2 && |composed| == 1 && value == [stored[0], 1 as char, stored[1]]
    requires Plain(stored) && Plain(composed)
    requires normalize(value) == value && normalize(stored) == composed
    ensures CleanText(normalize, value) == stored && CleanText(normalize, stored) == composed
  {
    ControlJoinsNeighbours(value, stored);
    PlainUnchanged(stored);
    PlainUnchanged(composed);
  }

  /* ---- Words ---- */

  lemma {:induction false} StripKeepsWords(s: string)
    ensures Words(Strip(s)) == Words(s)
  {
    StripStartKeepsWords(s);
    StripEndKeepsWords(StripStart(s));
  }

  lemma {:induction false} StripStartKeepsWords(s: string)
    ensures Words(StripStart(s)) == Words(s)
  {
    if s != "" && IsSpace(s[0]) {
      StripStartKeepsWords(s[1..]);
    }
  }

  lemma {:induction false} StripEndKeepsWords(s: string)
    ensures Words(StripEnd(s)) == Words(s)
  {
    if s != "" && IsSpace(s[|s| - 1]) {
      var rest := s[..|s| - 1];
      StripEndKeepsWords(rest);
      WordsAppend(rest, s[|s| - 1], "");
      assert rest + [s[|s| - 1]] + "" == s;
      assert Words(rest) + [] == Words(rest);
    }
  }

  lemma {:induction false} CollapseKeepsWords(s: string)
    ensures Words(CollapseRuns(s)) == Words(s)
    ensures CollapseRuns(s) == "" <==> s == ""
    ensures s != "" ==> (IsSpace(CollapseRuns(s)[0]) <==> IsSpace(s[0]))
  {
    if s != "" {
      CollapseKeepsWords(s[1..]);
      var r := CollapseRuns(s[1..]);
      if !IsBlank(s[0]) {
        assert ([s[0]] + r)[1..] == r;
      } else {
        assert (" " + r)[1..] == r;
      }
    }
  }

  function WordsOfLines(lines: seq<string>): seq<string> {
    if lines == [] then [] else Words(lines[0]) + WordsOfLines(lines[1..])
  }

  lemma {:induction false} JoinWords(lines: seq<string>)
    ensures Words(Join(lines, '\n')) == WordsOfLines(lines)
  {
    if |lines| == 1 {
      assert lines[1..] == [] && Words(lines[0]) + [] == Words(lines[0]);
    } else if lines != [] {
      JoinWords(lines[1..]);
      WordsAppend(lines[0], '\n', Join(lines[1..], '\n'));
    }
  }

  lemma {:induction false} NonEmptyKeepsWords(lines: seq<string>)
    ensures WordsOfLines(NonEmpty(lines)) == WordsOfLines(lines)
  {
    if lines != [] {
      NonEmptyKeepsWords(lines[1..]);
      if lines[0] != "" {
        assert NonEmpty(lines)[1..] == NonEmpty(lines[1..]);
      } else {
        assert NonEmpty(lines) == NonEmpty(lines[1..]) && Words("") + WordsOfLines(lines[1..]) == WordsOfLines(lines[1..]);
      }
    }
  }

  lemma CleanLineKeepsWords(line: string)
    ensures Words(CleanLine(line)) == Words(line)
  {
    CollapseKeepsWords(line);
    StripKeepsWords(CollapseRuns(line));
  }

  lemma {:induction false} SameWords(a: seq<string>, b: seq<string>)
    requires |a| == |b| && forall i :: 0 <= i < |a| ==> Words(a[i]) == Words(b[i])
    ensures WordsOfLines(a) == WordsOfLines(b)
  {
    if a != [] {
      assert forall i :: 0 <= i < |a[1..]| ==> a[1..][i] == a[i + 1] && b[1..][i] == b[i + 1];
      SameWords(a[1..], b[1..]);
      assert Words(a[0]) == Words(b[0]);
    }
  }

  lemma CleanEachKeepsWords(lines: seq<string>)
    ensures WordsOfLines(CleanEach(lines)) == WordsOfLines(lines)
  {
    forall i | 0 <= i < |lines|
      ensures Words(CleanEach(lines)[i]) == Words(lines[i])
    {
      CleanLineKeepsWords(lines[i]);
    }
    SameWords(CleanEach(lines), lines);
  }

  /** Past the control characters, cleaning only moves white space: the words stay, in order. */
  lemma CleanKeepsWords(s: string)
    ensures Words(Clean(s)) == Words(Visible(s))
  {
    var lines := Split(Visible(s), '\n');
    JoinWords(CleanLines(lines));
    NonEmptyKeepsWords(CleanEach(lines));
    CleanEachKeepsWords(lines);
    JoinSplit(Visible(s), '\n');
    JoinWords(lines);
  }
}
