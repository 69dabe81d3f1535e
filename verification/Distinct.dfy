/** Removing repetitions from a list while keeping the first occurrences in order. */
module Distinct {

  ghost predicate NoRepeats<T>(s: seq<T>) {
    forall i, j :: 0 <= i < j < |s| ==> s[i] != s[j]
  }

  /** Python's `tuple(dict.fromkeys(s))`. */
  function Firsts<T(==,!new)>(s: seq<T>): (r: seq<T>)
    ensures forall x :: x in r <==> x in s
  {
    if s == [] then [] else
    var (earlier, x) := (Firsts(s[..|s| - 1]), s[|s| - 1]);
    if x in earlier then earlier else earlier + [x]
  }

  lemma {:induction false} FirstsNoRepeats<T(!new)>(s: seq<T>)
    ensures NoRepeats(Firsts(s))
  {
    if s != [] {
      FirstsNoRepeats(s[..|s| - 1]);
    }
  }

  lemma FirstsSnoc<T(!new)>(s: seq<T>, x: T)
    ensures Firsts(s + [x]) == if x in Firsts(s) then Firsts(s) else Firsts(s) + [x]
  {
    assert (s + [x])[..|s|] == s;
  }

  lemma FirstsNext<T(!new)>(before: seq<T>, s: seq<T>, j: nat)
    requires j < |s|
    ensures var earlier := Firsts(before + s[..j]);
      Firsts(before + s[..j + 1]) == if s[j] in earlier then earlier else earlier + [s[j]]
  {
    assert before + s[..j + 1] == before + s[..j] + [s[j]];
    FirstsSnoc(before + s[..j], s[j]);
  }

  function Elements<T(==)>(s: seq<T>): set<T> {
    set x | x in s
  }

  lemma {:induction false} NoRepeatsCount<T>(s: seq<T>)
    requires NoRepeats(s)
    ensures |Elements(s)| == |s|
  {
    if s != [] {
      var (rest, x) := (s[..|s| - 1], s[|s| - 1]);
      NoRepeatsCount(rest);
      assert Elements(s) == Elements(rest) + {x};
    }
  }

  /** As many are kept as there are different elements. */
  lemma FirstsCount<T(!new)>(s: seq<T>)
    ensures |Firsts(s)| == |Elements(s)|
  {
    FirstsNoRepeats(s);
    NoRepeatsCount(Firsts(s));
    assert Elements(Firsts(s)) == Elements(s);
  }

  /** The elements of `s` in `kept`, in the order of `s`. */
  function Restrict<T(==,!new)>(s: seq<T>, kept: set<T>): (r: seq<T>)
    ensures forall x :: x in r <==> x in s && x in kept
  {
    if s == [] then [] else
    Restrict(s[..|s| - 1], kept) + (if s[|s| - 1] in kept then [s[|s| - 1]] else [])
  }

  /** `r` is what remains of `s` after leaving some elements out. */
  predicate Subsequence<T(==)>(r: seq<T>, s: seq<T>) {
    || r == []
    || (s != [] && r[|r| - 1] == s[|s| - 1] && Subsequence(r[..|r| - 1], s[..|s| - 1]))
    || (s != [] && Subsequence(r, s[..|s| - 1]))
  }

  lemma {:induction false} RestrictIsSubsequence<T(!new)>(s: seq<T>, kept: set<T>)
    ensures Subsequence(Restrict(s, kept), s)
  {
    if s != [] {
      RestrictIsSubsequence(s[..|s| - 1], kept);
      if s[|s| - 1] in kept {
        assert Restrict(s, kept)[..|Restrict(s, kept)| - 1] == Restrict(s[..|s| - 1], kept);
      } else {
        assert Restrict(s, kept) == Restrict(s[..|s| - 1], kept);
      }
    }
  }

  lemma {:induction false} RestrictNoRepeats<T(!new)>(s: seq<T>, kept: set<T>)
    requires NoRepeats(s)
    ensures NoRepeats(Restrict(s, kept))
  {
    if s != [] {
      RestrictNoRepeats(s[..|s| - 1], kept);
    }
  }
}
