/** Python's stable sort in descending order of a key: equal keys keep their order. */
module StableSort {

  function Insert<T>(x: T, sorted: seq<T>, key: T -> real): seq<T> {
    if sorted == [] || key(sorted[0]) <= key(x) then [x] + sorted
    else [sorted[0]] + Insert(x, sorted[1..], key)
  }

  function Sort<T>(s: seq<T>, key: T -> real): seq<T> {
    if s == [] then [] else Insert(s[0], Sort(s[1..], key), key)
  }

  ghost predicate Descending<T>(s: seq<T>, key: T -> real) {
    forall i, j :: 0 <= i < j < |s| ==> key(s[i]) >= key(s[j])
  }

  ghost predicate Distinct<T>(s: seq<T>) {
    forall i, j :: 0 <= i < j < |s| ==> s[i] != s[j]
  }

  /** Where `x` first occurs in `s`, or the length of `s`. */
  function Position<T(==)>(s: seq<T>, x: T): (p: nat)
    ensures p <= |s| && (p < |s| <==> x in s)
    ensures p < |s| ==> s[p] == x
  {
    if s == [] then 0 else if s[0] == x then 0 else 1 + Position(s[1..], x)
  }

  ghost predicate Precedes<T>(x: T, y: T, original: seq<T>, key: T -> real) {
    key(x) > key(y) || (key(x) == key(y) && Position(original, x) < Position(original, y))
  }

  /** Every pair of `s` is ordered by key, and equal keys by their position in `original`. */
  ghost predicate Ranked<T>(s: seq<T>, original: seq<T>, key: T -> real) {
    forall i, j :: 0 <= i < j < |s| ==> Precedes(s[i], s[j], original, key)
  }

  ghost predicate UpTo<T>(s: seq<T>, key: T -> real, bound: real) {
    forall i :: 0 <= i < |s| ==> key(s[i]) <= bound
  }

  lemma UpToTail<T>(s: seq<T>, key: T -> real, bound: real)
    requires s != [] && UpTo(s, key, bound)
    ensures UpTo(s[1..], key, bound)
  {
    assert forall i :: 0 <= i < |s[1..]| ==> s[1..][i] == s[i + 1];
  }

  lemma {:induction false} InsertUpTo<T>(x: T, s: seq<T>, key: T -> real, bound: real)
    requires key(x) <= bound && UpTo(s, key, bound)
    ensures UpTo(Insert(x, s, key), key, bound)
  {
    if s != [] && !(key(s[0]) <= key(x)) {
      UpToTail(s, key, bound);
      InsertUpTo(x, s[1..], key, bound);
    }
  }

  lemma DescendingFront<T>(x: T, s: seq<T>, key: T -> real)
    ensures Descending([x] + s, key) <==> UpTo(s, key, key(x)) && Descending(s, key)
  {
    var all := [x] + s;
    assert forall i :: 0 <= i < |s| ==> all[i + 1] == s[i];
    if Descending(all, key) {
      forall i, j | 0 <= i < j < |s|
        ensures key(s[i]) >= key(s[j])
      {
        assert key(all[i + 1]) >= key(all[j + 1]);
      }
      forall i | 0 <= i < |s|
        ensures key(s[i]) <= key(x)
      {
        assert key(all[0]) >= key(all[i + 1]);
      }
    }
  }

  lemma {:induction false} InsertDescending<T>(x: T, s: seq<T>, key: T -> real)
    requires Descending(s, key)
    ensures Descending(Insert(x, s, key), key)
  {
    if s != [] {
      assert s == [s[0]] + s[1..];
      DescendingFront(s[0], s[1..], key);
      if key(s[0]) <= key(x) {
        DescendingFront(x, s, key);
      } else {
        InsertDescending(x, s[1..], key);
        InsertUpTo(x, s[1..], key, key(s[0]));
        DescendingFront(s[0], Insert(x, s[1..], key), key);
      }
    }
  }

  lemma {:induction false} InsertPermutes<T>(x: T, s: seq<T>, key: T -> real)
    ensures multiset(Insert(x, s, key)) == multiset{x} + multiset(s)
    ensures |Insert(x, s, key)| == |s| + 1
  {
    if s != [] && !(key(s[0]) <= key(x)) {
      InsertPermutes(x, s[1..], key);
      assert s == [s[0]] + s[1..];
    }
  }

  lemma {:induction false} SortPermutes<T>(s: seq<T>, key: T -> real)
    ensures multiset(Sort(s, key)) == multiset(s)
    ensures |Sort(s, key)| == |s|
  {
    if s != [] {
      SortPermutes(s[1..], key);
      InsertPermutes(s[0], Sort(s[1..], key), key);
      assert s == [s[0]] + s[1..];
    }
  }

  lemma {:induction false} SortDescending<T>(s: seq<T>, key: T -> real)
    ensures Descending(Sort(s, key), key)
  {
    if s != [] {
      SortDescending(s[1..], key);
      InsertDescending(s[0], Sort(s[1..], key), key);
    }
  }

  lemma SortProperties<T>(s: seq<T>, key: T -> real)
    ensures Descending(Sort(s, key), key)
    ensures multiset(Sort(s, key)) == multiset(s)
    ensures |Sort(s, key)| == |s|
  {
    SortPermutes(s, key);
    SortDescending(s, key);
  }

  lemma RankedFront<T>(x: T, s: seq<T>, original: seq<T>, key: T -> real)
    ensures Ranked([x] + s, original, key) <==>
            Ranked(s, original, key) && forall i :: 0 <= i < |s| ==> Precedes(x, s[i], original, key)
  {
    var all := [x] + s;
    assert forall i :: 0 <= i < |s| ==> all[i + 1] == s[i];
    if Ranked(all, original, key) {
      forall i, j | 0 <= i < j < |s|
        ensures Precedes(s[i], s[j], original, key)
      {
        assert Precedes(all[i + 1], all[j + 1], original, key);
      }
      forall i | 0 <= i < |s|
        ensures Precedes(x, s[i], original, key)
      {
        assert Precedes(all[0], all[i + 1], original, key);
      }
    }
  }

  lemma {:induction false} InsertPreceded<T>(y: T, x: T, s: seq<T>, original: seq<T>, key: T -> real)
    requires Precedes(y, x, original, key) && forall i :: 0 <= i < |s| ==> Precedes(y, s[i], original, key)
    ensures forall i :: 0 <= i < |Insert(x, s, key)| ==> Precedes(y, Insert(x, s, key)[i], original, key)
  {
    if s != [] && !(key(s[0]) <= key(x)) {
      assert forall i :: 0 <= i < |s[1..]| ==> s[1..][i] == s[i + 1];
      InsertPreceded(y, x, s[1..], original, key);
    }
  }

  lemma {:induction false} InsertRanked<T>(x: T, s: seq<T>, original: seq<T>, key: T -> real)
    requires Ranked(s, original, key)
    requires forall i :: 0 <= i < |s| ==> Position(original, x) < Position(original, s[i])
    ensures Ranked(Insert(x, s, key), original, key)
  {
    if s == [] {
      RankedFront(x, s, original, key);
    } else {
      var rest := s[1..];
      assert s == [s[0]] + rest && forall i :: 0 <= i < |rest| ==> rest[i] == s[i + 1];
      RankedFront(s[0], rest, original, key);
      if key(s[0]) <= key(x) {
        assert forall i :: 0 <= i < |s| ==> i == 0 || Precedes(s[0], s[i], original, key);
        RankedFront(x, s, original, key);
      } else {
        InsertRanked(x, rest, original, key);
        InsertPreceded(s[0], x, rest, original, key);
        RankedFront(s[0], Insert(x, rest, key), original, key);
      }
    }
  }

  /** Sorting distinct elements orders them by key, ties by their original position. */
  lemma {:induction false} SortRanked<T>(s: seq<T>, key: T -> real)
    requires Distinct(s)
    ensures Ranked(Sort(s, key), s, key)
    ensures Distinct(Sort(s, key))
    ensures forall x :: x in Sort(s, key) <==> x in s
  {
    SortRankedFrom(s, 0, key);
    SortProperties(s, key);
    assert s[0..] == s;
    forall x
      ensures x in Sort(s, key) <==> x in s
    {
      assert x in Sort(s, key) <==> x in multiset(Sort(s, key));
    }
    forall i, j | 0 <= i < j < |Sort(s, key)|
      ensures Sort(s, key)[i] != Sort(s, key)[j]
    {
    }
  }

  lemma {:induction false} SortRankedFrom<T>(s: seq<T>, from: nat, key: T -> real)
    requires Distinct(s) && from <= |s|
    ensures Ranked(Sort(s[from..], key), s, key)
    decreases |s| - from
  {
    if from < |s| {
      SortRankedFrom(s, from + 1, key);
      SortProperties(s[from + 1..], key);
      var rest := Sort(s[from + 1..], key);
      assert s[from..][1..] == s[from + 1..];
      forall i | 0 <= i < |rest|
        ensures Position(s, s[from]) < Position(s, rest[i])
      {
        assert rest[i] in multiset(rest);
        var j :| 0 <= j < |s[from + 1..]| && s[from + 1..][j] == rest[i];
        PositionOf(s, from);
        PositionOf(s, from + 1 + j);
      }
      InsertRanked(s[from], rest, s, key);
    }
  }

  lemma PositionOf<T>(s: seq<T>, i: nat)
    requires Distinct(s) && i < |s|
    ensures Position(s, s[i]) == i
  {
    var p := Position(s, s[i]);
    assert s[p] == s[i];
  }

  /** A list already in order is left as it is. */
  lemma {:induction false} SortedUnchanged<T>(s: seq<T>, key: T -> real)
    requires Descending(s, key)
    ensures Sort(s, key) == s
  {
    if s != [] {
      assert forall i :: 0 <= i < |s[1..]| ==> s[1..][i] == s[i + 1];
      SortedUnchanged(s[1..], key);
      if |s| > 1 {
        assert s[1..][0] == s[1];
      }
    }
  }

  lemma {:induction false} InsertSameKeys<T>(x: T, s: seq<T>, key: T -> real, other: T -> real)
    requires key(x) == other(x) && forall i :: 0 <= i < |s| ==> key(s[i]) == other(s[i])
    ensures Insert(x, s, key) == Insert(x, s, other)
  {
    if s != [] {
      assert forall i :: 0 <= i < |s[1..]| ==> s[1..][i] == s[i + 1];
      InsertSameKeys(x, s[1..], key, other);
    }
  }

  /** The order depends only on the keys of the elements sorted. */
  lemma {:induction false} SortSameKeys<T>(s: seq<T>, key: T -> real, other: T -> real)
    requires forall i :: 0 <= i < |s| ==> key(s[i]) == other(s[i])
    ensures Sort(s, key) == Sort(s, other)
  {
    if s != [] {
      assert forall i :: 0 <= i < |s[1..]| ==> s[1..][i] == s[i + 1];
      SortSameKeys(s[1..], key, other);
      SortProperties(s[1..], key);
      forall i | 0 <= i < |Sort(s[1..], key)|
        ensures key(Sort(s[1..], key)[i]) == other(Sort(s[1..], key)[i])
      {
        assert Sort(s[1..], key)[i] in multiset(Sort(s[1..], key));
        var j :| 0 <= j < |s[1..]| && s[1..][j] == Sort(s[1..], key)[i];
      }
      InsertSameKeys(s[0], Sort(s[1..], key), key, other);
    }
  }
}
