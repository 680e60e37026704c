/** Duplicate removal and numeric sorting of level lists: the
    `[...new Set(values)].sort(compare)` step of the support/resistance
    detector. `Set` keeps the first occurrence of each value in insertion
    order; the comparator `b - a` sorts descending and `a - b` ascending. */
module Ordering {

  /** `a` sorts strictly before `b`: larger first when `desc`, smaller first
      otherwise. */
  predicate Precedes(a: real, b: real, desc: bool)
  {
    if desc then a > b else a < b
  }

  /** No value occurs twice. */
  ghost predicate NoDuplicates<T>(s: seq<T>)
  {
    forall i, j :: 0 <= i < j < |s| ==> s[i] != s[j]
  }

  /** No element sorts strictly before an earlier one. */
  ghost predicate Ordered(s: seq<real>, desc: bool)
  {
    forall i, j :: 0 <= i < j < |s| ==> !Precedes(s[j], s[i], desc)
  }

  /** Every element sorts strictly before every later one. */
  ghost predicate StrictlyOrdered(s: seq<real>, desc: bool)
  {
    forall i, j :: 0 <= i < j < |s| ==> Precedes(s[i], s[j], desc)
  }

  /** Keeps the first occurrence of every value, in order. */
  function Dedup(s: seq<real>): (d: seq<real>)
    ensures forall x :: x in d <==> x in s
    ensures NoDuplicates(d)
    ensures |d| <= |s|
  {
    if |s| == 0 then []
    else
      var d := Dedup(s[..|s| - 1]);
      if s[|s| - 1] in d then d else d + [s[|s| - 1]]
  }

  /** Inserts `x` in front of the first element of `sorted` it does not
      sort after. */
  function Insert(x: real, sorted: seq<real>, desc: bool): (r: seq<real>)
    ensures |r| == |sorted| + 1
    ensures multiset(r) == multiset(sorted) + multiset{x}
  {
    if |sorted| == 0 || !Precedes(sorted[0], x, desc) then
      [x] + sorted
    else
      assert sorted == [sorted[0]] + sorted[1..];
      [sorted[0]] + Insert(x, sorted[1..], desc)
  }

  /** Insertion keeps a sequence ordered, and strictly ordered when the new
      value is not already present. */
  lemma {:induction false} InsertOrdered(x: real, sorted: seq<real>, desc: bool)
    requires Ordered(sorted, desc)
    ensures Ordered(Insert(x, sorted, desc), desc)
    ensures StrictlyOrdered(sorted, desc) && x !in sorted ==> StrictlyOrdered(Insert(x, sorted, desc), desc)
  {
    if |sorted| == 0 {
      assert Insert(x, sorted, desc) == [x];
    } else if !Precedes(sorted[0], x, desc) {
      assert Insert(x, sorted, desc) == [x] + sorted;
      InsertInFront(x, sorted, desc);
    } else {
      var rest := Insert(x, sorted[1..], desc);
      assert Insert(x, sorted, desc) == [sorted[0]] + rest;
      InsertOrdered(x, sorted[1..], desc);
      InsertElements(x, sorted[1..], desc);
      InsertBehind(x, sorted, rest, desc);
    }
  }

  /** The first case of `Insert`: `x` goes in front of everything. */
  lemma InsertInFront(x: real, sorted: seq<real>, desc: bool)
    requires Ordered(sorted, desc) && |sorted| > 0 && !Precedes(sorted[0], x, desc)
    ensures Ordered([x] + sorted, desc)
    ensures StrictlyOrdered(sorted, desc) && x !in sorted ==> StrictlyOrdered([x] + sorted, desc)
  {
    forall y | y in sorted ensures !Precedes(y, x, desc) {
      var k :| 0 <= k < |sorted| && sorted[k] == y;
      assert k == 0 || !Precedes(sorted[k], sorted[0], desc);
    }
    ConsOrdered(x, sorted, desc);
    if StrictlyOrdered(sorted, desc) && x !in sorted {
      forall y | y in sorted ensures Precedes(x, y, desc) {
        var k :| 0 <= k < |sorted| && sorted[k] == y;
        assert sorted[0] in sorted;
        assert k == 0 || Precedes(sorted[0], sorted[k], desc);
      }
      ConsStrictlyOrdered(x, sorted, desc);
    }
  }

  /** The second case of `Insert`: `x` goes after the first element. */
  lemma InsertBehind(x: real, sorted: seq<real>, rest: seq<real>, desc: bool)
    requires Ordered(sorted, desc) && |sorted| > 0 && Precedes(sorted[0], x, desc)
    requires Ordered(rest, desc)
    requires forall y :: y in rest <==> y == x || y in sorted[1..]
    requires StrictlyOrdered(sorted, desc) && x !in sorted ==> StrictlyOrdered(rest, desc)
    ensures Ordered([sorted[0]] + rest, desc)
    ensures StrictlyOrdered(sorted, desc) && x !in sorted ==> StrictlyOrdered([sorted[0]] + rest, desc)
  {
    forall y | y in rest ensures !Precedes(y, sorted[0], desc) {
      if y != x {
        var k :| 0 <= k < |sorted[1..]| && sorted[1..][k] == y;
        assert sorted[k + 1] == y;
      }
    }
    ConsOrdered(sorted[0], rest, desc);
    if StrictlyOrdered(sorted, desc) && x !in sorted {
      forall y | y in rest ensures Precedes(sorted[0], y, desc) {
        if y != x {
          var k :| 0 <= k < |sorted[1..]| && sorted[1..][k] == y;
          assert sorted[k + 1] == y;
        }
      }
      ConsStrictlyOrdered(sorted[0], rest, desc);
    }
  }

  /** `Insert` adds `x` and nothing else. */
  lemma InsertElements(x: real, sorted: seq<real>, desc: bool)
    ensures forall y :: y in Insert(x, sorted, desc) <==> y == x || y in sorted
  {
    var r := Insert(x, sorted, desc);
    forall y ensures y in r <==> y == x || y in sorted {
      assert y in r <==> y in multiset(r);
      assert y in sorted <==> y in multiset(sorted);
    }
  }

  /** Putting in front an element that no element sorts before keeps a
      sequence ordered. */
  lemma ConsOrdered(h: real, s: seq<real>, desc: bool)
    requires Ordered(s, desc)
    requires forall y :: y in s ==> !Precedes(y, h, desc)
    ensures Ordered([h] + s, desc)
  {
    var r := [h] + s;
    forall i, j | 0 <= i < j < |r| ensures !Precedes(r[j], r[i], desc) {
      assert r[j] == s[j - 1];
      if i == 0 {
        assert s[j - 1] in s;
      } else {
        assert r[i] == s[i - 1];
      }
    }
  }

  /** Putting in front an element that sorts before every element keeps a
      sequence strictly ordered. */
  lemma ConsStrictlyOrdered(h: real, s: seq<real>, desc: bool)
    requires StrictlyOrdered(s, desc)
    requires forall y :: y in s ==> Precedes(h, y, desc)
    ensures StrictlyOrdered([h] + s, desc)
  {
    var r := [h] + s;
    forall i, j | 0 <= i < j < |r| ensures Precedes(r[i], r[j], desc) {
      assert r[j] == s[j - 1];
      if i == 0 {
        assert s[j - 1] in s;
      } else {
        assert r[i] == s[i - 1];
      }
    }
  }

  /** Insertion sort: a permutation of `s` in the requested order. */
  function Sort(s: seq<real>, desc: bool): (r: seq<real>)
    ensures |r| == |s|
    ensures multiset(r) == multiset(s)
    ensures forall y :: y in r <==> y in s
    ensures Ordered(r, desc)
    ensures NoDuplicates(s) ==> StrictlyOrdered(r, desc)
  {
    if |s| == 0 then []
    else
      var init := s[..|s| - 1];
      assert s == init + [s[|s| - 1]];
      assert NoDuplicates(s) ==> NoDuplicates(init) && s[|s| - 1] !in init;
      var sortedInit := Sort(init, desc);
      InsertOrdered(s[|s| - 1], sortedInit, desc);
      SameMultisetSameElements(Insert(s[|s| - 1], sortedInit, desc), s);
      Insert(s[|s| - 1], sortedInit, desc)
  }

  lemma SameMultisetSameElements(a: seq<real>, b: seq<real>)
    requires multiset(a) == multiset(b)
    ensures forall y :: y in a <==> y in b
  {
    forall y ensures y in a <==> y in b {
      assert y in a <==> y in multiset(a);
      assert y in b <==> y in multiset(b);
    }
  }

  /** The distinct values of `s`, sorted. */
  function SortedDistinct(s: seq<real>, desc: bool): (r: seq<real>)
    ensures forall y :: y in r <==> y in s
    ensures StrictlyOrdered(r, desc)
  {
    Sort(Dedup(s), desc)
  }

  /** Two strictly ordered sequences with the same elements are equal, so the
      result of `SortedDistinct` does not depend on how the host sorts. */
  lemma {:induction false} StrictlyOrderedUnique(a: seq<real>, b: seq<real>, desc: bool)
    requires StrictlyOrdered(a, desc) && StrictlyOrdered(b, desc)
    requires forall y :: y in a <==> y in b
    ensures a == b
    decreases |a|
  {
    if |a| > 0 {
      var y := a[0];
      assert y in a;
      assert y in b;
    }
    if |b| > 0 {
      var y := b[0];
      assert y in b;
      assert y in a;
    }
    if |a| > 0 && |b| > 0 {
      assert a[0] in a && a[0] in b;
      assert b[0] in b && b[0] in a;
      forall y ensures y in a[1..] <==> y in b[1..] {
        if y in a[1..] {
          var k :| 1 <= k < |a| && a[k] == y;
          assert Precedes(a[0], y, desc);
          assert y in a;
          var m :| 0 <= m < |b| && b[m] == y;
          assert m != 0;
          assert b[m] == b[1..][m - 1];
        }
        if y in b[1..] {
          var k :| 1 <= k < |b| && b[k] == y;
          assert Precedes(b[0], y, desc);
          assert y in b;
          var m :| 0 <= m < |a| && a[m] == y;
          assert m != 0;
          assert a[m] == a[1..][m - 1];
        }
      }
      StrictlyOrderedUnique(a[1..], b[1..], desc);
      assert a == [a[0]] + a[1..] && b == [b[0]] + b[1..];
    }
  }
}
