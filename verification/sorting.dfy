/** Python's `sorted`/`list.sort`: a stable sort driven by a comparison.

    The comparison is given as `le(a, b)`, "a may stay before b", that is
    `not (b < a)` for the `<` the Python objects define. The sort is total on
    any comparison; its result is ordered when `le` is a total preorder
    (equivalently, when `<` is a strict weak order, as Python requires). */
module Sorting {

  ghost predicate TotalPreorder<T(!new)>(le: (T, T) -> bool) {
    && (forall a, b :: le(a, b) || le(b, a))
    && (forall a, b, c :: le(a, b) && le(b, c) ==> le(a, c))
  }

  /** Every earlier element may stay before every later one. */
  ghost predicate Sorted<T>(s: seq<T>, le: (T, T) -> bool) {
    forall i, j :: 0 <= i < j < |s| ==> le(s[i], s[j])
  }

  /** Places `x` before the first element it may precede; `x` goes in front of
      the elements equal to it, which keeps the sort stable. */
  function Insert<T(!new)>(x: T, t: seq<T>, le: (T, T) -> bool): (r: seq<T>)
    ensures multiset(r) == multiset(t) + multiset{x}
    ensures |r| == |t| + 1
    ensures TotalPreorder(le) && Sorted(t, le) ==> Sorted(r, le)
    decreases |t|
  {
    if t == [] then [x]
    else if le(x, t[0]) then
      PrependSorted(x, t, le);
      [x] + t
    else
      var rest := Insert(x, t[1..], le);
      assert t == [t[0]] + t[1..];
      AppendAfterHead(x, t, rest, le);
      [t[0]] + rest
  }

  /** An element that may precede the head of a sorted list may lead it. */
  lemma PrependSorted<T(!new)>(x: T, t: seq<T>, le: (T, T) -> bool)
    requires t != [] && le(x, t[0])
    ensures TotalPreorder(le) && Sorted(t, le) ==> Sorted([x] + t, le)
  {
    if TotalPreorder(le) && Sorted(t, le) {
      var r := [x] + t;
      forall i, j | 0 <= i < j < |r| ensures le(r[i], r[j]) {
        if i == 0 && j > 1 {
          assert le(t[0], t[j - 1]);
        }
      }
    }
  }

  /** When `x` goes past the head, the head may still lead: it precedes `x`
      and every other element of the sorted tail. */
  lemma AppendAfterHead<T(!new)>(x: T, t: seq<T>, rest: seq<T>, le: (T, T) -> bool)
    requires t != [] && !le(x, t[0])
    requires multiset(rest) == multiset(t[1..]) + multiset{x}
    requires TotalPreorder(le) && Sorted(t[1..], le) ==> Sorted(rest, le)
    ensures TotalPreorder(le) && Sorted(t, le) ==> Sorted([t[0]] + rest, le)
  {
    if TotalPreorder(le) && Sorted(t, le) {
      var r := [t[0]] + rest;
      assert le(t[0], x);
      assert Sorted(t[1..], le) by {
        forall i, j | 0 <= i < j < |t[1..]| ensures le(t[1..][i], t[1..][j]) {
          assert t[1..][i] == t[i + 1] && t[1..][j] == t[j + 1];
        }
      }
      forall j | 0 < j < |r| ensures le(r[0], r[j]) {
        var y := rest[j - 1];
        assert y in multiset(rest);
        if y != x {
          assert y in multiset(t[1..]);
          var k :| 0 <= k < |t[1..]| && t[1..][k] == y;
          assert t[k + 1] == y;
        }
      }
    }
  }

  /** `sorted(s)`: a stable insertion sort. */
  function Sort<T(!new)>(s: seq<T>, le: (T, T) -> bool): (r: seq<T>)
    ensures multiset(r) == multiset(s)
    ensures |r| == |s|
    ensures TotalPreorder(le) ==> Sorted(r, le)
    decreases |s|
  {
    if s == [] then []
    else
      assert s == [s[0]] + s[1..];
      Insert(s[0], Sort(s[1..], le), le)
  }

  /** Elements of a permutation are the elements of the original. */
  lemma SameElements<T>(a: seq<T>, b: seq<T>, i: nat)
    requires multiset(a) == multiset(b) && i < |a|
    ensures a[i] in b
  {
    assert a[i] in multiset(a);
  }

  /** Two sorted arrangements of the same elements coincide when the order
      separates every two distinct elements: a sorted listing is unique. */
  lemma {:induction false} SortedUnique<T>(a: seq<T>, b: seq<T>, le: (T, T) -> bool)
    requires multiset(a) == multiset(b)
    requires Sorted(a, le) && Sorted(b, le)
    requires forall x, y :: x in a && y in a && le(x, y) && le(y, x) ==> x == y
    ensures a == b
    decreases |a|
  {
    assert |a| == |multiset(a)| == |multiset(b)| == |b|;
    if a != [] {
      SameElements(a, b, 0);
      SameElements(b, a, 0);
      var j :| 0 <= j < |b| && b[j] == a[0];
      var i :| 0 <= i < |a| && a[i] == b[0];
      assert a[0] == b[0];
      assert a == [a[0]] + a[1..] && b == [b[0]] + b[1..];
      assert multiset(a) == multiset{a[0]} + multiset(a[1..]);
      assert multiset(b) == multiset{a[0]} + multiset(b[1..]);
      forall x ensures multiset(a[1..])[x] == multiset(b[1..])[x] {
        assert multiset(a)[x] == multiset{a[0]}[x] + multiset(a[1..])[x];
        assert multiset(b)[x] == multiset{a[0]}[x] + multiset(b[1..])[x];
      }
      assert multiset(a[1..]) == multiset(b[1..]);
      forall x, y | x in a[1..] && y in a[1..] && le(x, y) && le(y, x) ensures x == y {
        assert x in a && y in a;
      }
      SortedUnique(a[1..], b[1..], le);
    }
  }
}
