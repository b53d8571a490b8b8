/** Generic list helpers of `discord/utils.py`: `_find`, `_get`, `_unique`,
    plus the filtering and flattening that the comprehensions of the guild
    cache are built from. Python lists and iterables are Dafny sequences. */
module Seqs {
  import opened Wrappers

  /** No element occurs twice. */
  ghost predicate Distinct<T>(s: seq<T>) {
    forall i, j :: 0 <= i < j < |s| ==> s[i] != s[j]
  }

  /** `[x for x in s if p(x)]`: keeps exactly the elements satisfying `p`, in order. */
  function Filter<T>(s: seq<T>, p: T -> bool): (r: seq<T>)
    ensures |r| <= |s|
    ensures forall i :: 0 <= i < |r| ==> r[i] in s && p(r[i])
    ensures forall i :: 0 <= i < |s| && p(s[i]) ==> s[i] in r
    ensures multiset(r) <= multiset(s)
  {
    if s == [] then []
    else
      assert s == [s[0]] + s[1..];
      (if p(s[0]) then [s[0]] else []) + Filter(s[1..], p)
  }

  lemma {:induction false} FilterConcat<T>(a: seq<T>, b: seq<T>, p: T -> bool)
    ensures Filter(a + b, p) == Filter(a, p) + Filter(b, p)
    decreases |a|
  {
    if a == [] {
      assert a + b == b;
    } else {
      assert (a + b)[1..] == a[1..] + b;
      FilterConcat(a[1..], b, p);
    }
  }

  /** The tail of a duplicate-free list is duplicate-free and misses the head. */
  lemma DistinctTail<T>(s: seq<T>)
    requires Distinct(s) && s != []
    ensures Distinct(s[1..]) && s[0] !in s[1..]
  {
    var t := s[1..];
    forall i, j | 0 <= i < j < |t| ensures t[i] != t[j] {
      assert t[i] == s[i + 1] && t[j] == s[j + 1];
    }
    forall k | 0 <= k < |t| ensures t[k] != s[0] {
      assert t[k] == s[k + 1];
    }
  }

  /** A fresh head on a duplicate-free list keeps it duplicate-free. */
  lemma DistinctCons<T>(x: T, t: seq<T>)
    requires Distinct(t) && x !in t
    ensures Distinct([x] + t)
  {
    var r := [x] + t;
    forall i, j | 0 <= i < j < |r| ensures r[i] != r[j] {
      assert r[j] == t[j - 1];
      if i > 0 {
        assert r[i] == t[i - 1];
      }
    }
  }

  /** Filtering keeps a duplicate-free list duplicate-free. */
  lemma {:induction false} FilterDistinct<T>(s: seq<T>, p: T -> bool)
    requires Distinct(s)
    ensures Distinct(Filter(s, p))
    decreases |s|
  {
    if s != [] {
      var t := s[1..];
      DistinctTail(s);
      FilterDistinct(t, p);
      var ft := Filter(t, p);
      assert Filter(s, p) == (if p(s[0]) then [s[0]] else []) + ft;
      if p(s[0]) {
        forall k | 0 <= k < |ft| ensures ft[k] != s[0] {
          assert ft[k] in t;
        }
        DistinctCons(s[0], ft);
      } else {
        assert Filter(s, p) == ft;
      }
    }
  }

  /** Index of the first element satisfying `p`, or `|s|` when there is none. */
  function FindIndex<T>(p: T -> bool, s: seq<T>): (i: nat)
    ensures i <= |s|
    ensures forall j :: 0 <= j < i ==> !p(s[j])
    ensures i < |s| ==> p(s[i])
  {
    if s == [] then 0
    else if p(s[0]) then 0
    else 1 + FindIndex(p, s[1..])
  }

  /** `utils._find`: the first element satisfying the predicate, else `None`. */
  function Find<T>(p: T -> bool, s: seq<T>): (r: Option<T>)
    ensures r.None? <==> forall i :: 0 <= i < |s| ==> !p(s[i])
    ensures r.Some? ==> p(r.value) && r.value in s
    ensures r.Some? ==> exists i :: 0 <= i < |s| && s[i] == r.value && forall j :: 0 <= j < i ==> !p(s[j])
  {
    var i := FindIndex(p, s);
    if i < |s| then Some(s[i]) else None
  }

  /** Every `(getter, value)` pair of `_get`'s keyword arguments matches `x`. */
  predicate MatchesAll<T, A(==)>(x: T, attrs: seq<(T -> A, A)>) {
    forall k :: 0 <= k < |attrs| ==> attrs[k].0(x) == attrs[k].1
  }

  /** `utils._get`: the first element whose attributes equal all the given
      values. One attribute takes a dedicated fast path in the source; both
      paths compute the same predicate. With no attributes, `all([])` holds,
      so the first element (if any) is returned. */
  function Get<T, A(==)>(s: seq<T>, attrs: seq<(T -> A, A)>): (r: Option<T>)
    ensures r.None? <==> forall i :: 0 <= i < |s| ==> !MatchesAll(s[i], attrs)
    ensures r.Some? ==> MatchesAll(r.value, attrs) && r.value in s
    ensures r.Some? ==> exists i :: 0 <= i < |s| && s[i] == r.value && forall j :: 0 <= j < i ==> !MatchesAll(s[j], attrs)
    ensures |attrs| == 0 ==> r == (if |s| == 0 then None else Some(s[0]))
  {
    if |attrs| == 1 then
      var getter := attrs[0].0;
      var v := attrs[0].1;
      assert forall i :: 0 <= i < |s| ==> (MatchesAll(s[i], attrs) <==> getter(s[i]) == v);
      Find((x: T) => getter(x) == v, s)
    else
      Find((x: T) => MatchesAll(x, attrs), s)
  }

  /** Position of the first occurrence of `x` in `s`. */
  function IndexOf<T(==)>(s: seq<T>, x: T): (i: nat)
    requires x in s
    ensures i < |s| && s[i] == x
    ensures forall j :: 0 <= j < i ==> s[j] != x
  {
    if s[0] == x then 0 else 1 + IndexOf(s[1..], x)
  }

  /** The first occurrence of `x` in a prefix is its first occurrence in the whole. */
  lemma IndexOfPrefix<T>(s: seq<T>, k: nat, x: T)
    requires k <= |s| && x in s[..k]
    ensures IndexOf(s, x) == IndexOf(s[..k], x)
  {
    var a := IndexOf(s, x);
    var b := IndexOf(s[..k], x);
    assert s[..k][b] == s[b];
    assert a <= b;
    assert s[..k][a] == s[a];
  }

  /** `utils._unique`: `list(dict.fromkeys(s))`, the elements of `s` without
      repetitions, each kept at the place of its first occurrence. */
  function Unique<T(==)>(s: seq<T>): (r: seq<T>)
    ensures Distinct(r)
    ensures forall i :: 0 <= i < |r| ==> r[i] in s
    ensures forall i :: 0 <= i < |s| ==> s[i] in r
    decreases |s|
  {
    if s == [] then []
    else
      var init := s[..|s| - 1];
      var last := s[|s| - 1];
      var u := Unique(init);
      assert forall i :: 0 <= i < |s| - 1 ==> s[i] == init[i];
      if last in u then u
      else
        var r := u + [last];
        assert forall i :: 0 <= i < |u| ==> r[i] == u[i];
        r
  }

  /** The elements of `Unique(s)` are listed in the order of their first
      occurrences in `s` (dict keys remember their first insertion). */
  lemma {:induction false} UniqueFirstOccurrenceOrder<T>(s: seq<T>)
    ensures forall i, j :: 0 <= i < j < |Unique(s)| ==> IndexOf(s, Unique(s)[i]) < IndexOf(s, Unique(s)[j])
    decreases |s|
  {
    if s != [] {
      var init := s[..|s| - 1];
      var last := s[|s| - 1];
      var u := Unique(init);
      UniqueFirstOccurrenceOrder(init);
      assert s == init + [last];
      forall x | x in u ensures IndexOf(s, x) == IndexOf(init, x) && IndexOf(init, x) < |s| - 1 {
        assert x in init;
        assert init == s[..|s| - 1];
        IndexOfPrefix(s, |s| - 1, x);
      }
      if last !in u {
        var r := u + [last];
        assert Unique(s) == r;
        assert last !in init;
        assert IndexOf(s, last) == |s| - 1;
        forall i, j | 0 <= i < j < |r| ensures IndexOf(s, r[i]) < IndexOf(s, r[j]) {
          assert r[i] == u[i] && r[i] in u;
          if j < |u| {
            assert r[j] == u[j] && r[j] in u;
          }
        }
      }
    }
  }

  /** Concatenation of a list of lists. */
  function Flatten<T>(ss: seq<seq<T>>): (r: seq<T>)
  {
    if ss == [] then [] else ss[0] + Flatten(ss[1..])
  }

  lemma {:induction false} FlattenAppend<T>(ss: seq<seq<T>>, c: seq<T>)
    ensures Flatten(ss + [c]) == Flatten(ss) + c
    decreases |ss|
  {
    if ss == [] {
      assert [c][1..] == [];
    } else {
      assert (ss + [c])[1..] == ss[1..] + [c];
      FlattenAppend(ss[1..], c);
    }
  }

  /** A duplicate-free list holds each value at most once. */
  lemma {:induction false} DistinctMultiplicity<T>(s: seq<T>, x: T)
    requires Distinct(s)
    ensures multiset(s)[x] <= 1
    decreases |s|
  {
    if s != [] {
      var t := s[1..];
      assert s == [s[0]] + t;
      assert Distinct(t) by {
        forall i, j | 0 <= i < j < |t| ensures t[i] != t[j] {
          assert t[i] == s[i + 1] && t[j] == s[j + 1];
        }
      }
      DistinctMultiplicity(t, x);
      if s[0] == x {
        assert x !in t by {
          forall k | 0 <= k < |t| ensures t[k] != x {
            assert t[k] == s[k + 1];
          }
        }
      }
    }
  }

  /** A rearrangement of a duplicate-free list is duplicate-free. */
  lemma DistinctPermutation<T>(s: seq<T>, t: seq<T>)
    requires Distinct(s) && multiset(s) == multiset(t)
    ensures Distinct(t)
  {
    forall i, j | 0 <= i < j < |t| ensures t[i] != t[j] {
      if t[i] == t[j] {
        assert t == t[..j] + t[j..];
        assert t[i] in multiset(t[..j]) by {
          assert t[..j][i] == t[i];
        }
        assert t[j] in multiset(t[j..]) by {
          assert t[j..][0] == t[j];
        }
        assert multiset(t)[t[i]] >= 2;
        DistinctMultiplicity(s, t[i]);
        assert false;
      }
    }
  }

  /** Filtering keeps every occurrence of the values it accepts. */
  lemma {:induction false} FilterMultiplicity<T>(s: seq<T>, p: T -> bool, x: T)
    ensures multiset(Filter(s, p))[x] == if p(x) then multiset(s)[x] else 0
    decreases |s|
  {
    if s != [] {
      assert s == [s[0]] + s[1..];
      FilterMultiplicity(s[1..], p, x);
    }
  }

  /** Filtering two rearrangements of a list gives rearrangements of each other. */
  lemma FilterPermutation<T>(s: seq<T>, t: seq<T>, p: T -> bool)
    requires multiset(s) == multiset(t)
    ensures multiset(Filter(s, p)) == multiset(Filter(t, p))
    ensures |Filter(s, p)| == |Filter(t, p)|
  {
    forall x ensures multiset(Filter(s, p))[x] == multiset(Filter(t, p))[x] {
      FilterMultiplicity(s, p, x);
      FilterMultiplicity(t, p, x);
    }
    assert multiset(Filter(s, p)) == multiset(Filter(t, p));
    assert |Filter(s, p)| == |multiset(Filter(s, p))|;
    assert |Filter(t, p)| == |multiset(Filter(t, p))|;
  }

  /** Nothing in a list whose filtering is empty passes the filter. */
  lemma FilterEmptyNonePass<T>(s: seq<T>, p: T -> bool, i: nat)
    requires Filter(s, p) == [] && i < |s|
    ensures !p(s[i])
  {
  }

  /** A list whose every element passes the filter is kept whole. */
  lemma {:induction false} FilterAllPass<T>(s: seq<T>, p: T -> bool)
    requires forall i :: 0 <= i < |s| ==> p(s[i])
    ensures Filter(s, p) == s
    decreases |s|
  {
    if s != [] {
      FilterAllPass(s[1..], p);
    }
  }

  /** When only the head fails the filter, filtering drops the head. */
  lemma FilterDropsHead<T>(s: seq<T>, p: T -> bool)
    requires s != [] && !p(s[0])
    requires forall j :: 0 < j < |s| ==> p(s[j])
    ensures Filter(s, p) == s[1..]
  {
    var t := s[1..];
    forall j | 0 <= j < |t| ensures p(t[j]) {
      assert t[j] == s[j + 1];
    }
    FilterAllPass(t, p);
  }

  /** When only the element at `i` fails the filter, filtering removes exactly
      that position. */
  lemma {:induction false} FilterDropsOne<T>(s: seq<T>, p: T -> bool, i: nat)
    requires i < |s| && !p(s[i])
    requires forall j :: 0 <= j < |s| && j != i ==> p(s[j])
    ensures Filter(s, p) == s[..i] + s[i + 1..]
    decreases i
  {
    if i == 0 {
      FilterDropsHead(s, p);
      assert s[..i] + s[i + 1..] == s[1..];
    } else {
      var t := s[1..];
      forall j | 0 <= j < |t| && j != i - 1 ensures p(t[j]) {
        assert t[j] == s[j + 1];
      }
      FilterDropsOne(t, p, i - 1);
      assert p(s[0]);
      assert Filter(s, p) == [s[0]] + Filter(t, p);
      DropAfterHead(s, i);
    }
  }

  /** Removing position `i > 0` commutes with taking the head off. */
  lemma DropAfterHead<T>(s: seq<T>, i: nat)
    requires 0 < i < |s|
    ensures s[..i] + s[i + 1..] == [s[0]] + (s[1..][..i - 1] + s[1..][i..])
  {
    assert s[..i] == [s[0]] + s[1..][..i - 1];
    assert s[i + 1..] == s[1..][i..];
  }

  /** Filtering a list extended by one element. */
  lemma FilterSnoc<T>(s: seq<T>, x: T, p: T -> bool)
    ensures Filter(s + [x], p) == Filter(s, p) + (if p(x) then [x] else [])
  {
    FilterConcat(s, [x], p);
    assert [x][1..] == [];
  }
}
