/** `utils.SnowflakeList`: an `array('Q')` of 64-bit unsigned IDs kept in
    ascending order, searched with `bisect_left`.

    The array type code 'Q' rejects values outside 0..2^64-1 with
    `OverflowError`; elements are therefore `U64`. Lookups compare against
    any Python int, so their argument is an `int`. */
module SnowflakeList {
  import opened Wrappers
  import Sorting

  const U64_LIMIT: int := 0x1_0000_0000_0000_0000

  type U64 = x: int | 0 <= x < U64_LIMIT

  ghost predicate Ascending(a: seq<U64>) {
    forall i, j :: 0 <= i < j < |a| ==> a[i] <= a[j]
  }

  /** The natural order of Python ints, as a comparison for `sorted`. */
  function IntLe(x: U64, y: U64): bool {
    x <= y
  }

  lemma IntLeTotalPreorder()
    ensures Sorting.TotalPreorder(IntLe)
  {
  }

  /** `SnowflakeList(data, is_sorted=...)`: sorts the data unless the caller
      vouches that it already is; a vouched-for list is stored unchecked. */
  function New(data: seq<U64>, isSorted: bool): (r: seq<U64>)
    ensures isSorted ==> r == data
    ensures !isSorted ==> Ascending(r) && multiset(r) == multiset(data)
  {
    if |data| == 0 then []
    else if isSorted then data
    else
      var r := Sorting.Sort(data, IntLe);
      IntLeTotalPreorder();
      assert Sorting.Sorted(r, IntLe);
      assert Ascending(r) by {
        forall i, j | 0 <= i < j < |r| ensures r[i] <= r[j] {
          assert IntLe(r[i], r[j]);
        }
      }
      r
  }

  /** One step of CPython's `bisect_left` loop on the window `lo..hi`. */
  function BisectFrom(a: seq<U64>, x: int, lo: nat, hi: nat): (i: nat)
    requires lo <= hi <= |a|
    ensures lo <= i <= hi
    ensures Ascending(a) && (forall j :: 0 <= j < lo ==> a[j] < x) && (forall j :: hi <= j < |a| ==> a[j] >= x)
            ==> (forall j :: 0 <= j < i ==> a[j] < x) && (forall j :: i <= j < |a| ==> a[j] >= x)
    decreases hi - lo
  {
    if lo < hi then
      var mid := (lo + hi) / 2;
      if a[mid] < x then BisectFrom(a, x, mid + 1, hi) else BisectFrom(a, x, lo, mid)
    else lo
  }

  /** `bisect_left(a, x)`: on an ascending array, the first index whose element
      is not below `x`; everything before it is below `x`. */
  function BisectLeft(a: seq<U64>, x: int): (i: nat)
    ensures i <= |a|
    ensures Ascending(a) ==> (forall j :: 0 <= j < i ==> a[j] < x) && (forall j :: i <= j < |a| ==> a[j] >= x)
  {
    BisectFrom(a, x, 0, |a|)
  }

  /** Inserting at a split point whose left part is below `x` and whose right
      part is not keeps an ascending array ascending. */
  lemma InsertAscending(a: seq<U64>, x: U64, i: nat)
    requires Ascending(a) && i <= |a|
    requires forall j :: 0 <= j < i ==> a[j] < x
    requires forall j :: i <= j < |a| ==> a[j] >= x
    ensures Ascending(a[..i] + [x] + a[i..])
  {
    var r := a[..i] + [x] + a[i..];
    assert forall j :: 0 <= j < i ==> r[j] == a[j];
    assert r[i] == x;
    assert forall j :: i < j < |r| ==> r[j] == a[j - 1];
    forall p, q | 0 <= p < q < |r| ensures r[p] <= r[q] {
      if q < i {
      } else if q == i {
      } else if p < i {
        assert a[p] < x <= a[q - 1];
      } else if p == i {
      } else {
        assert r[p] == a[p - 1] && r[q] == a[q - 1];
      }
    }
  }

  /** `add`: inserts at the `bisect_left` position. A value already present is
      inserted again, in front of its equals; nothing is deduplicated. */
  function Add(a: seq<U64>, x: U64): (r: seq<U64>)
    ensures |r| == |a| + 1
    ensures multiset(r) == multiset(a) + multiset{x}
    ensures Ascending(a) ==> Ascending(r)
    ensures Ascending(a) ==> exists i :: 0 <= i <= |a| && r == a[..i] + [x] + a[i..]
                                          && (forall j :: 0 <= j < i ==> a[j] < x)
                                          && (forall j :: i <= j < |a| ==> a[j] >= x)
  {
    var i := BisectLeft(a, x);
    var r := a[..i] + [x] + a[i..];
    assert a == a[..i] + a[i..];
    assert Ascending(a) ==> Ascending(r) by {
      if Ascending(a) {
        InsertAscending(a, x, i);
      }
    }
    r
  }

  /** `has`: membership by binary search; exact on an ascending array. */
  function Has(a: seq<U64>, x: int): (r: bool)
    ensures r ==> x in a
    ensures Ascending(a) ==> (r <==> x in a)
  {
    var i := BisectLeft(a, x);
    i != |a| && a[i] == x
  }

  /** `get`: the stored element equal to `x`, or `None`. */
  function Get(a: seq<U64>, x: int): (r: Option<U64>)
    ensures r.Some? ==> r.value == x && x in a
    ensures Ascending(a) ==> (r.Some? <==> x in a)
  {
    var i := BisectLeft(a, x);
    if i != |a| && a[i] == x then Some(a[i]) else None
  }

  /** After `add(x)`, `has(x)` holds and every earlier member is still found. */
  lemma AddThenHas(a: seq<U64>, x: U64, y: int)
    requires Ascending(a)
    ensures Has(Add(a, x), x)
    ensures Has(a, y) ==> Has(Add(a, x), y)
  {
    var r := Add(a, x);
    assert x in multiset(r);
    if Has(a, y) {
      assert y in multiset(a);
      assert y in multiset(r);
    }
  }

  /** Adding a value that is already present lengthens the array: the copy
      count of `x` goes up by one (no set semantics). */
  lemma AddKeepsDuplicates(a: seq<U64>, x: U64)
    requires Has(a, x)
    ensures |Add(a, x)| == |a| + 1
    ensures multiset(Add(a, x))[x] == multiset(a)[x] + 1
    ensures multiset(Add(a, x))[x] >= 2
  {
    assert x in multiset(a);
  }
}
