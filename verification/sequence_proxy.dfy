/** `utils.SequenceProxy`: a read-only view over a live collection that copies
    the collection (sorting it when asked) on the first read and then serves
    every read from that copy. Nothing ever discards the copy: the proxy has no
    invalidation, so a proxy kept across a mutation of its backing collection
    answers from the old copy. The guild avoids this by building a new proxy
    on every property access.

    The backing collection is owned by the caller and may change between
    calls, so each operation receives its current contents. Reads return the
    updated proxy together with their answer. */
module SequenceProxy {
  import opened Wrappers
  import Sorting
  import Seqs

  /** `copied` is the cached copy, absent until the first read. */
  datatype Proxy<T> = Proxy(sorted: bool, copied: Option<seq<T>>)

  /** `SequenceProxy(proxied, sorted=...)`: nothing is copied yet. */
  function New<T>(sorted: bool): (p: Proxy<T>)
    ensures p.copied.None? && p.sorted == sorted
  {
    Proxy(sorted, None)
  }

  /** The cached `__copied` property: `sorted(proxied)` or `list(proxied)` on
      first access, the cached list on every later one. */
  function Materialize<T(!new)>(p: Proxy<T>, backing: seq<T>, le: (T, T) -> bool): (r: (Proxy<T>, seq<T>))
    ensures r.0 == Proxy(p.sorted, Some(r.1))
    ensures p.copied.Some? ==> r.1 == p.copied.value
    ensures p.copied.None? ==> multiset(r.1) == multiset(backing)
    ensures p.copied.None? && !p.sorted ==> r.1 == backing
    ensures p.copied.None? && p.sorted && Sorting.TotalPreorder(le) ==> Sorting.Sorted(r.1, le)
  {
    match p.copied
    case Some(c) => (p, c)
    case None =>
      var c := if p.sorted then Sorting.Sort(backing, le) else backing;
      (Proxy(p.sorted, Some(c)), c)
  }

  /** `__len__`: the live size of the backing collection until the first read,
      the size of the copy afterwards (the copy replaces the backing reference). */
  function Len<T>(p: Proxy<T>, backing: seq<T>): (n: nat)
    ensures p.copied.None? ==> n == |backing|
    ensures p.copied.Some? ==> n == |p.copied.value|
  {
    match p.copied
    case Some(c) => |c|
    case None => |backing|
  }

  /** Python list indexing: negative indices count from the end. */
  function ResolveIndex(n: nat, idx: int): (r: Option<nat>)
    ensures r.Some? <==> -(n as int) <= idx < n
    ensures r.Some? ==> r.value < n && (r.value == idx || r.value == idx + n)
  {
    if 0 <= idx < n then Some(idx)
    else if -(n as int) <= idx < 0 then Some(idx + n)
    else None
  }

  /** `__getitem__` with an integer index; `IndexError` outside the copy. */
  function GetItem<T(!new)>(p: Proxy<T>, backing: seq<T>, le: (T, T) -> bool, idx: int): (r: (Proxy<T>, Result<T>))
    ensures r.0 == Materialize(p, backing, le).0
    ensures var c := Materialize(p, backing, le).1;
            && (r.1.Failure? <==> !(-|c| <= idx < |c|))
            && (r.1.Failure? ==> r.1.error == IndexError)
            && (r.1.Success? ==> r.1.value == c[if idx < 0 then idx + |c| else idx])
  {
    var (q, c) := Materialize(p, backing, le);
    match ResolveIndex(|c|, idx)
    case Some(i) => (q, Success(c[i]))
    case None => (q, Failure(IndexError))
  }

  /** `__contains__`: membership in the copy. */
  function Contains<T(!new, ==)>(p: Proxy<T>, backing: seq<T>, le: (T, T) -> bool, x: T): (r: (Proxy<T>, bool))
    ensures r.0 == Materialize(p, backing, le).0
    ensures r.1 <==> x in Materialize(p, backing, le).1
    ensures p.copied.None? ==> (r.1 <==> x in backing)
  {
    var (q, c) := Materialize(p, backing, le);
    assert p.copied.None? ==> (x in c <==> x in backing) by {
      if p.copied.None? {
        assert x in c <==> x in multiset(c);
        assert x in backing <==> x in multiset(backing);
      }
    }
    (q, x in c)
  }

  /** `count`: occurrences in the copy. */
  function Count<T(!new, ==)>(p: Proxy<T>, backing: seq<T>, le: (T, T) -> bool, x: T): (r: (Proxy<T>, nat))
    ensures r.0 == Materialize(p, backing, le).0
    ensures r.1 == multiset(Materialize(p, backing, le).1)[x]
    ensures p.copied.None? ==> r.1 == multiset(backing)[x]
  {
    var (q, c) := Materialize(p, backing, le);
    (q, multiset(c)[x])
  }

  /** `index` without bounds: the first position of `x` in the copy, or
      `ValueError`. */
  function Index<T(!new, ==)>(p: Proxy<T>, backing: seq<T>, le: (T, T) -> bool, x: T): (r: (Proxy<T>, Result<nat>))
    ensures r.0 == Materialize(p, backing, le).0
    ensures var c := Materialize(p, backing, le).1;
            && (r.1.Failure? <==> x !in c)
            && (r.1.Failure? ==> r.1.error == ValueError)
            && (r.1.Success? ==> r.1.value < |c| && c[r.1.value] == x && forall j :: 0 <= j < r.1.value ==> c[j] != x)
  {
    var (q, c) := Materialize(p, backing, le);
    if x in c then (q, Success(Seqs.IndexOf(c, x))) else (q, Failure(ValueError))
  }

  /** `__iter__` and `__reversed__`: the copy, forwards or backwards. */
  function Iterate<T(!new)>(p: Proxy<T>, backing: seq<T>, le: (T, T) -> bool, reversed: bool): (r: (Proxy<T>, seq<T>))
    ensures r.0 == Materialize(p, backing, le).0
    ensures |r.1| == |Materialize(p, backing, le).1|
    ensures forall i :: 0 <= i < |r.1| ==>
              r.1[i] == Materialize(p, backing, le).1[if reversed then |r.1| - 1 - i else i]
  {
    var (q, c) := Materialize(p, backing, le);
    if reversed then (q, seq(|c|, i requires 0 <= i < |c| => c[|c| - 1 - i])) else (q, c)
  }

  /** Once a proxy has been read, later reads return the same copy whatever
      the backing collection has become: the proxy never notices mutation. */
  lemma RepeatedReadsStable<T(!new)>(p: Proxy<T>, b1: seq<T>, b2: seq<T>, le: (T, T) -> bool)
    ensures var (q, c1) := Materialize(p, b1, le);
            && Materialize(q, b2, le) == (q, c1)
            && Len(q, b2) == |c1|
  {
  }

  /** A proxy built after a mutation sees the mutated collection: its copy is
      a permutation of the current contents (sorted when requested), and its
      length before any read is the live length. */
  lemma FreshProxySeesCurrent<T(!new)>(sorted: bool, backing: seq<T>, le: (T, T) -> bool)
    requires Sorting.TotalPreorder(le)
    ensures Len(New(sorted), backing) == |backing|
    ensures multiset(Materialize(New(sorted), backing, le).1) == multiset(backing)
    ensures sorted ==> Sorting.Sorted(Materialize(New(sorted), backing, le).1, le)
    ensures !sorted ==> Materialize(New(sorted), backing, le).1 == backing
  {
  }
}
