/** Python's `dict` as the guild cache uses it: a map whose iteration order is
    the order in which keys were first inserted. Overwriting a key keeps its
    place; popping a key drops it from the order. */
module PyDict {
  import opened Wrappers
  import Seqs

  datatype RawDict<K, V> = RawDict(order: seq<K>, entries: map<K, V>)

  /** The order lists every key exactly once. */
  ghost predicate Wf<K(!new), V>(d: RawDict<K, V>) {
    && Seqs.Distinct(d.order)
    && (forall k :: k in d.entries <==> k in d.order)
  }

  type Dict<K(!new), V> = d: RawDict<K, V> | Wf(d) witness RawDict([], map[])

  function Empty<K(!new), V>(): (r: Dict<K, V>)
    ensures forall k :: k !in r.entries
  {
    RawDict([], map[])
  }

  /** `d.get(k)`. */
  function Get<K(!new), V>(d: Dict<K, V>, k: K): (r: Option<V>)
    ensures r.Some? <==> k in d.order
    ensures r.Some? ==> k in d.entries && d.entries[k] == r.value
  {
    if k in d.entries then Some(d.entries[k]) else None
  }

  /** `len(d)`. */
  function Len<K(!new), V>(d: Dict<K, V>): nat {
    |d.order|
  }

  /** The values of `ks`, looked up in `m`, in the order of `ks`. */
  function Project<K, V>(ks: seq<K>, m: map<K, V>): (r: seq<V>)
    requires forall i :: 0 <= i < |ks| ==> ks[i] in m
    ensures |r| == |ks|
    ensures forall i :: 0 <= i < |ks| ==> r[i] == m[ks[i]]
  {
    if ks == [] then [] else [m[ks[0]]] + Project(ks[1..], m)
  }

  /** `list(d.values())`, in insertion order. */
  function Values<K(!new), V>(d: Dict<K, V>): (r: seq<V>)
    ensures |r| == |d.order|
    ensures forall i :: 0 <= i < |r| ==> d.order[i] in d.entries && r[i] == d.entries[d.order[i]]
  {
    Project(d.order, d.entries)
  }

  /** `d[k] = v`: an upsert. A new key goes to the end of the order; an existing
      key keeps its place and only its value changes. */
  function Set<K(!new), V>(d: Dict<K, V>, k: K, v: V): (r: Dict<K, V>)
    ensures Get(r, k) == Some(v)
    ensures forall j :: j != k ==> Get(r, j) == Get(d, j)
    ensures |r.order| == |d.order| + (if k in d.entries then 0 else 1)
    ensures r.order[..|d.order|] == d.order
    ensures k in d.entries ==> r.order == d.order
    ensures k !in d.entries ==> r.order == d.order + [k]
  {
    if k in d.entries then
      RawDict(d.order, d.entries[k := v])
    else
      var r := RawDict(d.order + [k], d.entries[k := v]);
      assert Seqs.Distinct(r.order) by {
        forall i, j | 0 <= i < j < |r.order| ensures r.order[i] != r.order[j] {
          if j == |d.order| {
            assert r.order[i] == d.order[i] && d.order[i] in d.entries;
          } else {
            assert r.order[i] == d.order[i] && r.order[j] == d.order[j];
          }
        }
      }
      assert r.order[..|d.order|] == d.order;
      r
  }

  /** Setting a fresh key appends its value to the values. */
  lemma SetValuesFresh<K(!new), V>(d: Dict<K, V>, k: K, v: V)
    requires k !in d.entries
    ensures Values(Set(d, k, v)) == Values(d) + [v]
  {
    var r := Set(d, k, v);
    var vs, rs := Values(d), Values(r);
    forall j | 0 <= j < |rs| ensures rs[j] == (vs + [v])[j] {
      if j < |d.order| {
        assert r.order[j] == d.order[j];
        assert d.order[j] != k;
        assert Get(r, d.order[j]) == Get(d, d.order[j]);
      } else {
        assert r.order[j] == k;
      }
    }
  }

  /** Overwriting a key changes its value in place. */
  lemma SetValuesExisting<K(!new), V>(d: Dict<K, V>, k: K, v: V)
    requires k in d.entries
    ensures Values(Set(d, k, v)) == Values(d)[Seqs.IndexOf(d.order, k) := v]
  {
    var r := Set(d, k, v);
    var i := Seqs.IndexOf(d.order, k);
    var vs, rs := Values(d), Values(r);
    assert r.order == d.order;
    forall j | 0 <= j < |rs| ensures rs[j] == vs[i := v][j] {
      var key := d.order[j];
      if j != i {
        assert key != k;
        assert Get(r, key) == Get(d, key);
      } else {
        assert Get(r, key) == Some(v);
      }
    }
  }

  /** Removing the key at position `i` of a well-formed order. */
  lemma RemoveAt<K(!new), V>(d: Dict<K, V>, k: K, i: nat)
    requires i < |d.order| && d.order[i] == k
    ensures Wf(RawDict(d.order[..i] + d.order[i + 1..], d.entries - {k}))
  {
    var order := d.order[..i] + d.order[i + 1..];
    var idx := (j: int) => if j < i then j else j + 1;
    assert forall j :: 0 <= j < |order| ==> order[j] == d.order[idx(j)];
    forall a, b | 0 <= a < b < |order| ensures order[a] != order[b] {
      assert order[a] == d.order[idx(a)] && order[b] == d.order[idx(b)];
    }
    forall key | key in d.entries - {k} ensures key in order {
      var j :| 0 <= j < |d.order| && d.order[j] == key;
      assert j != i;
      assert order[if j < i then j else j - 1] == key;
    }
    forall key | key in order ensures key in d.entries - {k} {
      var a :| 0 <= a < |order| && order[a] == key;
      assert d.order[idx(a)] == key;
      assert idx(a) != i;
    }
  }

  /** `d.pop(k, None)`: removes `k` if present and returns its former value. */
  function Pop<K(!new), V>(d: Dict<K, V>, k: K): (r: (Dict<K, V>, Option<V>))
    ensures r.1 == Get(d, k)
    ensures k !in r.0.entries
    ensures forall j :: j != k ==> Get(r.0, j) == Get(d, j)
    ensures |r.0.order| == |d.order| - (if k in d.entries then 1 else 0)
    ensures k !in d.entries ==> r.0 == d
    ensures k in d.entries ==> var i := Seqs.IndexOf(d.order, k); r.0.order == d.order[..i] + d.order[i + 1..]
  {
    if k !in d.entries then (d, None)
    else
      var i := Seqs.IndexOf(d.order, k);
      RemoveAt(d, k, i);
      (RawDict(d.order[..i] + d.order[i + 1..], d.entries - {k}), Some(d.entries[k]))
  }

  /** Popping a key takes its value out of `values()`; the other values keep
      their order. */
  lemma PopValues<K(!new), V>(d: Dict<K, V>, k: K)
    requires k in d.entries
    ensures var i := Seqs.IndexOf(d.order, k);
            Values(Pop(d, k).0) == Values(d)[..i] + Values(d)[i + 1..]
  {
    var i := Seqs.IndexOf(d.order, k);
    var r := Pop(d, k).0;
    var vs, rs := Values(d), Values(r);
    forall j | 0 <= j < |rs| ensures rs[j] == (vs[..i] + vs[i + 1..])[j] {
      var j' := if j < i then j else j + 1;
      assert r.order[j] == d.order[j'];
      assert d.order[j'] != k;
      assert Get(r, d.order[j']) == Get(d, d.order[j']);
    }
  }

  /** Keys of `ks` whose value in `m` satisfies `p`, in the order of `ks`. */
  function KeysWhere<K, V>(ks: seq<K>, m: map<K, V>, p: V -> bool): (r: seq<K>)
    requires forall i :: 0 <= i < |ks| ==> ks[i] in m
    ensures forall i :: 0 <= i < |r| ==> r[i] in ks && p(m[r[i]])
    ensures forall i :: 0 <= i < |ks| && p(m[ks[i]]) ==> ks[i] in r
    ensures Seqs.Distinct(ks) ==> Seqs.Distinct(r)
  {
    if ks == [] then []
    else
      var rest := KeysWhere(ks[1..], m, p);
      assert forall i :: 0 <= i < |rest| ==> rest[i] in ks[1..];
      if p(m[ks[0]]) then
        var r := [ks[0]] + rest;
        assert Seqs.Distinct(ks) ==> Seqs.Distinct(r) by {
          if Seqs.Distinct(ks) {
            forall i, j | 0 <= i < j < |r| ensures r[i] != r[j] {
              assert r[j] == rest[j - 1] && rest[j - 1] in ks[1..];
              if i == 0 {
                var n :| 0 <= n < |ks[1..]| && ks[1..][n] == rest[j - 1];
                assert ks[n + 1] == r[j];
              }
            }
          }
        }
        r
      else
        rest
  }

  /** `{k: v for k, v in d.items() if p(v)}`. */
  function Filter<K(!new), V>(d: Dict<K, V>, p: V -> bool): (r: Dict<K, V>)
    ensures forall k :: k in r.entries <==> k in d.entries && p(d.entries[k])
    ensures forall k :: k in r.entries ==> r.entries[k] == d.entries[k]
  {
    var order := KeysWhere(d.order, d.entries, p);
    var entries := map k | k in d.entries && p(d.entries[k]) :: d.entries[k];
    RawDict(order, entries)
  }

  lemma {:induction false} ProjectKeysWhere<K, V>(ks: seq<K>, m: map<K, V>, m': map<K, V>, p: V -> bool)
    requires forall i :: 0 <= i < |ks| ==> ks[i] in m
    requires forall i :: 0 <= i < |ks| && p(m[ks[i]]) ==> ks[i] in m' && m'[ks[i]] == m[ks[i]]
    ensures Project(KeysWhere(ks, m, p), m') == Seqs.Filter(Project(ks, m), p)
    decreases |ks|
  {
    if ks != [] {
      ProjectKeysWhere(ks[1..], m, m', p);
      assert Project(ks, m) == [m[ks[0]]] + Project(ks[1..], m);
      assert Project(ks, m)[1..] == Project(ks[1..], m);
    }
  }

  /** The values of a filtered dict are the filtered values, in the same order. */
  lemma FilterValues<K(!new), V>(d: Dict<K, V>, p: V -> bool)
    ensures Values(Filter(d, p)) == Seqs.Filter(Values(d), p)
  {
    ProjectKeysWhere(d.order, d.entries, Filter(d, p).entries, p);
  }

  lemma {:induction false} KeysWhereCongruent<K, V>(ks: seq<K>, m: map<K, V>, p: V -> bool, q: V -> bool)
    requires forall i :: 0 <= i < |ks| ==> ks[i] in m
    requires forall v :: p(v) == q(v)
    ensures KeysWhere(ks, m, p) == KeysWhere(ks, m, q)
    decreases |ks|
  {
    if ks != [] {
      KeysWhereCongruent(ks[1..], m, p, q);
    }
  }

  /** Filtering by two predicates that agree everywhere gives the same dict. */
  lemma FilterCongruent<K(!new), V>(d: Dict<K, V>, p: V -> bool, q: V -> bool)
    requires forall v :: p(v) == q(v)
    ensures Filter(d, p) == Filter(d, q)
  {
    KeysWhereCongruent(d.order, d.entries, p, q);
  }

  /** The keys of `vs`, in order. */
  function KeysOf<K, V>(vs: seq<V>, key: V -> K): (r: seq<K>)
    ensures |r| == |vs| && forall i :: 0 <= i < |vs| ==> r[i] == key(vs[i])
  {
    seq(|vs|, i requires 0 <= i < |vs| => key(vs[i]))
  }

  /** The last element of `vs` whose key is `k`. */
  function LastWith<K(==), V>(vs: seq<V>, key: V -> K, k: K): (v: V)
    requires k in KeysOf(vs, key)
    ensures key(v) == k && v in vs
    ensures forall i :: 0 <= i < |vs| && key(vs[i]) == k && (forall j :: i < j < |vs| ==> key(vs[j]) != k) ==> v == vs[i]
    decreases |vs|
  {
    var n := |vs| - 1;
    if key(vs[n]) == k then vs[n]
    else
      assert KeysOf(vs, key) == KeysOf(vs[..n], key) + [key(vs[n])];
      var v := LastWith(vs[..n], key, k);
      assert forall i :: 0 <= i < n ==> vs[..n][i] == vs[i];
      v
  }

  /** `for v in vs: d[key(v)] = v`. */
  function SetAll<K(!new), V>(d: Dict<K, V>, vs: seq<V>, key: V -> K): Dict<K, V>
    decreases |vs|
  {
    if vs == [] then d
    else
      var n := |vs| - 1;
      Set(SetAll(d, vs[..n], key), key(vs[n]), vs[n])
  }

  /** After `SetAll` every key of `vs` holds the last value with that key and
      every other key is untouched. */
  lemma {:induction false} SetAllGet<K(!new), V>(d: Dict<K, V>, vs: seq<V>, key: V -> K, k: K)
    ensures Get(SetAll(d, vs, key), k) == if k in KeysOf(vs, key) then Some(LastWith(vs, key, k)) else Get(d, k)
    decreases |vs|
  {
    if vs != [] {
      var n := |vs| - 1;
      assert KeysOf(vs, key) == KeysOf(vs[..n], key) + [key(vs[n])];
      SetAllGet(d, vs[..n], key, k);
    }
  }

  /** What an upsert loop over `vs` leaves under `k` in an empty dict: the
      last element of `vs` with that key, or nothing. */
  function Loaded<K(==), V>(vs: seq<V>, key: V -> K, k: K): (r: Option<V>)
    ensures r.None? <==> forall i :: 0 <= i < |vs| ==> key(vs[i]) != k
    ensures r.Some? ==> key(r.value) == k && r.value in vs
  {
    if k in KeysOf(vs, key) then Some(LastWith(vs, key, k)) else None
  }

  /** Appending an element changes what is loaded under its key only. */
  lemma LoadedSnoc<K, V>(vs: seq<V>, x: V, key: V -> K)
    ensures forall k :: Loaded(vs + [x], key, k) == if key(x) == k then Some(x) else Loaded(vs, key, k)
  {
    var ws := vs + [x];
    assert KeysOf(ws, key) == KeysOf(vs, key) + [key(x)];
    assert ws[..|vs|] == vs;
  }

  /** Loading a list into an empty dict stores exactly the listed entities,
      the last one winning for a repeated key. */
  lemma SetAllFromEmpty<K(!new), V>(vs: seq<V>, key: V -> K)
    ensures forall k :: Get(SetAll(Empty(), vs, key), k) == Loaded(vs, key, k)
  {
    forall k ensures Get(SetAll(Empty(), vs, key), k) == Loaded(vs, key, k) {
      SetAllGet(Empty(), vs, key, k);
    }
  }

  /** `d = {}` followed by `for v in vs: d[key(v)] = v`. */
  function Load<K(!new), V>(vs: seq<V>, key: V -> K): (r: Dict<K, V>)
    ensures forall k :: Get(r, k) == Loaded(vs, key, k)
    ensures forall k :: k in r.entries ==> key(r.entries[k]) == k
  {
    SetAllFromEmpty(vs, key);
    SetAllKeyed(Empty(), vs, key);
    SetAll(Empty(), vs, key)
  }

  /** A dict keyed by `key` stays keyed by `key` under `SetAll`. */
  lemma {:induction false} SetAllKeyed<K(!new), V>(d: Dict<K, V>, vs: seq<V>, key: V -> K)
    requires forall k :: k in d.entries ==> key(d.entries[k]) == k
    ensures forall k :: k in SetAll(d, vs, key).entries ==> key(SetAll(d, vs, key).entries[k]) == k
    decreases |vs|
  {
    if vs != [] {
      SetAllKeyed(d, vs[..|vs| - 1], key);
    }
  }

  /** Every stored value is among `d.values()`. */
  lemma ValueListed<K(!new), V>(d: Dict<K, V>, k: K)
    requires k in d.entries
    ensures d.entries[k] in Values(d)
  {
    var i := Seqs.IndexOf(d.order, k);
    assert Values(d)[i] == d.entries[k];
  }
}
