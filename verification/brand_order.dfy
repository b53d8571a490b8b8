/** The user-agent brand list of `utils.Headers`: a greased brand, "Chromium"
    and optionally the browser brand, shuffled by a fixed permutation chosen
    from the major version (mirroring Chromium's own table). */
module BrandOrder {
  import opened Wrappers

  /** A `(brand, version)` pair: the greased pair carries the version as a
      string, the others carry the major version number. */
  datatype BrandVersion = Greased(brand: string, major: string) | Named(brand: string, version: int)

  const ORDERS_3: seq<seq<int>> := [[0, 1, 2], [0, 2, 1], [1, 0, 2], [1, 2, 0], [2, 0, 1], [2, 1, 0]]

  const ORDERS_4: seq<seq<int>> := [
    [0, 1, 2, 3], [0, 1, 3, 2], [0, 2, 1, 3], [0, 2, 3, 1], [0, 3, 1, 2], [0, 3, 2, 1],
    [1, 0, 2, 3], [1, 0, 3, 2], [1, 2, 0, 3], [1, 2, 3, 0], [1, 3, 0, 2], [1, 3, 2, 0],
    [2, 0, 1, 3], [2, 0, 3, 1], [2, 1, 0, 3], [2, 1, 3, 0], [2, 3, 0, 1], [2, 3, 1, 0],
    [3, 0, 1, 2], [3, 0, 2, 1], [3, 1, 0, 2], [3, 1, 2, 0], [3, 2, 0, 1], [3, 2, 1, 0]
  ]

  const GREASY_CHARS: seq<char> := [' ', '(', ':', '-', '.', '/', ')', ';', '=', '?', '_']

  const GREASED_VERSIONS: seq<string> := ["8", "99", "24"]

  /** `order` lists each of `0..n-1` exactly once. */
  ghost predicate IsPermutation(order: seq<int>, n: nat) {
    && |order| == n
    && (forall i :: 0 <= i < n ==> 0 <= order[i] < n)
    && (forall i, j :: 0 <= i < j < n ==> order[i] != order[j])
    && (forall j :: 0 <= j < n ==> j in order)
  }

  /** `_get_random_order(seed, size)`; any size other than 2 and 3 takes the
      four-element table. Python's `%` by a positive int is never negative,
      like Dafny's. (The call also reseeds Python's global `random`.) */
  function RandomOrder(seed: int, size: int): (r: seq<int>)
    ensures size == 2 || size == 3 ==> IsPermutation(r, size)
    ensures size != 2 && size != 3 ==> IsPermutation(r, 4)
  {
    if size == 2 then [seed % 2, (seed + 1) % 2]
    else if size == 3 then
      ThreeOrdersArePermutations();
      ORDERS_3[seed % |ORDERS_3|]
    else
      FourOrdersArePermutations();
      ORDERS_4[seed % |ORDERS_4|]
  }

  lemma ThreeOrdersArePermutations()
    ensures forall k :: 0 <= k < |ORDERS_3| ==> IsPermutation(ORDERS_3[k], 3)
  {
  }

  lemma FourOrdersArePermutations()
    ensures forall k :: 0 <= k < |ORDERS_4| ==> IsPermutation(ORDERS_4[k], 4)
  {
    forall k | 0 <= k < |ORDERS_4| ensures IsPermutation(ORDERS_4[k], 4) {
      var o := ORDERS_4[k];
      assert |o| == 4 && forall i :: 0 <= i < 4 ==> 0 <= o[i] < 4;
    }
  }

  /** `_get_greased_user_agent_brand_version(seed)`. None of the greased
      versions contains a '.', so the major version is the version itself. */
  function GreasedBrandVersion(seed: int): (r: BrandVersion)
    ensures r.Greased? && |r.brand| == 11
    ensures r.brand[..3] == "Not" && r.brand[4] == 'A' && r.brand[6..] == "Brand"
    ensures r.brand[3] == GREASY_CHARS[seed % 11] && r.brand[5] == GREASY_CHARS[(seed + 1) % 11]
    ensures r.brand[3] != r.brand[5]
    ensures r.major in GREASED_VERSIONS
  {
    var c1 := GREASY_CHARS[seed % |GREASY_CHARS|];
    var c2 := GREASY_CHARS[(seed + 1) % |GREASY_CHARS|];
    Greased("Not" + [c1] + "A" + [c2] + "Brand", GREASED_VERSIONS[seed % |GREASED_VERSIONS|])
  }

  /** The unshuffled list: greased pair, Chromium, and the brand when it is a
      non-empty string. */
  function BrandList(version: int, brand: Option<string>): (r: seq<BrandVersion>)
    ensures |r| == (if brand.Some? && brand.value != "" then 3 else 2)
  {
    var base := [GreasedBrandVersion(version), Named("Chromium", version)];
    if brand.Some? && brand.value != "" then base + [Named(brand.value, version)] else base
  }

  /** The placement loop `shuffled[idx] = items[i]` over a permutation. */
  method Shuffle<T>(items: seq<T>, order: seq<int>) returns (r: seq<T>)
    requires IsPermutation(order, |items|)
    ensures |r| == |items|
    ensures forall i :: 0 <= i < |items| ==> r[order[i]] == items[i]
    ensures forall j :: 0 <= j < |r| ==> r[j] in items
  {
    var n := |items|;
    if n == 0 {
      return [];
    }
    var slots: seq<Option<T>> := seq(n, _ => None);
    for i := 0 to n
      invariant |slots| == n
      invariant forall k :: 0 <= k < i ==> slots[order[k]] == Some(items[k])
      invariant forall j :: 0 <= j < n && slots[j].Some? ==> exists k :: 0 <= k < i && order[k] == j
    {
      slots := slots[order[i] := Some(items[i])];
    }
    r := seq(n, j requires 0 <= j < n => Unwrap(slots[j], items[0]));
    forall j | 0 <= j < |r|
      ensures r[j] in items
    {
      assert j in order;
      var i :| 0 <= i < n && order[i] == j;
      assert slots[j] == Some(items[i]);
      assert r[j] == Unwrap(slots[j], items[0]) == items[i];
    }
  }

  function Unwrap<T>(o: Option<T>, default: T): T {
    if o.Some? then o.value else default
  }

  /** `generate_brand_version_list`: the brand list, with item `i` moved to
      position `order[i]`; the result is a permutation of the list. */
  method GenerateBrandVersionList(version: int, brand: Option<string>) returns (r: seq<BrandVersion>)
    ensures var items := BrandList(version, brand);
            && |r| == |items|
            && (forall i :: 0 <= i < |items| ==> r[RandomOrder(version, |items|)[i]] == items[i])
            && (forall j :: 0 <= j < |r| ==> r[j] in items)
  {
    var items := BrandList(version, brand);
    var order := RandomOrder(version, |items|);
    r := Shuffle(items, order);
  }
}
