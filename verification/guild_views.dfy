/** The channel listings a guild derives from its channel store: one list per
    channel class in UI order, and `by_category`'s grouping of channels under
    their categories. Each listing is computed afresh from the store. */
module GuildViews {
  import opened Wrappers
  import opened Entities
  import opened GuildState
  import PyDict
  import Seqs
  import Sorting

  function OfKind(kind: ChannelKind): Channel -> bool {
    (c: Channel) => c.kind == kind
  }

  /** A value of a keyed channel store is the entry under its own ID. */
  lemma StoredChannel(g: Guild, c: Channel)
    requires GuildWf(g) && c in PyDict.Values(g.channels)
    ensures c.id in g.channels.entries && g.channels.entries[c.id] == c
  {
    var vs := PyDict.Values(g.channels);
    var i :| 0 <= i < |vs| && vs[i] == c;
    var k := g.channels.order[i];
    assert k in g.channels.entries && vs[i] == g.channels.entries[k];
    assert g.channels.entries[k].id == k;
  }

  /** `[ch for ch in self._channels.values() if isinstance(ch, K)]`, sorted by
      `(position, id)`: every cached channel of the class, in UI order. */
  function ChannelsOfKind(g: Guild, kind: ChannelKind): (r: seq<Channel>)
    ensures Sorting.Sorted(r, PositionLe)
    ensures multiset(r) == multiset(Seqs.Filter(PyDict.Values(g.channels), OfKind(kind)))
    ensures forall i :: 0 <= i < |r| ==> r[i].kind == kind && r[i] in PyDict.Values(g.channels)
    ensures forall k :: k in g.channels.entries && g.channels.entries[k].kind == kind ==> g.channels.entries[k] in r
  {
    PositionLeTotalPreorder();
    var vs := PyDict.Values(g.channels);
    var f := Seqs.Filter(vs, OfKind(kind));
    var r := Sorting.Sort(f, PositionLe);
    forall i | 0 <= i < |r| ensures r[i].kind == kind && r[i] in vs {
      Sorting.SameElements(r, f, i);
    }
    forall k | k in g.channels.entries && g.channels.entries[k].kind == kind ensures g.channels.entries[k] in r {
      PyDict.ValueListed(g.channels, k);
      var c := g.channels.entries[k];
      assert c in multiset(f);
    }
    r
  }

  function TextChannels(g: Guild): seq<Channel> {
    ChannelsOfKind(g, TextChannel)
  }

  function VoiceChannels(g: Guild): seq<Channel> {
    ChannelsOfKind(g, VoiceChannel)
  }

  function StageChannels(g: Guild): seq<Channel> {
    ChannelsOfKind(g, StageChannel)
  }

  function Categories(g: Guild): seq<Channel> {
    ChannelsOfKind(g, CategoryChannel)
  }

  function Forums(g: Guild): seq<Channel> {
    ChannelsOfKind(g, ForumChannel)
  }

  function DirectoryChannels(g: Guild): seq<Channel> {
    ChannelsOfKind(g, DirectoryChannel)
  }

  /** `directories` is an alias of `directory_channels`. */
  function Directories(g: Guild): seq<Channel> {
    DirectoryChannels(g)
  }

  /** Channel IDs are unique within a guild, so the `(position, id)` order
      leaves no ties: any sorted arrangement of a class's channels is the
      listing itself. */
  lemma ChannelListingUnique(g: Guild, kind: ChannelKind, s: seq<Channel>)
    requires GuildWf(g)
    requires Sorting.Sorted(s, PositionLe)
    requires multiset(s) == multiset(Seqs.Filter(PyDict.Values(g.channels), OfKind(kind)))
    ensures s == ChannelsOfKind(g, kind)
  {
    var vs := PyDict.Values(g.channels);
    var f := Seqs.Filter(vs, OfKind(kind));
    forall x | x in s ensures x in vs {
      assert x in multiset(f);
    }
    ChannelsSeparated(g);
    Sorting.SortedUnique(s, ChannelsOfKind(g, kind), PositionLe);
  }

  /** No two cached channels tie in the `(position, id)` order. */
  lemma ChannelsSeparated(g: Guild)
    requires GuildWf(g)
    ensures forall x, y :: x in PyDict.Values(g.channels) && y in PyDict.Values(g.channels) && PositionLe(x, y) && PositionLe(y, x) ==> x == y
  {
    forall x, y | x in PyDict.Values(g.channels) && y in PyDict.Values(g.channels) && PositionLe(x, y) && PositionLe(y, x) ensures x == y {
      StoredChannel(g, x);
      StoredChannel(g, y);
    }
  }

  // ------------------------------------------------------------ by_category

  /** The key the grouping loop files a channel under: a category under its
      own ID, any other channel under its `category_id`. */
  function GroupKey(c: Channel): Option<int> {
    if c.kind == CategoryChannel then Some(c.id) else c.categoryId
  }

  /** The channels listed in the group with key `k`. */
  function InGroup(k: Option<int>): Channel -> bool {
    (c: Channel) => c.kind != CategoryChannel && c.categoryId == k
  }

  /** One pass of the grouping loop: a category does `setdefault(id, [])`;
      any other channel is appended to its category's list, which is created
      when missing. */
  function GroupStep(d: PyDict.Dict<Option<int>, seq<Channel>>, c: Channel): PyDict.Dict<Option<int>, seq<Channel>> {
    if c.kind == CategoryChannel then
      if Some(c.id) in d.entries then d else PyDict.Set(d, Some(c.id), [])
    else
      PyDict.Set(d, c.categoryId, PyDict.Get(d, c.categoryId).GetOr([]) + [c])
  }

  /** The `grouped` dict after the loop has run over `vs`. */
  function Grouped(vs: seq<Channel>): PyDict.Dict<Option<int>, seq<Channel>>
    decreases |vs|
  {
    if vs == [] then PyDict.Empty()
    else GroupStep(Grouped(vs[..|vs| - 1]), vs[|vs| - 1])
  }

  /** A key nothing is filed under has an empty group. */
  lemma EmptyGroup(vs: seq<Channel>, k: Option<int>)
    requires k !in PyDict.KeysOf(vs, GroupKey)
    ensures Seqs.Filter(vs, InGroup(k)) == []
  {
  }

  /** One pass of the loop extends the group of the channel's key by the
      channel (when it is not a category) and touches no other group. */
  lemma GroupStepContents(d: PyDict.Dict<Option<int>, seq<Channel>>, init: seq<Channel>, c: Channel, k: Option<int>)
    requires k in d.entries <==> k in PyDict.KeysOf(init, GroupKey)
    requires k in d.entries ==> d.entries[k] == Seqs.Filter(init, InGroup(k))
    ensures k in GroupStep(d, c).entries <==> k in PyDict.KeysOf(init, GroupKey) || GroupKey(c) == k
    ensures k in GroupStep(d, c).entries ==>
              GroupStep(d, c).entries[k] == Seqs.Filter(init, InGroup(k)) + (if InGroup(k)(c) then [c] else [])
  {
    if k !in d.entries {
      EmptyGroup(init, k);
    }
    if GroupKey(c) == k {
      assert PyDict.Get(GroupStep(d, c), k).Some?;
    } else {
      assert PyDict.Get(GroupStep(d, c), k) == PyDict.Get(d, k);
    }
  }

  /** The grouping loop files under key `k` exactly the non-category channels
      whose category ID is `k`, in store order, and creates a key exactly for
      every category and every category ID some channel names. */
  lemma {:induction false} GroupedContents(vs: seq<Channel>, k: Option<int>)
    ensures k in Grouped(vs).entries <==> k in PyDict.KeysOf(vs, GroupKey)
    ensures k in Grouped(vs).entries ==> Grouped(vs).entries[k] == Seqs.Filter(vs, InGroup(k))
    decreases |vs|
  {
    if vs != [] {
      var n := |vs| - 1;
      var init := vs[..n];
      var c := vs[n];
      assert vs == init + [c];
      assert PyDict.KeysOf(vs, GroupKey) == PyDict.KeysOf(init, GroupKey) + [GroupKey(c)];
      Seqs.FilterSnoc(init, c, InGroup(k));
      GroupedContents(init, k);
      GroupStepContents(Grouped(init), init, c, k);
    }
  }

  /** One item of `by_category`: the category (or `None`) and its channels.
      The model also keeps the grouping key the item was built from. */
  datatype CategoryGroup = CategoryGroup(key: Option<int>, category: Option<Channel>, channels: seq<Channel>)

  /** The first part of the sort key `((k.position, k.id) if k else (-1, -1), v)`. */
  function GroupSortKey(x: CategoryGroup): (int, int) {
    if x.category.Some? then (x.category.value.position, x.category.value.id) else (-1, -1)
  }

  /** Two items whose first key parts agree are ordered by their channel
      lists `v`. An empty list comes before a non-empty one without any
      channel being compared. Two non-empty lists compare their first
      channels, which are different channels, with `<`; channels define no
      `<`, so that comparison raises `TypeError`. */
  predicate Clash(a: CategoryGroup, b: CategoryGroup) {
    GroupSortKey(a) == GroupSortKey(b) && a.channels != [] && b.channels != []
  }

  /** Two of the items cannot be ordered by the key. */
  predicate Unorderable(s: seq<CategoryGroup>) {
    exists i, j :: 0 <= i < j < |s| && Clash(s[i], s[j])
  }

  /** The order the key gives wherever it is defined: the first part, then
      an empty channel list before a non-empty one. */
  function GroupLe(a: CategoryGroup, b: CategoryGroup): bool {
    var (p, q) := (GroupSortKey(a), GroupSortKey(b));
    || p.0 < q.0
    || (p.0 == q.0 && p.1 < q.1)
    || (p == q && (a.channels == [] || b.channels != []))
  }

  lemma GroupLeTotalPreorder()
    ensures Sorting.TotalPreorder(GroupLe)
  {
  }

  function GroupKeys(r: seq<CategoryGroup>): (ks: seq<Option<int>>)
    ensures |ks| == |r| && forall i :: 0 <= i < |r| ==> ks[i] == r[i].key
  {
    seq(|r|, i requires 0 <= i < |r| => r[i].key)
  }

  /** What every item of `by_category` satisfies: its category is the cached
      channel under its key, and it lists exactly the channels filed there. */
  ghost predicate GroupOf(g: Guild, x: CategoryGroup) {
    var vs := PyDict.Values(g.channels);
    && x.key in PyDict.KeysOf(vs, GroupKey)
    && x.category == ChannelFor(g, x.key)
    && x.channels == Seqs.Filter(vs, InGroup(x.key))
  }

  /** `[(_get(k), v) for k, v in grouped.items()]`. */
  function GroupList(g: Guild): (r: seq<CategoryGroup>)
    ensures GroupKeys(r) == Grouped(PyDict.Values(g.channels)).order
    ensures forall i :: 0 <= i < |r| ==> GroupOf(g, r[i])
    ensures Seqs.Distinct(r)
  {
    var d := Grouped(PyDict.Values(g.channels));
    var r := seq(|d.order|, i requires 0 <= i < |d.order| =>
      CategoryGroup(d.order[i], ChannelFor(g, d.order[i]), d.entries[d.order[i]]));
    forall i | 0 <= i < |r| ensures GroupOf(g, r[i]) {
      GroupedContents(PyDict.Values(g.channels), d.order[i]);
    }
    assert GroupKeys(r) == d.order;
    r
  }

  /** `as_list.sort(key=key)` where it does not raise: the items in the key's
      order, by the category's `(position, id)` (`(-1, -1)` without one), an
      empty group before a non-empty one that ties with it. */
  function SortedGroups(g: Guild): (r: seq<CategoryGroup>)
    ensures Sorting.Sorted(r, GroupLe)
    ensures multiset(r) == multiset(GroupList(g))
    ensures forall i :: 0 <= i < |r| ==> GroupOf(g, r[i])
    ensures Seqs.Distinct(GroupKeys(r))
  {
    GroupLeTotalPreorder();
    var l := GroupList(g);
    var r := Sorting.Sort(l, GroupLe);
    forall i | 0 <= i < |r| ensures GroupOf(g, r[i]) {
      Sorting.SameElements(r, l, i);
    }
    Seqs.DistinctPermutation(l, r);
    forall i, j | 0 <= i < j < |r| ensures GroupKeys(r)[i] != GroupKeys(r)[j] {
      assert r[i] != r[j];
    }
    r
  }

  /** `for _, channels in as_list: channels.sort(...)`: each group's channels
      in `(_sorting_bucket, position, id)` order; keys and categories stay. */
  function SortEachGroup(s: seq<CategoryGroup>): (r: seq<CategoryGroup>)
    ensures |r| == |s| && GroupKeys(r) == GroupKeys(s)
    ensures forall i :: 0 <= i < |r| ==> r[i].category == s[i].category
    ensures forall i :: 0 <= i < |r| ==> Sorting.Sorted(r[i].channels, BucketLe)
    ensures forall i :: 0 <= i < |r| ==> multiset(r[i].channels) == multiset(s[i].channels)
    ensures Sorting.Sorted(s, GroupLe) ==> Sorting.Sorted(r, GroupLe)
  {
    BucketLeTotalPreorder();
    var r := seq(|s|, i requires 0 <= i < |s| => s[i].(channels := Sorting.Sort(s[i].channels, BucketLe)));
    forall i | 0 <= i < |r| ensures GroupSortKey(r[i]) == GroupSortKey(s[i]) && (r[i].channels == []) == (s[i].channels == []) {
      assert |r[i].channels| == |multiset(r[i].channels)| == |multiset(s[i].channels)| == |s[i].channels|;
    }
    r
  }

  /** `by_category()`. It raises `TypeError` iff two items tie on the first
      part of the key and both list channels: the no-category group and the
      groups of category IDs that name no cached channel all sort at
      `(-1, -1)`. Otherwise the groups come in the key's order, each group's
      channels sorted by `(_sorting_bucket, position, id)`. Every category and
      every category ID some channel names gets exactly one group, whose
      channels are exactly the non-category channels filed under it. */
  function ByCategory(g: Guild): (r: Result<seq<CategoryGroup>>)
    ensures r.Failure? <==> Unorderable(GroupList(g))
    ensures r.Failure? ==> r.error == TypeError
    ensures r.Success? ==> Sorting.Sorted(r.value, GroupLe)
    ensures r.Success? ==> forall k :: k in GroupKeys(r.value) <==> k in PyDict.KeysOf(PyDict.Values(g.channels), GroupKey)
    ensures r.Success? ==> Seqs.Distinct(GroupKeys(r.value))
    ensures r.Success? ==> forall i :: 0 <= i < |r.value| ==> r.value[i].category == ChannelFor(g, r.value[i].key)
    ensures r.Success? ==> forall i :: 0 <= i < |r.value| ==> Sorting.Sorted(r.value[i].channels, BucketLe)
    ensures r.Success? ==> forall i :: 0 <= i < |r.value| ==>
              multiset(r.value[i].channels) == multiset(Seqs.Filter(PyDict.Values(g.channels), InGroup(r.value[i].key)))
  {
    if Unorderable(GroupList(g)) then Failure(TypeError)
    else
      var s := SortedGroups(g);
      var r := SortEachGroup(s);
      forall k ensures k in GroupKeys(r) <==> k in PyDict.KeysOf(PyDict.Values(g.channels), GroupKey) {
        KeysOfGroups(g, s, k);
      }
      forall i | 0 <= i < |r|
        ensures r[i].category == ChannelFor(g, r[i].key)
        ensures multiset(r[i].channels) == multiset(Seqs.Filter(PyDict.Values(g.channels), InGroup(r[i].key)))
      {
        assert GroupOf(g, s[i]) && r[i].key == GroupKeys(r)[i] == s[i].key;
      }
      Success(r)
  }

  /** The group a channel is filed under is one of the items, and lists it. */
  lemma FiledChannelListed(g: Guild, c: Channel) returns (i: nat)
    requires c in PyDict.Values(g.channels) && c.kind != CategoryChannel
    ensures i < |GroupList(g)| && GroupList(g)[i].key == c.categoryId
    ensures GroupList(g)[i].channels != []
  {
    var vs := PyDict.Values(g.channels);
    var l := GroupList(g);
    var j :| 0 <= j < |vs| && vs[j] == c;
    assert PyDict.KeysOf(vs, GroupKey)[j] == c.categoryId;
    GroupedContents(vs, c.categoryId);
    assert c.categoryId in GroupKeys(l);
    i :| 0 <= i < |l| && GroupKeys(l)[i] == c.categoryId;
    assert GroupOf(g, l[i]);
    assert InGroup(c.categoryId)(c);
  }

  /** A channel without a category next to one whose category ID names no
      cached channel: both groups sort at `(-1, -1)` and list a channel, so
      `by_category` raises `TypeError`. */
  lemma UncachedCategoryClashes(g: Guild, a: Channel, b: Channel)
    requires a in PyDict.Values(g.channels) && a.kind != CategoryChannel && a.categoryId.None?
    requires b in PyDict.Values(g.channels) && b.kind != CategoryChannel && b.categoryId.Some?
    requires b.categoryId.value !in g.channels.entries
    ensures ByCategory(g).Failure?
  {
    var l := GroupList(g);
    var i := FiledChannelListed(g, a);
    var j := FiledChannelListed(g, b);
    assert GroupOf(g, l[i]) && GroupOf(g, l[j]);
    assert l[i].category == ChannelFor(g, None) == None;
    assert l[j].category == GetChannel(g, b.categoryId.value) == None;
    assert i != j by {
      assert GroupKeys(l)[i] != GroupKeys(l)[j];
    }
    var lo, hi := if i < j then i else j, if i < j then j else i;
    assert Clash(l[lo], l[hi]);
    assert Unorderable(l);
  }

  /** Where `by_category` succeeds, the key leaves no two items tied, so the
      group order is the only arrangement the key allows: any sort of the
      items gives the same list. */
  lemma ByCategoryOrderDetermined(g: Guild, s: seq<CategoryGroup>)
    requires GuildWf(g) && !Unorderable(GroupList(g))
    requires Sorting.Sorted(s, GroupLe) && multiset(s) == multiset(GroupList(g))
    ensures s == SortedGroups(g)
  {
    var l := GroupList(g);
    assert Seqs.Distinct(GroupKeys(l));
    forall x, y | x in s && y in s && GroupLe(x, y) && GroupLe(y, x) ensures x == y {
      assert x in multiset(l) && y in multiset(l);
      var i :| 0 <= i < |l| && l[i] == x;
      var j :| 0 <= j < |l| && l[j] == y;
      assert GroupSortKey(x) == GroupSortKey(y) && (x.channels == []) == (y.channels == []);
      if x.channels == [] {
        assert GroupOf(g, x) && GroupOf(g, y);
        CategoryOfEmptyGroup(g, x);
        CategoryOfEmptyGroup(g, y);
        assert GroupKeys(l)[i] == GroupKeys(l)[j];
      } else {
        assert Clash(l[i], l[j]) && Clash(l[j], l[i]);
      }
      assert !(i < j) && !(j < i);
    }
    Sorting.SortedUnique(s, SortedGroups(g), GroupLe);
  }

  /** Only a cached category can have an empty group, and in a keyed store it
      carries the group's key as its ID. */
  lemma CategoryOfEmptyGroup(g: Guild, x: CategoryGroup)
    requires GuildWf(g) && GroupOf(g, x) && x.channels == []
    ensures x.key.Some? && x.category.Some? && x.category.value.id == x.key.value
  {
    var vs := PyDict.Values(g.channels);
    var j :| 0 <= j < |vs| && PyDict.KeysOf(vs, GroupKey)[j] == x.key;
    var c := vs[j];
    assert GroupKey(c) == x.key;
    Seqs.FilterEmptyNonePass(vs, InGroup(x.key), j);
    assert c.kind == CategoryChannel;
    StoredChannel(g, c);
    assert x.key == Some(c.id);
    assert x.category == GetChannel(g, c.id) == Some(c);
  }

  /** The sorted groups carry exactly the keys of the `grouped` dict. */
  lemma KeysOfGroups(g: Guild, s: seq<CategoryGroup>, k: Option<int>)
    requires s == SortedGroups(g)
    ensures k in GroupKeys(s) <==> k in PyDict.KeysOf(PyDict.Values(g.channels), GroupKey)
  {
    var vs := PyDict.Values(g.channels);
    var l := GroupList(g);
    GroupedContents(vs, k);
    if k in GroupKeys(s) {
      var i :| 0 <= i < |s| && GroupKeys(s)[i] == k;
      assert GroupOf(g, s[i]);
    }
    if k in PyDict.KeysOf(vs, GroupKey) {
      assert k in GroupKeys(l);
      var i :| 0 <= i < |l| && GroupKeys(l)[i] == k;
      assert l[i] in multiset(s);
      var j :| 0 <= j < |s| && s[j] == l[i];
      assert GroupKeys(s)[j] == k;
    }
  }
}
