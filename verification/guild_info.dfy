/** The guild's derived properties: the size flags, the member count, the
    boost tier and the limits it unlocks, and the lookups that scan the
    member and role stores. */
module GuildInfo {
  import opened Wrappers
  import opened Entities
  import opened GuildState
  import PyDict
  import Seqs
  import Sorting
  import SequenceProxy

  const LARGE_THRESHOLD := 250
  const OFFLINE_HIDDEN_THRESHOLD := 1000
  const EXTRA_LARGE_THRESHOLD := 75000

  // ------------------------------------------------------------ size flags

  /** `large`: the gateway's flag when it sent one; otherwise whether the
      member count (or, lacking one, the number of cached members) reaches
      the threshold of 250. */
  function Large(g: Guild): (r: bool)
    ensures g.large.Some? ==> r == g.large.value
    ensures g.large.None? && g.memberCount.Some? ==> (r <==> g.memberCount.value >= LARGE_THRESHOLD)
    ensures g.large.None? && g.memberCount.None? ==> (r <==> |g.members.order| >= LARGE_THRESHOLD)
  {
    match g.large
    case Some(b) => b
    case None =>
      if g.memberCount.Some? then g.memberCount.value >= LARGE_THRESHOLD
      else PyDict.Len(g.members) >= LARGE_THRESHOLD
  }

  /** Caching a member never makes a large guild small. */
  lemma LargeSurvivesAddMember(g: Guild, m: Member)
    requires Large(g)
    ensures Large(AddMember(g, m))
  {
    var r := AddMember(g, m);
    assert |r.members.order| >= |g.members.order| by {
      if m.id in g.members.entries {
        assert m.id in g.members.order;
      }
    }
  }

  function IsHoisted(r: Role): bool {
    r.hoist
  }

  /** The number of hoisted roles in the role store. */
  function HoistedCount(g: Guild): nat {
    |Seqs.Filter(PyDict.Values(g.roles), IsHoisted)|
  }

  /** `_offline_members_hidden`: member count (0 when unknown), plus one
      member-list group per hoisted role, plus the Online and Offline groups,
      reaches 1000. The roles are read through the sorted `roles` view; the
      count does not depend on the role order. */
  function OfflineMembersHidden(g: Guild, roleLe: (Role, Role) -> bool): (r: bool)
    ensures r <==> g.memberCount.GetOr(0) + HoistedCount(g) + 2 >= OFFLINE_HIDDEN_THRESHOLD
  {
    var roles := SequenceProxy.Iterate(SequenceProxy.New(true), PyDict.Values(g.roles), roleLe, false).1;
    Seqs.FilterPermutation(roles, PyDict.Values(g.roles), IsHoisted);
    (if g.memberCount.Some? then g.memberCount.value else 0) + |Seqs.Filter(roles, IsHoisted)| + 2 >= OFFLINE_HIDDEN_THRESHOLD
  }

  /** `_extra_large`: a known member count of at least 75000. */
  function ExtraLarge(g: Guild): (r: bool)
    ensures r <==> g.memberCount.Some? && g.memberCount.value >= EXTRA_LARGE_THRESHOLD
  {
    g.memberCount.Some? && g.memberCount.value >= EXTRA_LARGE_THRESHOLD
  }

  /** The size flags nest: an extra-large guild hides offline members, and is
      large unless the gateway said otherwise. */
  lemma SizeFlagsNest(g: Guild, roleLe: (Role, Role) -> bool)
    requires ExtraLarge(g)
    ensures OfflineMembersHidden(g, roleLe)
    ensures g.large.None? ==> Large(g)
  {
  }

  /** `member_count`: the exact count when known, else the approximate one. */
  function MemberCount(g: Guild): (r: Option<int>)
    ensures g.memberCount.Some? ==> r == g.memberCount
    ensures g.memberCount.None? ==> r == g.approximateMemberCount
    ensures r.None? <==> g.memberCount.None? && g.approximateMemberCount.None?
  {
    if g.memberCount.Some? then g.memberCount else g.approximateMemberCount
  }

  // ------------------------------------------------------- boosts and limits

  const PREMIUM_TIER_3_OVERRIDE := "PREMIUM_TIER_3_OVERRIDE"
  const MORE_EMOJI := "MORE_EMOJI"
  const MORE_STICKERS := "MORE_STICKERS"

  /** The boosts each tier needs, indexed by tier. */
  const BOOSTS_FOR_TIER: seq<int> := [0, 2, 7, 14]

  /** `premium_tier`: an explicit tier wins; otherwise the tier-3 override
      feature gives 3; otherwise the tier is the number of thresholds 2, 7 and
      14 the boost count reaches. */
  function PremiumTier(g: Guild): (r: int)
    ensures g.premiumTier.Some? ==> r == g.premiumTier.value
    ensures g.premiumTier.None? ==> 0 <= r <= 3
    ensures g.premiumTier.None? && PREMIUM_TIER_3_OVERRIDE in g.features ==> r == 3
    ensures g.premiumTier.None? && PREMIUM_TIER_3_OVERRIDE !in g.features ==>
              forall t :: 1 <= t <= 3 ==> (r >= t <==> g.premiumSubscriptionCount >= BOOSTS_FOR_TIER[t])
  {
    if g.premiumTier.Some? then g.premiumTier.value
    else if PREMIUM_TIER_3_OVERRIDE in g.features then 3
    else
      var count := g.premiumSubscriptionCount;
      if count < 2 then 0
      else if count < 7 then 1
      else if count < 14 then 2
      else 3
  }

  /** Without an explicit tier, more boosts never lower the tier. */
  lemma PremiumTierMonotone(g: Guild, count: int)
    requires g.premiumTier.None? && g.premiumSubscriptionCount <= count
    ensures PremiumTier(g) <= PremiumTier(g.(premiumSubscriptionCount := count))
  {
  }

  /** One row of `_PREMIUM_GUILD_LIMITS` (the float bitrate is not modelled). */
  datatype GuildLimit = GuildLimit(emoji: int, stickers: int, filesize: int)

  const DEFAULT_FILE_SIZE_LIMIT_BYTES := 10485760

  /** `_PREMIUM_GUILD_LIMITS[tier]`: a `KeyError` for a tier outside 0..3. */
  function PremiumLimits(tier: int): (r: Result<GuildLimit>)
    ensures r.Failure? <==> !(0 <= tier <= 3)
    ensures r.Failure? ==> r.error == KeyError
    ensures r.Success? ==> r.value.emoji >= 50 && r.value.filesize >= DEFAULT_FILE_SIZE_LIMIT_BYTES
  {
    if tier == 0 then Success(GuildLimit(50, 5, DEFAULT_FILE_SIZE_LIMIT_BYTES))
    else if tier == 1 then Success(GuildLimit(100, 15, DEFAULT_FILE_SIZE_LIMIT_BYTES))
    else if tier == 2 then Success(GuildLimit(150, 30, 52428800))
    else if tier == 3 then Success(GuildLimit(250, 60, 104857600))
    else Failure(KeyError)
  }

  /** A higher tier never lowers a limit. */
  lemma LimitsMonotone(t1: int, t2: int)
    requires 0 <= t1 <= t2 <= 3
    ensures PremiumLimits(t1).Success? && PremiumLimits(t2).Success?
    ensures PremiumLimits(t1).value.emoji <= PremiumLimits(t2).value.emoji
    ensures PremiumLimits(t1).value.stickers <= PremiumLimits(t2).value.stickers
    ensures PremiumLimits(t1).value.filesize <= PremiumLimits(t2).value.filesize
  {
  }

  function Max(a: int, b: int): int {
    if a >= b then a else b
  }

  /** `emoji_limit`: at least 200 with the `MORE_EMOJI` feature and 50
      without, and at least the tier's allowance; it is one of the two. */
  function EmojiLimit(g: Guild): (r: Result<int>)
    ensures r.Failure? <==> !(0 <= PremiumTier(g) <= 3)
    ensures r.Failure? ==> r.error == KeyError
    ensures r.Success? ==> r.value >= (if MORE_EMOJI in g.features then 200 else 50)
    ensures r.Success? ==> r.value >= PremiumLimits(PremiumTier(g)).value.emoji
    ensures r.Success? ==> r.value == (if MORE_EMOJI in g.features then 200 else 50) || r.value == PremiumLimits(PremiumTier(g)).value.emoji
  {
    var more := if MORE_EMOJI in g.features then 200 else 50;
    var limit :- PremiumLimits(PremiumTier(g));
    Success(Max(more, limit.emoji))
  }

  /** `sticker_limit`: at least 60 with the `MORE_STICKERS` feature, and at
      least the tier's allowance; it is one of the two. */
  function StickerLimit(g: Guild): (r: Result<int>)
    ensures r.Failure? <==> !(0 <= PremiumTier(g) <= 3)
    ensures r.Failure? ==> r.error == KeyError
    ensures r.Success? ==> r.value >= (if MORE_STICKERS in g.features then 60 else 0)
    ensures r.Success? ==> r.value >= PremiumLimits(PremiumTier(g)).value.stickers
    ensures r.Success? ==> r.value == (if MORE_STICKERS in g.features then 60 else 0) || r.value == PremiumLimits(PremiumTier(g)).value.stickers
  {
    var more := if MORE_STICKERS in g.features then 60 else 0;
    var limit :- PremiumLimits(PremiumTier(g));
    Success(Max(more, limit.stickers))
  }

  /** `filesize_limit`: the tier's upload size, never below the default. */
  function FilesizeLimit(g: Guild): (r: Result<int>)
    ensures r.Failure? <==> !(0 <= PremiumTier(g) <= 3)
    ensures r.Failure? ==> r.error == KeyError
    ensures r.Success? ==> r.value >= DEFAULT_FILE_SIZE_LIMIT_BYTES
    ensures r.Success? ==> r.value == PremiumLimits(PremiumTier(g)).value.filesize
  {
    var limit :- PremiumLimits(PremiumTier(g));
    Success(limit.filesize)
  }

  /** Without an explicit tier the limits always exist, and more boosts never
      lower them. */
  lemma LimitsGrowWithBoosts(g: Guild, count: int)
    requires g.premiumTier.None? && g.premiumSubscriptionCount <= count
    ensures EmojiLimit(g).Success? && StickerLimit(g).Success? && FilesizeLimit(g).Success?
    ensures var h := g.(premiumSubscriptionCount := count);
            && EmojiLimit(h).Success? && StickerLimit(h).Success? && FilesizeLimit(h).Success?
            && EmojiLimit(g).value <= EmojiLimit(h).value
            && StickerLimit(g).value <= StickerLimit(h).value
            && FilesizeLimit(g).value <= FilesizeLimit(h).value
  {
    var h := g.(premiumSubscriptionCount := count);
    PremiumTierMonotone(g, count);
    LimitsMonotone(PremiumTier(g), PremiumTier(h));
  }

  // ------------------------------------------------------ member and role views

  /** The `members` view: an unsorted proxy, which reads the member store in
      insertion order. */
  function MembersView(g: Guild): (r: seq<Member>)
    ensures |r| == |g.members.order|
    ensures forall i :: 0 <= i < |r| ==> r[i] == g.members.entries[g.members.order[i]]
  {
    SequenceProxy.Materialize(SequenceProxy.New(false), PyDict.Values(g.members), (a: Member, b: Member) => true).1
  }

  /** The `channels` view: an unsorted proxy over the channel store. */
  function ChannelsView(g: Guild): (r: seq<Channel>)
    ensures |r| == |g.channels.order|
    ensures forall i :: 0 <= i < |r| ==> r[i] == g.channels.entries[g.channels.order[i]]
  {
    SequenceProxy.Materialize(SequenceProxy.New(false), PyDict.Values(g.channels), (a: Channel, b: Channel) => true).1
  }

  /** The `threads` view: an unsorted proxy over the thread store. */
  function ThreadsView(g: Guild): (r: seq<Thread>)
    ensures |r| == |g.threads.order|
    ensures forall i :: 0 <= i < |r| ==> r[i] == g.threads.entries[g.threads.order[i]]
  {
    SequenceProxy.Materialize(SequenceProxy.New(false), PyDict.Values(g.threads), (a: Thread, b: Thread) => true).1
  }

  /** Each access builds a new proxy, so the `threads` view never goes
      stale: a thread just cached is listed, and after a removal no listed
      thread has the removed ID. */
  lemma ThreadsViewTracksStore(g: Guild, t: Thread)
    requires GuildWf(g)
    ensures t in ThreadsView(AddThread(g, t))
    ensures forall x :: x in ThreadsView(RemoveThread(g, t.id)) ==> x.id != t.id
  {
    var g1 := AddThread(g, t);
    PyDict.ValueListed(g1.threads, t.id);
    var g2 := RemoveThread(g, t.id);
    forall x | x in ThreadsView(g2) ensures x.id != t.id {
      var vs := ThreadsView(g2);
      var i :| 0 <= i < |vs| && vs[i] == x;
      var k := g2.threads.order[i];
      assert k in g2.threads.entries && x == g2.threads.entries[k];
      assert GetThread(g2, k).Some?;
    }
  }

  /** A channel cached under a fresh ID appears at the end of the next
      `channels` view; the channels before it keep their order. */
  lemma ChannelsViewAppends(g: Guild, c: Channel)
    requires GetChannel(g, c.id).None?
    ensures ChannelsView(AddChannel(g, c)) == ChannelsView(g) + [c]
  {
    var g3 := AddChannel(g, c);
    PyDict.SetValuesFresh(g.channels, c.id, c);
    assert ChannelsView(g) == PyDict.Values(g.channels);
    assert ChannelsView(g3) == PyDict.Values(g3.channels);
  }

  function OtherThan(id: int): Channel -> bool {
    (c: Channel) => c.id != id
  }

  /** In a keyed channel store, the value at position `j` of `values()` has
      the ID at position `j` of the order. */
  lemma ValueIdAt(g: Guild, j: int)
    requires GuildWf(g) && 0 <= j < |g.channels.order|
    ensures PyDict.Values(g.channels)[j].id == g.channels.order[j]
  {
  }

  /** After a channel is removed, the next `channels` view is the previous
      one without that channel, the others in their order. */
  lemma ChannelsViewRemoves(g: Guild, id: int)
    requires GuildWf(g)
    ensures ChannelsView(RemoveChannel(g, id)) == Seqs.Filter(ChannelsView(g), OtherThan(id))
  {
    var vs := PyDict.Values(g.channels);
    var after := PyDict.Pop(g.channels, id).0;
    assert ChannelsView(g) == vs;
    assert ChannelsView(RemoveChannel(g, id)) == PyDict.Values(after);
    if id in g.channels.entries {
      RemovePresentChannel(g, id);
    } else {
      assert after == g.channels;
      forall j | 0 <= j < |vs| ensures OtherThan(id)(vs[j]) {
        ValueIdAt(g, j);
      }
      Seqs.FilterAllPass(vs, OtherThan(id));
    }
  }

  /** Popping a cached channel ID drops exactly its position from the values. */
  lemma RemovePresentChannel(g: Guild, id: int)
    requires GuildWf(g) && id in g.channels.entries
    ensures PyDict.Values(PyDict.Pop(g.channels, id).0) == Seqs.Filter(PyDict.Values(g.channels), OtherThan(id))
  {
    var d := g.channels;
    var vs := PyDict.Values(d);
    var i := Seqs.IndexOf(d.order, id);
    PyDict.PopValues(d, id);
    ValueIdAt(g, i);
    forall j | 0 <= j < |vs| && j != i ensures OtherThan(id)(vs[j]) {
      ValueIdAt(g, j);
      assert d.order[j] != d.order[i];
    }
    Seqs.FilterDropsOne(vs, OtherThan(id), i);
  }

  /** The `roles` view: a fresh sorted proxy on each access, so it lists the
      current role store in hierarchy order, lowest first. */
  function RolesView(g: Guild, roleLe: (Role, Role) -> bool): (r: seq<Role>)
    ensures multiset(r) == multiset(PyDict.Values(g.roles))
    ensures Sorting.TotalPreorder(roleLe) ==> Sorting.Sorted(r, roleLe)
  {
    SequenceProxy.Materialize(SequenceProxy.New(true), PyDict.Values(g.roles), roleLe).1
  }

  /** A role added to the store shows up in the next `roles` view, and one
      removed from it does not. */
  lemma RolesViewTracksStore(g: Guild, role: Role, roleLe: (Role, Role) -> bool)
    requires GuildWf(g)
    ensures role in RolesView(AddRole(g, role), roleLe)
    ensures GetRole(g, role.id).Some? ==> RemoveRole(g, role.id).Success? && role !in RolesView(RemoveRole(g, role.id).value.0, roleLe)
  {
    var g1 := AddRole(g, role);
    PyDict.ValueListed(g1.roles, role.id);
    assert role in multiset(PyDict.Values(g1.roles));
    if GetRole(g, role.id).Some? {
      var g2 := RemoveRole(g, role.id).value.0;
      if role in RolesView(g2, roleLe) {
        assert role in multiset(PyDict.Values(g2.roles));
        StoredRole(g2, role);
        assert false;
      }
    }
  }

  /** A value of a keyed role store is the entry under its own ID. */
  lemma StoredRole(g: Guild, x: Role)
    requires GuildWf(g) && x in PyDict.Values(g.roles)
    ensures x.id in g.roles.entries && g.roles.entries[x.id] == x
  {
    var vs := PyDict.Values(g.roles);
    var i :| 0 <= i < |vs| && vs[i] == x;
    var k := g.roles.order[i];
    assert k in g.roles.entries && vs[i] == g.roles.entries[k];
    assert g.roles.entries[k].id == k;
  }

  function IsBooster(m: Member): bool {
    m.premiumSince.Some?
  }

  /** `premium_subscribers`: the cached members who boost the guild, in
      member-store order. */
  function PremiumSubscribers(g: Guild): (r: seq<Member>)
    ensures forall i :: 0 <= i < |r| ==> r[i].premiumSince.Some? && r[i] in PyDict.Values(g.members)
    ensures forall k :: k in g.members.entries && g.members.entries[k].premiumSince.Some? ==> g.members.entries[k] in r
  {
    var r := Seqs.Filter(MembersView(g), IsBooster);
    assert forall k :: k in g.members.entries && g.members.entries[k].premiumSince.Some? ==> g.members.entries[k] in r by {
      forall k | k in g.members.entries && g.members.entries[k].premiumSince.Some? ensures g.members.entries[k] in r {
        PyDict.ValueListed(g.members, k);
      }
    }
    r
  }

  /** A cached member is listed among the boosters exactly when they boost. */
  lemma BoosterListed(g: Guild, m: Member)
    ensures Stored(m) in PremiumSubscribers(AddMember(g, m)) <==> m.premiumSince.Some?
  {
    var g1 := AddMember(g, m);
    if m.premiumSince.Some? {
      assert g1.members.entries[m.id] == Stored(m);
    }
  }

  function IsBoostRole(r: Role): bool {
    r.premiumSubscriber
  }

  /** `premium_subscriber_role`: the first role, in store order, that is the
      boost role; `None` when no role is. */
  function PremiumSubscriberRole(g: Guild): (r: Option<Role>)
    ensures r.None? <==> forall k :: k in g.roles.entries ==> !g.roles.entries[k].premiumSubscriber
    ensures r.Some? ==> r.value.premiumSubscriber && r.value in PyDict.Values(g.roles)
    ensures r.Some? ==> exists i :: (0 <= i < |g.roles.order| && PyDict.Values(g.roles)[i] == r.value &&
              forall j :: 0 <= j < i ==> !PyDict.Values(g.roles)[j].premiumSubscriber)
  {
    var vs := PyDict.Values(g.roles);
    var r := Seqs.Find(IsBoostRole, vs);
    assert r.None? ==> forall k :: k in g.roles.entries ==> !g.roles.entries[k].premiumSubscriber by {
      forall k | k in g.roles.entries ensures g.roles.entries[k] in vs {
        PyDict.ValueListed(g.roles, k);
      }
    }
    assert r.Some? ==> exists k :: k in g.roles.entries && g.roles.entries[k].premiumSubscriber by {
      if r.Some? {
        var j :| 0 <= j < |vs| && vs[j] == r.value;
        var k := g.roles.order[j];
        assert k in g.roles.entries && g.roles.entries[k] == r.value;
      }
    }
    r
  }

  // ---------------------------------------------------------- channel attributes

  /** The channel-valued attributes (`system_channel`, `rules_channel`,
      `public_updates_channel`, `safety_alerts_channel`, `afk_channel`,
      `widget_channel`): `channel_id and self._channels.get(channel_id)`. An
      unset ID, or the ID 0, gives no channel; any other ID is looked up. */
  function ChannelAttribute(g: Guild, channelId: Option<int>): (r: Option<Channel>)
    ensures channelId.None? || channelId == Some(0) ==> r.None?
    ensures channelId.Some? && channelId.value != 0 ==> r == GetChannel(g, channelId.value)
  {
    match channelId
    case None => None
    case Some(id) => if id == 0 then None else GetChannel(g, id)
  }

  /** The attribute follows the channel store: it resolves to a channel once
      that channel is cached, and to nothing once it is removed. */
  lemma ChannelAttributeTracksStore(g: Guild, c: Channel)
    requires c.id != 0
    ensures ChannelAttribute(AddChannel(g, c), Some(c.id)) == Some(c)
    ensures ChannelAttribute(RemoveChannel(g, c.id), Some(c.id)).None?
  {
  }
}
