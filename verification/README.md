# Guild cache of discord.py-self, in Dafny

This project models the in-memory cache a `discord.Guild` keeps and the
helpers from `discord/utils.py` it relies on.

A guild is an immutable record of insertion-ordered, ID-keyed stores:
- channels, threads, roles and members;
- voice states, stage instances and scheduled events.

The record also holds the scalar fields the derived properties read. Python
dicts are modelled as ordered dictionaries (`PyDict`), because their iteration
order is observable. It decides:
- which thread list `_remove_threads_by_channel` returns;
- which member `get_member_named` finds first;
- the group order of `by_category` before its stable sort;
- what an unsorted `SequenceProxy` lists.

Every mutator of the cache is a pure function from guild to guild:
- channel, thread, role and member insertion and removal;
- the thread cascade;
- the voice-state update.

`_from_data` builds the cache from a snapshot. The read-side properties are
functions of the record:
- lookups;
- the per-class channel listings;
- `by_category`;
- the size flags, member count and boost tier;
- the limits the tier unlocks;
- the channel attributes;
- `get_member_named`.

Calls the cache makes into the connection's presence store are recorded, in
order, in the guild's `presenceLog`.

From `discord/utils.py` the model covers:
- `SnowflakeList`, a sorted array of unsigned 64-bit IDs searched with `bisect_left`;
- `SequenceProxy`, a lazily copied, optionally sorted view with no invalidation;
- the snowflake bit-field helpers and the integer part of `time_snowflake`;
- `_chunk` and `as_chunks`;
- `_find`, `_get` and `_unique`;
- `_get_as_snowflake`;
- `valid_icon_size`;
- the permutation tables behind `generate_brand_version_list`.

Modules:
- `Wrappers`: `Option` and `Result`. A `Result` carries the Python exception
  class (`KeyError`, `ValueError`, `IndexError`, `TypeError`).
- `Seqs`, `Sorting`, `PyDict`: list helpers, a stable insertion sort, and
  ordered dicts.
- `Entities`: the records for channels, threads, roles, members, voice states,
  stage instances and scheduled events.
- `GuildState`: the cache and its mutators.
- `GuildLoad`: `_from_data`.
- `GuildViews`: the channel listings and `by_category`.
- `GuildInfo`: the derived properties.
- `MemberNamed`: `get_member_named`.
- The `utils.py` helpers: `SnowflakeList`, `SequenceProxy`, `Snowflake`,
  `SnowflakeField`, `Chunks`, `IconSize` and `BrandOrder`.

The channel factory `_guild_channel_factory` is a parameter mapping a channel
type to an optional class and sorting bucket. Role comparison (`Role.__lt__`)
is a parameter too: an ordering on roles.

## Model

| member | source | states |
|---|---|---|
| `GuildState.Fresh` | discord/guild.py:536-550 | A new guild has empty stores, no member count, no `large` flag and no presence calls, and it satisfies the keyed-store invariant. |
| `GuildState.GetChannel` | discord/guild.py:989-1010 | A channel is found exactly when its ID is a key of the channel store; the result is the stored channel and, in a keyed store, carries the ID asked for. |
| `GuildState.GetThread` | discord/guild.py:1012-1032 | A thread is found exactly when its ID is a key of the thread store; the stored thread carries that ID. |
| `GuildState.GetRole` | discord/guild.py:1211-1228 | A role is found exactly when its ID is cached; the stored role carries that ID. |
| `GuildState.GetMember` | discord/guild.py:1156-1173 | A member is found exactly when their ID is cached; the stored member carries that ID. |
| `GuildState.VoiceStateFor` | discord/guild.py:558-559 | A voice state is found exactly when the user ID is a key of the voice-state store. |
| `GuildState.GetStageInstance` | discord/guild.py:1256-1271 | A stage instance is found exactly when its ID is cached. |
| `GuildState.GetScheduledEvent` | discord/guild.py:1297-1312 | A scheduled event is found exactly when its ID is cached. |
| `GuildState.GetChannelOrThread` | discord/guild.py:972-987 | Nothing is found iff the ID is in neither store. A channel wins over a thread with the same ID. A thread is returned only when no channel has the ID. |
| `GuildState.ResolveChannel` | discord/guild.py:966-970 | No ID resolves to nothing; an ID resolves as `get_channel_or_thread`. |
| `GuildState.DefaultRole` | discord/guild.py:1230-1234 | The default role exists iff a role is cached under the guild's own ID; that role carries the guild ID. |
| `GuildState.AddChannel` | discord/guild.py:552-553 | Upsert: afterwards the ID maps to the new channel. Every other ID looks up as before. No other field of the guild changes. The keyed invariant is kept. |
| `GuildState.RemoveChannel` | discord/guild.py:555-556 | Afterwards the ID is absent and every other ID looks up as before. Removing an absent ID leaves the guild unchanged. |
| `GuildState.AddThenRemoveChannel` | discord/guild.py:552-556 | Adding a channel under a fresh ID and removing it again restores the guild exactly, insertion order included. |
| `GuildState.AddMember` | discord/guild.py:561-565 | Upsert under the member's ID, of the member with its pending presence cleared. A pending presence is logged as one `store_presence` call. A member without one logs nothing. Other IDs are untouched. |
| `GuildState.RemoveMember` | discord/guild.py:572-574 | The ID is absent afterwards and other IDs are untouched. One `remove_presence` call is logged whether or not the member was cached. |
| `GuildState.AddThread` | discord/guild.py:576-577 | Upsert under the thread's ID; other IDs untouched. |
| `GuildState.StoreThread` | discord/guild.py:567-570 | The built thread is returned and cached under its ID; other IDs untouched. |
| `GuildState.RemoveThread` | discord/guild.py:579-580 | The ID is absent afterwards; other IDs untouched; an absent ID changes nothing. |
| `GuildState.DeleteEach` | discord/guild.py:584-585 | The `del` loop raises `KeyError` if it hits a missing key. When it succeeds, exactly the listed IDs are gone and the other entries are unchanged. It cannot fail when the listed IDs are distinct and cached. |
| `GuildState.ChildrenDeletable` | discord/guild.py:582-585 | The children listed from a keyed thread store have distinct IDs. Those IDs are exactly the keys of the matching entries. |
| `GuildState.RemoveThreadsByChannel` | discord/guild.py:582-586 | Returns exactly the cached threads whose parent is the channel, with distinct IDs. Afterwards those threads are gone and every other thread is untouched. |
| `GuildState.DeleteChildren` | discord/guild.py:583-585 | Deleting the listed children of a keyed store leaves exactly the entries whose thread fails the predicate. |
| `GuildState.ChildrenDeleted` | discord/guild.py:583-585 | A successful deletion of the listed children keeps exactly the other threads, still keyed by ID. |
| `GuildState.RemovedThreadsAreFiltered` | discord/guild.py:582-589 | The returned list equals the values `_filter_threads({channel_id})` reports, in the same order. |
| `GuildState.RemoveThreadsPartitions` | discord/guild.py:582-586 | Every cached thread either stays in the store or is returned, never both. |
| `GuildState.FilterThreads` | discord/guild.py:588-589 | The result holds exactly the threads whose parent is in the set, with their stored values. The thread store is not modified. |
| `GuildState.AddRole` | discord/guild.py:638-639 | Upsert under the role's ID; other IDs untouched. |
| `GuildState.RemoveRole` | discord/guild.py:641-643 | `KeyError` iff the ID is not cached. Otherwise the stored role is returned, its ID removed, and no other role or field changes. |
| `GuildState.ChannelFor` | discord/guild.py:609 | An absent channel ID resolves to no channel; a present one is looked up in the channel store. |
| `GuildState.UpdateVoiceStore` | discord/guild.py:609-623 | The three branches of the update. With an entry and a resolved channel, the entry is updated in place and `before` is the prior value. With an entry and no channel, the entry is popped. With no entry, one is inserted even for an unresolved channel, and `before` has no channel. Other users are untouched. |
| `GuildState.VoiceMember` | discord/guild.py:625-634 | A cached member is returned unchanged. Otherwise the payload's member is returned, and it is cached (as by `_add_member`) only when voice caching is on. |
| `GuildState.UpdateVoiceState` | discord/guild.py:604-636 | `after` is the payload resolved against the channel, and `before` and the store follow the three branches above. Only the voice, member and presence fields can change, and the keyed invariant is kept. |
| `GuildState.VoiceUpdateMember` | discord/guild.py:625-634 | The member store and the presence log change only when no member with the user's ID is cached, the payload carries one and voice caching is on. In that case exactly that member is added. |
| `GuildLoad.BuildChannels` | discord/guild.py:676-679 | Payloads whose type has no factory are skipped. The others are built in order by the class the factory picks. |
| `GuildLoad.BuildChannelsKeys` | discord/guild.py:676-679 | The IDs of the built channels are exactly the IDs of payloads the factory accepts. |
| `GuildLoad.LoadStores` | discord/guild.py:649-690 | The role, channel, thread, stage-instance and event stores hold exactly the snapshot's entities: an ID holds the last entity listed with it (channels as the factory built them), and an ID no entity has is absent. An unavailable guild gets a member count of 0. No member, voice state or presence is loaded yet. |
| `GuildLoad.LoadVoiceStates` | discord/guild.py:733-734 | `int(None)` on a voice state whose channel ID is null raises `TypeError`, so the load fails iff some voice state has a null channel ID. Without voice caching, no member is added. |
| `GuildLoad.LoadVoiceStatesContents` | discord/guild.py:612-623 | For distinct users with no cached voice state, every listed user gets an entry holding the payload and the channel its ID resolves to, or no channel when that channel is not cached. Other users' entries are unchanged. A user has an entry afterwards iff they had one or are listed. |
| `GuildLoad.LoadMembers` | discord/guild.py:736-740 | An ID is cached afterwards iff it was before or some snapshot member with that ID passes the admission rule: every joined member, the connected user, or a voice-connected member when voice members are cached. Only the member store and the presence log change. |
| `GuildLoad.LoadMembersContents` | discord/guild.py:736-740 | Each ID holds the last admitted snapshot member with it, with its pending presence cleared; a repeated ID is overwritten. Other IDs keep what was cached before. The presence store sees one `store_presence` call per admitted member with a pending presence, in snapshot order. |
| `GuildLoad.LoadMembersStep` | discord/guild.py:561-565 | Adding one admitted member moves the stored values and the presence log on by exactly that member. |
| `GuildLoad.LoadPresences` | discord/guild.py:742-745 | Each snapshot presence is logged as one `store_presence` call, in order, after the earlier calls. |
| `GuildLoad.PresenceCalls` | discord/guild.py:742-745 | One `store_presence` call per snapshot presence, for its user and the guild, in order. |
| `GuildLoad.AfterVoice` | discord/guild.py:733-734 | After the voice states are applied, the cache still satisfies the keyed-store invariant. |
| `GuildLoad.AfterVoiceStates` | discord/guild.py:733-734 | When each user's voice state is listed once, a user has a cached voice state iff the snapshot lists one. It holds the payload and the snapshot channel its channel ID names, or no channel when the factory skipped that channel or no snapshot channel has the ID. |
| `GuildLoad.FromDataVoiceAdmits` | discord/guild.py:733-740 | With voice members cached and each user's voice state listed once, a snapshot member that has a voice state is cached, whatever the other admission conditions say. |
| `GuildLoad.FromData` | discord/guild.py:649-745 | It fails, always with `TypeError`, iff a voice state has a null channel ID. On success the cache is keyed, the member count is 0 for an unavailable guild, and the boost count defaults to 0. The cached member IDs are those the admission rule lets in against the voice states loaded just before. |
| `GuildLoad.FromDataStores` | discord/guild.py:672-690 | After `_from_data`, an ID of the role, channel, thread, stage-instance or event store holds the last snapshot entity with that ID, and is absent when no snapshot entity has it. |
| `GuildLoad.FromDataMembers` | discord/guild.py:733-745 | After `_from_data`, each ID holds the last admitted snapshot member with it, or else what the voice states cached. The presence log is the voice-state calls, then one call per admitted member with a pending presence, then one call per snapshot presence. |
| `GuildLoad.FromDataChannels` | discord/guild.py:676-679 | The loaded channel IDs are exactly those of the snapshot channels whose type has a factory. |
| `GuildLoad.FromDataAdmissionNoVoice` | discord/guild.py:736-740 | Without the voice cache flag, the cached members are exactly the snapshot members that are joined-cached or the connected user. |
| `GuildLoad.UnavailableGuildIsEmpty` | discord/guild.py:666-668 | An unavailable guild reports 0 members. It is not extra large, and it is large only if the gateway said so. |
| `GuildViews.StoredChannel` | discord/guild.py:989-1010 | A channel listed from a keyed store is the entry under its own ID. |
| `GuildViews.ChannelsOfKind` | discord/guild.py:878-884 | The per-class listing (`text_channels`, and likewise `voice_channels`, `stage_channels`, `categories`, `forums`, `directory_channels`, `directories`) is sorted by `(position, id)`. It is a permutation of the cached channels of that class: each listed channel is cached with that class, and each cached one is listed. |
| `GuildViews.ChannelListingUnique` | discord/guild.py:801-807 | IDs are unique, so the `(position, id)` order has no ties. Any sorted arrangement of a class's channels is that listing. |
| `GuildViews.ChannelsSeparated` | discord/guild.py:878-884 | No two cached channels tie in the `(position, id)` order. |
| `GuildViews.GroupStepContents` | discord/guild.py:944-953 | One pass of the grouping loop extends only the group of the channel's key. A category only creates its (empty) group. |
| `GuildViews.EmptyGroup` | discord/guild.py:944-953 | A key no channel is filed under has no channels. |
| `GuildViews.GroupedContents` | discord/guild.py:944-953 | The `grouped` dict has a key exactly for each category and each category ID a channel names. Under each key it lists exactly the non-category channels with that category ID, in store order. |
| `GuildViews.GroupKeys` | discord/guild.py:960 | The keys of the items, in item order. |
| `GuildViews.GroupList` | discord/guild.py:959-960 | One item per grouped key, in dict order. Each item pairs `_channels.get(key)` with exactly that key's channels, and no item repeats. |
| `GuildViews.SortedGroups` | discord/guild.py:955-961 | The items sorted by the key: the category's `(position, id)`, `(-1, -1)` without a cached category, and an empty group before a non-empty one that ties with it. They are a permutation of the unsorted items, with distinct keys. |
| `GuildViews.SortEachGroup` | discord/guild.py:962-963 | Each group's channels are permuted into `(_sorting_bucket, position, id)` order. Keys, categories and the group order are kept. |
| `GuildViews.ByCategory` | discord/guild.py:931-964 | `TypeError` iff two items tie on `(position, id)` and both list channels, because the key then compares two channels with `<`. Otherwise the groups are sorted by the key. Every category and every named category ID has exactly one group. Its category is the cached channel under the key. Its channels are sorted by bucket, position and ID, and are a permutation of exactly the non-category channels filed there. |
| `GuildViews.FiledChannelListed` | discord/guild.py:944-960 | A non-category channel's category ID has an item, and that item lists channels. |
| `GuildViews.UncachedCategoryClashes` | discord/guild.py:955-961 | A channel without a category plus a channel whose category ID names no cached channel make `by_category` raise `TypeError`: both groups sort at `(-1, -1)`. |
| `GuildViews.ByCategoryOrderDetermined` | discord/guild.py:955-961 | When `by_category` does not raise, no two items tie under the key, so any sorted arrangement of the items is the model's order. |
| `GuildViews.CategoryOfEmptyGroup` | discord/guild.py:944-948 | Only a cached category has an empty group, and it carries the group's key as its ID. |
| `GuildViews.KeysOfGroups` | discord/guild.py:944-961 | The sorted items carry exactly the keys of the `grouped` dict. |
| `GuildInfo.Large` | discord/guild.py:761-770 | The gateway's flag wins. Otherwise the guild is large iff the member count, or lacking one the number of cached members, reaches 250. |
| `GuildInfo.LargeSurvivesAddMember` | discord/guild.py:561-565 | Caching a member never turns a large guild small. |
| `GuildInfo.OfflineMembersHidden` | discord/guild.py:774-777 | True iff the member count (0 when unknown), plus the hoisted roles, plus 2 reaches 1000. The count read through the sorted `roles` view equals the count over the store. |
| `GuildInfo.ExtraLarge` | discord/guild.py:780-781 | True iff a member count is known and is at least 75000. |
| `GuildInfo.SizeFlagsNest` | discord/guild.py:761-781 | An extra-large guild hides offline members. It is also large unless the gateway flag says otherwise. |
| `GuildInfo.MemberCount` | discord/guild.py:1348-1355 | The exact count when known, else the approximate one. It is `None` iff both are unknown. |
| `GuildInfo.PremiumTier` | discord/guild.py:1175-1195 | An explicit tier wins. Otherwise the tier lies in 0..3, the tier-3 override feature gives 3, and without it the tier reaches `t` iff the boost count reaches the `t`-th threshold of 2, 7, 14. |
| `GuildInfo.PremiumTierMonotone` | discord/guild.py:1175-1195 | Without an explicit tier, more boosts never lower the tier. |
| `GuildInfo.PremiumLimits` | discord/guild.py:529-534 | The limits table raises `KeyError` iff the tier is outside 0..3. Each row allows at least 50 emoji and the default file size. |
| `GuildInfo.LimitsMonotone` | discord/guild.py:529-534 | A higher tier never lowers the emoji, sticker or file-size limit. |
| `GuildInfo.EmojiLimit` | discord/guild.py:1125-1129 | `KeyError` iff the tier is outside the table. Otherwise the limit is the larger of 200-or-50 (by `MORE_EMOJI`) and the tier's emoji allowance. |
| `GuildInfo.StickerLimit` | discord/guild.py:1131-1138 | `KeyError` iff the tier is outside the table. Otherwise the limit is the larger of 60-or-0 (by `MORE_STICKERS`) and the tier's sticker allowance. |
| `GuildInfo.FilesizeLimit` | discord/guild.py:1146-1149 | `KeyError` iff the tier is outside the table. Otherwise the limit is the tier's file-size entry, which is never below the default of 10 MiB. |
| `GuildInfo.LimitsGrowWithBoosts` | discord/guild.py:1125-1195 | Without an explicit tier all three limits exist, and more boosts never lower any of them. |
| `GuildInfo.MembersView` | discord/guild.py:1151-1154 | The `members` view lists every cached member once, in insertion order. |
| `GuildInfo.ChannelsView` | discord/guild.py:748-750 | The `channels` view lists every cached channel once, in insertion order. |
| `GuildInfo.ThreadsView` | discord/guild.py:753-758 | The `threads` view lists every cached thread once, in insertion order. |
| `GuildInfo.ThreadsViewTracksStore` | discord/guild.py:753-758 | A fresh proxy per access means a thread just cached is listed, and after a removal no listed thread has the removed ID. |
| `GuildInfo.ChannelsViewAppends` | discord/guild.py:748-750 | A channel cached under a fresh ID appears last in the next `channels` view, after the earlier channels in their order. |
| `GuildInfo.ChannelsViewRemoves` | discord/guild.py:555-556 | After a channel is removed, the next `channels` view is the previous one without that channel, the others in their order. |
| `GuildInfo.RolesView` | discord/guild.py:1202-1209 | The `roles` view is a permutation of the role store, sorted by the role order. |
| `GuildInfo.RolesViewTracksStore` | discord/guild.py:1202-1209 | A role just added is in the next `roles` view; a role just removed is not. |
| `GuildInfo.StoredRole` | discord/guild.py:1202-1209 | A role listed from a keyed store is the entry under its own ID. |
| `GuildInfo.PremiumSubscribers` | discord/guild.py:1197-1200 | Exactly the cached members with a boost date are listed: each listed member is cached and boosting, and each boosting cached member is listed. |
| `GuildInfo.BoosterListed` | discord/guild.py:1197-1200 | A member just cached is listed as a booster iff they boost. |
| `GuildInfo.PremiumSubscriberRole` | discord/guild.py:1236-1245 | `None` iff no cached role is the boost role. Otherwise it is the first boost role in store order. |
| `GuildInfo.ChannelAttribute` | discord/guild.py:1055-1120 | `system_channel` and the other channel attributes give nothing for an unset ID or the ID 0. Any other ID is looked up in the channel store. |
| `GuildInfo.ChannelAttributeTracksStore` | discord/guild.py:1055-1120 | The attribute resolves to a channel once it is cached, and to nothing once it is removed. |
| `MemberNamed.LastIndexOf` | discord/guild.py:1426 | The position of the last `#`, if any. Nothing after it is a `#`. |
| `MemberNamed.SplitTag` | discord/guild.py:1426-1430 | `rpartition('#')` plus the swap. A name without `#` is the whole username. A non-empty discriminator is what follows the last `#`, after a non-empty username. |
| `MemberNamed.TagRoundTrip` | discord/guild.py:1426-1430 | `username#discriminator` splits back into its parts whenever the discriminator holds no `#`. |
| `MemberNamed.GetMemberNamed` | discord/guild.py:1391-1438 | With a well-formed discriminator, the result is a cached member with that username and discriminator, and `None` iff no member has the tag. Otherwise the result is a member whose nickname, global name or username is the whole string, and `None` iff there is none. The result is the first member in store order that satisfies the chosen predicate. |
| `MemberNamed.FindOverStore` | discord/guild.py:1424-1438 | Searching the `members` view finds nothing iff no cached member satisfies the predicate. |
| `MemberNamed.TagFindsMember` | discord/guild.py:1391-1438 | Every cached member with a valid discriminator is found by their own tag. |
| `MemberNamed.PlainNameFindsMember` | discord/guild.py:1391-1438 | A name without `#` finds a member iff some cached member carries it as nickname, global name or username. |
| `MemberNamed.TagLookupDoesNotFallBack` | discord/guild.py:1391-1438 | A tag no member has gives `None`, even when some member's nickname is the whole string. |
| `PyDict.Empty` | discord/guild.py:537-545 | An empty dict has no keys. |
| `PyDict.Get` | discord/guild.py:989-1010 | `d.get(k)` is present iff `k` is a key, and is then its value. |
| `PyDict.Values` | discord/guild.py:748-750 | `d.values()` lists the value of each key in insertion order. |
| `PyDict.Set` | discord/guild.py:552-553 | `d[k] = v`: `k` maps to `v` and other keys are unchanged. A new key goes last in the order; an existing key keeps its place. |
| `PyDict.SetValuesFresh` | discord/guild.py:552-553 | Setting a fresh key appends its value to `values()`. |
| `PyDict.SetValuesExisting` | discord/guild.py:552-553 | Overwriting a key replaces its value in place in `values()`. |
| `PyDict.Pop` | discord/guild.py:555-556 | `d.pop(k, None)` returns the value iff `k` is a key, and removes exactly that key, keeping the order of the rest. |
| `PyDict.PopValues` | discord/guild.py:555-556 | Popping a key takes its value out of `values()`; the other values keep their order. |
| `PyDict.Filter` | discord/guild.py:588-589 | A dict comprehension with a condition keeps exactly the entries whose value satisfies it, in order. |
| `PyDict.FilterValues` | discord/guild.py:582-589 | The values of the filtered dict are the filtered values, in order. |
| `PyDict.SetAllGet` | discord/guild.py:672-690 | After an upsert loop over a list, a key maps to the last listed entity with that key, or keeps its old value. |
| `PyDict.SetAllKeyed` | discord/guild.py:672-690 | An upsert loop keyed by entity ID keeps a keyed store keyed. |
| `PyDict.Loaded` | discord/guild.py:672-690 | What an upsert loop leaves under a key: nothing iff no listed entity has the key, else an entity listed with it. |
| `PyDict.SetAllFromEmpty` | discord/guild.py:672-690 | An upsert loop into an empty dict stores, under each key, the last listed entity with it. |
| `PyDict.Load` | discord/guild.py:672-690 | A dict loaded from a list holds the last listed entity under each key, nothing under other keys, and is keyed. |
| `PyDict.LoadedSnoc` | discord/guild.py:736-740 | Listing one more entity changes what is loaded under its key only. |
| `PyDict.ValueListed` | discord/guild.py:1151-1154 | Every stored value appears in `values()`. |
| `Seqs.Filter` | discord/guild.py:583 | A list comprehension with a condition keeps exactly the satisfying elements, each from the input. |
| `Seqs.FilterDistinct` | discord/guild.py:583 | Filtering a duplicate-free list keeps it duplicate-free. |
| `Seqs.FilterPermutation` | discord/guild.py:774-777 | Filtering two permutations of each other yields permutations of each other of the same length. |
| `Seqs.FilterAllPass` | discord/guild.py:583 | A list whose elements all pass a filter is kept whole. |
| `Seqs.FilterDropsOne` | discord/guild.py:583 | When exactly one position fails a filter, filtering removes exactly that position. |
| `Seqs.Find` | discord/utils.py:553-554 | `_find` returns `None` iff no element satisfies the predicate. Otherwise it returns the first element that does. |
| `Seqs.Get` | discord/utils.py:611-626 | `_get` returns `None` iff no element matches all attributes. Otherwise it returns the first element that matches. With no attributes it returns the first element. The single-attribute fast path agrees with the general path. |
| `Seqs.Unique` | discord/utils.py:727-728 | `_unique` returns a duplicate-free list with the same elements. |
| `Seqs.UniqueFirstOccurrenceOrder` | discord/utils.py:727-728 | `_unique` lists the elements in the order of their first occurrence. |
| `Sorting.Sort` | discord/utils.py:255-256 | `sorted` returns a permutation of its input, sorted under any total preorder. |
| `Sorting.SortedUnique` | discord/utils.py:255-256 | Two sorted permutations of each other coincide when the order has no ties between distinct elements. |
| `SequenceProxy.New` | discord/utils.py:248-250 | A new proxy has copied nothing yet. |
| `SequenceProxy.Materialize` | discord/utils.py:252-259 | The first read copies the backing collection: sorted when asked, verbatim otherwise, always a permutation. Every later read returns that copy. |
| `SequenceProxy.Len` | discord/utils.py:275-276 | The length is the live backing length before the first read, and the copy's length afterwards. |
| `SequenceProxy.ResolveIndex` | discord/utils.py:272-273 | Python indexing: an index is valid iff it lies in `-n..n-1`. A negative index counts from the end. |
| `SequenceProxy.GetItem` | discord/utils.py:264-273 | Indexing reads the copy and raises `IndexError` iff the index is out of range. |
| `SequenceProxy.Contains` | discord/utils.py:278-279 | Membership is decided by the copy. On a proxy not yet read, that means membership in the backing collection. |
| `SequenceProxy.Count` | discord/utils.py:290-291 | The number of occurrences in the copy, which on a first read is the number in the backing collection. |
| `SequenceProxy.Index` | discord/utils.py:287-288 | The first position of the value in the copy, and `ValueError` iff it does not occur. |
| `SequenceProxy.Iterate` | discord/utils.py:281-285 | Iteration lists the copy forwards; reversed iteration lists it backwards. |
| `SequenceProxy.RepeatedReadsStable` | discord/utils.py:252-259 | Once read, a proxy answers from the same copy and length whatever the backing collection becomes: there is no invalidation. |
| `SequenceProxy.FreshProxySeesCurrent` | discord/utils.py:248-259 | A proxy built after a mutation sees the current contents, sorted when asked, with the live length. |
| `SnowflakeList.New` | discord/utils.py:966-969 | Unsorted data is stored as its sorted permutation. Data vouched to be sorted is stored verbatim. |
| `SnowflakeList.BisectLeft` | discord/utils.py:974-976 | On an ascending array `bisect_left` returns the split point: everything before it is below `x`, nothing after it is. |
| `SnowflakeList.InsertAscending` | discord/utils.py:974-976 | Inserting at that split point keeps the array ascending. |
| `SnowflakeList.Add` | discord/utils.py:974-976 | `add` lengthens the array by one and adds `x` to its multiset. It keeps the array ascending by inserting at the `bisect_left` point. |
| `SnowflakeList.Has` | discord/utils.py:982-984 | On an ascending array, `has(x)` iff `x` occurs. |
| `SnowflakeList.Get` | discord/utils.py:978-980 | On an ascending array, `get(x)` is `x` iff `x` occurs, and `None` otherwise. |
| `SnowflakeList.AddThenHas` | discord/utils.py:974-984 | After `add(x)`, `x` and every earlier member are found. |
| `SnowflakeList.AddKeepsDuplicates` | discord/utils.py:974-976 | Adding a present value stores a second copy. |
| `Snowflake.WorkerId` | discord/utils.py:448-463 | The worker ID lies in 0..31. |
| `Snowflake.ProcessId` | discord/utils.py:466-481 | The process ID lies in 0..31. |
| `Snowflake.Increment` | discord/utils.py:484-500 | The increment lies in 0..4095. |
| `Snowflake.FieldsReassemble` | discord/utils.py:448-500 | The timestamp, worker, process and increment fields are disjoint bit ranges that reassemble the ID. |
| `Snowflake.TimeRoundTrip` | discord/utils.py:519-550 | `(time_snowflake(t) >> 22) + DISCORD_EPOCH == t`. The low 22 bits are all set iff `high`. |
| `Snowflake.TimeSnowflakeLowFields` | discord/utils.py:448-550 | With `high`, the worker, process and increment fields are all ones; without it, all zeros. |
| `Snowflake.TimeSnowflakeBrackets` | discord/utils.py:523-550 | An ID was created in millisecond `t` iff it lies between `time_snowflake(t)` and `time_snowflake(t, high=True)`. |
| `Snowflake.WorkerBits` | discord/utils.py:448-463 | The worker ID is the top five of the low 22 bits. |
| `Snowflake.ProcessBits` | discord/utils.py:466-481 | The process ID is the next five bits. |
| `SnowflakeField.ParseInt` | discord/utils.py:737 | `int(s)` fails only with `ValueError`. It succeeds iff `s` is an optional sign followed by at least one digit. A digit string parses to its decimal value; a leading `-` negates it and a leading `+` leaves it unchanged. |
| `SnowflakeField.GetAsSnowflake` | discord/utils.py:731-737 | A missing key gives `None`. A falsy value is returned as-is. A truthy one becomes `int(value)`: an int is kept, `True` becomes 1, and a numeric string becomes the integer it spells. It fails, with `ValueError`, iff the value is a non-empty string that is not an integer. |
| `SnowflakeField.Decimal` | discord/utils.py:737 | The decimal spelling of a non-negative ID is a non-empty digit string. |
| `SnowflakeField.DecimalRoundTrip` | discord/utils.py:737 | Parsing the decimal spelling of a number gives the number back. |
| `SnowflakeField.SnowflakeRoundTrip` | discord/utils.py:731-737 | An ID sent as its decimal string is read back as that ID. |
| `SnowflakeField.SignedRoundTrip` | discord/utils.py:737 | `int(str(n)) == n` for every integer, negative ones included. |
| `SnowflakeField.PlusRoundTrip` | discord/utils.py:737 | A leading `+` does not change the value: `int('+' + str(n)) == n`. |
| `SnowflakeField.SignedSnowflakeRoundTrip` | discord/utils.py:731-737 | A field holding any integer's `str()` spelling, sign included, is read back as that integer. |
| `Chunks.Chunk` | discord/utils.py:1221-1232 | Concatenating the chunks gives the input. Every chunk is non-empty, all but the last are full, and the last is at most full. A size of 0 or less puts everything in one chunk. |
| `Chunks.AsChunks` | discord/utils.py:1259-1282 | A size of 0 or less raises `ValueError`. Otherwise the chunks of `_chunk`, `ceil(n / max_size)` of them. |
| `Chunks.ChunkCount` | discord/utils.py:1221-1232 | A well-chunked split of `n` items into chunks of at most `max_size` has `ceil(n / max_size)` chunks. |
| `IconSize.ClearLowestBit` | discord/utils.py:944 | `x & (x - 1) == 0` iff `x` is a power of two. |
| `IconSize.ValidIconSizeIff` | discord/utils.py:941-944 | A size is valid iff it is a power of two from 16 to 4096 or one of the additional sizes. |
| `BrandOrder.RandomOrder` | discord/utils.py:1920-1955 | `_get_random_order` returns a permutation of `0..size-1` for size 2 or 3, and of `0..3` for any other size. |
| `BrandOrder.ThreeOrdersArePermutations` | discord/utils.py:1925-1926 | Every entry of the three-element table is a permutation. |
| `BrandOrder.FourOrdersArePermutations` | discord/utils.py:1928-1955 | Every entry of the four-element table is a permutation. |
| `BrandOrder.GreasedBrandVersion` | discord/utils.py:1958-1971 | The greased brand is `Not?A?Brand` with two distinct grease characters chosen by the seed. Its version is one of 8, 99, 24. |
| `BrandOrder.BrandList` | discord/utils.py:1907-1912 | The unshuffled list has three entries when a non-empty brand is given, else two. |
| `BrandOrder.Shuffle` | discord/utils.py:1915-1918 | The placement loop puts item `i` at position `order[i]`, so every output slot holds an input item. |
| `BrandOrder.GenerateBrandVersionList` | discord/utils.py:1905-1918 | The brand list is shuffled by the version's permutation: item `i` ends at `order[i]`. |

## Behaviour as coded

Where the library's described behaviour and its code part ways, the model
follows the code:
- `SnowflakeList.add` inserts a value that is already present a second time
  (discord/utils.py:974-976).
- A voice update for a user with no entry inserts one even when the channel
  does not resolve (discord/guild.py:619-623).
- `_remove_role` raises `KeyError` for an unknown ID (discord/guild.py:641-643).
- `SequenceProxy` never invalidates its copy (discord/utils.py:252-259). Only
  the fresh proxy each guild property builds keeps the views current.
- `get_member_named` does not try the tag, nickname, global name and username
  one after another, as its docstring suggests. It chooses one predicate from
  the shape of the name and makes a single pass over the members. A name that
  looks like a tag never falls back to nicknames
  (discord/guild.py:1424-1438).
- `by_category` is documented to return every category with its channels.
  A channel outside any category next to a channel whose category is not
  cached makes the key compare two channels, and the sort raises `TypeError`
  (discord/guild.py:955-961).

## Left out

- The asynchronous request methods of `Guild` are network I/O. Their only
  effect on the cache is the `_channels[id] = channel` store, which is
  `AddChannel`.
- Datetime and float members are not modelled:
  - `snowflake_time`'s datetime conversion; only its integer millisecond part is kept (`Snowflake.TimeMillis`);
  - `time_snowflake`'s `dt.timestamp()`; the model takes whole milliseconds;
  - `bitrate_limit` and the bitrate column of the limits table;
  - `created_at`, `joined_at` and the pause and raid checks.
- `BrandOrder.RandomOrder`: the call also reseeds Python's global random
  generator. That side effect is not modelled.
- `chunked`, `is_joined`, `me`, `notification_settings` and `get_emoji`
  depend on the connection state and its subscriptions, which are not part of
  this model.
- Entity constructors (`Member`, `Role`, `Thread`, `VoiceState`,
  `StageInstance`, `ScheduledEvent`, the channel classes) are foreign code.
  The snapshot carries already-built records, reduced to the attributes the
  cache reads. Emoji and sticker storage is left out. So are name,
  description and other scalar fields that are copied from the payload
  without any rule.
- The connection's presence store is a log of calls (`presenceLog`), not a
  store; `create_presence` is the identity.
- `GuildViews.ByCategory`: the channel classes live in `abc.py` and the
  channel modules, which are not part of this model. The model takes two
  different channels to compare unequal and to have no `<`. Under that
  reading, two tied items that both list channels raise `TypeError`: the
  no-category group and every group of an uncached category ID tie at
  `(-1, -1)`. A tied empty group sorts first without any channel being
  compared.
- `GuildViews.ByCategory`: its items keep the grouping key next to the
  category. For a category ID that names no cached channel, that lets the
  contract say which group is which.
- `GuildInfo.ChannelAttribute`: for the ID 0, `channel_id and ...` returns
  the int 0, not `None`. The model returns no channel, which is what callers
  see as falsy.
- `GuildInfo.ChannelAttribute`: the six channel-ID fields are not stored in
  the guild record. The attribute takes the ID as a parameter; reading the
  field is `SnowflakeField.GetAsSnowflake`.
- `SnowflakeField.ParseInt`: Python's `int()` also accepts surrounding
  whitespace, `_` digit separators and non-ASCII decimal digits. The model
  accepts only an optional sign followed by ASCII digits.
- `MemberNamed.GetMemberNamed`: `str.isdigit` also accepts non-ASCII digits.
  The model's discriminator test accepts ASCII digits only.
- `GuildLoad.AfterVoiceStates`, `GuildLoad.LoadVoiceStatesContents`: the
  voice-state store is stated only for snapshots that list each user once. A
  repeated user takes the update-or-pop branch of `_update_voice_state`, whose
  single step `GuildState.UpdateVoiceState` states, but the result of the
  whole list is not characterised.
- `GuildLoad.LoadVoiceStates`: a voice state with no `channel_id` key at all
  raises `KeyError` in `int(vs['channel_id'])`. The model's payload always
  carries the field, with null as the only missing value.
- `GuildLoad.LoadVoiceStates`: when a later voice state has a null channel ID,
  the `TypeError` discards the guild. The `store_presence` calls that earlier
  voice-state members already made on the connection are lost with it. The
  model's presence log records calls only for a load that succeeds.
- `SnowflakeList.New`, `SnowflakeList.Add`: `array('Q')` raises
  `OverflowError` for a value outside 0..2^64-1. The elements are typed
  `U64`, so that error path is not modelled.
- `SequenceProxy.GetItem`: indexing with a slice is not modelled; only
  integer indices are.
- `SequenceProxy.Index`: the optional `start` and `stop` arguments of
  `index` are not modelled; the search covers the whole copy.
- `GuildState.RemoveThreadsByChannel` requires the keyed-store invariant
  (`GuildWf`), which `_from_data` and every mutator keep. Under it, the `del`
  loop cannot raise.
- `GuildInfo.MembersView`, `GuildInfo.ChannelsView`,
  `GuildInfo.ThreadsView`: only a materialised proxy is modelled. Indexing,
  membership and counting on these views are the generic `SequenceProxy`
  operations.
- The role order is a parameter. `Role.__lt__` lives in a file that is not
  part of this model.
- The async variants `_afind`, `_aget` and `_achunk` are asyncio plumbing.
  Their synchronous counterparts are modelled.
