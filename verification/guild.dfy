/** The in-memory cache of one guild: ID-keyed, insertion-ordered stores of
    channels, threads, roles, members, voice states, stage instances and
    scheduled events, plus the scalar fields the derived properties read.

    The cache changes only through the small synchronous mutators below.
    Calls the mutators make into the connection's presence store are recorded
    in `presenceLog`, in call order. */
module GuildState {
  import opened Wrappers
  import opened Entities
  import PyDict
  import Seqs

  /** A call into the connection's presence store. */
  datatype PresenceOp =
    | StorePresence(userId: int, presence: Presence, guildId: int)
    | RemovePresence(userId: int, guildId: int)

  datatype Guild = Guild(
    id: int,
    channels: PyDict.Dict<int, Channel>,
    threads: PyDict.Dict<int, Thread>,
    roles: PyDict.Dict<int, Role>,
    members: PyDict.Dict<int, Member>,
    voiceStates: PyDict.Dict<int, VoiceState>,
    stageInstances: PyDict.Dict<int, StageInstance>,
    scheduledEvents: PyDict.Dict<int, ScheduledEvent>,
    memberCount: Option<int>,
    large: Option<bool>,
    approximateMemberCount: Option<int>,
    premiumTier: Option<int>,
    premiumSubscriptionCount: int,
    features: seq<string>,
    unavailable: bool,
    presenceLog: seq<PresenceOp>)

  /** Every store is keyed by the ID of the entity under the key (voice states
      by the payload's user ID). */
  ghost predicate GuildWf(g: Guild) {
    && (forall k :: k in g.channels.entries ==> g.channels.entries[k].id == k)
    && (forall k :: k in g.threads.entries ==> g.threads.entries[k].id == k)
    && (forall k :: k in g.roles.entries ==> g.roles.entries[k].id == k)
    && (forall k :: k in g.members.entries ==> g.members.entries[k].id == k)
    && (forall k :: k in g.voiceStates.entries ==> g.voiceStates.entries[k].data.userId == k)
    && (forall k :: k in g.stageInstances.entries ==> g.stageInstances.entries[k].id == k)
    && (forall k :: k in g.scheduledEvents.entries ==> g.scheduledEvents.entries[k].id == k)
  }

  /** A guild as `Guild.__init__` leaves it before `_from_data` runs. */
  function Fresh(id: int): (g: Guild)
    ensures GuildWf(g)
    ensures g.channels.order == [] && g.threads.order == [] && g.roles.order == [] && g.members.order == []
    ensures g.voiceStates.order == [] && g.stageInstances.order == [] && g.scheduledEvents.order == []
    ensures g.memberCount.None? && g.large.None? && g.presenceLog == []
  {
    Guild(id, PyDict.Empty(), PyDict.Empty(), PyDict.Empty(), PyDict.Empty(), PyDict.Empty(),
          PyDict.Empty(), PyDict.Empty(), None, None, None, None, 0, [], false, [])
  }

  // ---------------------------------------------------------------- lookups

  /** `get_channel`; threads are not searched. */
  function GetChannel(g: Guild, id: int): (r: Option<Channel>)
    ensures r.Some? <==> id in g.channels.entries
    ensures r.Some? ==> r.value == g.channels.entries[id]
    ensures GuildWf(g) && r.Some? ==> r.value.id == id
  {
    PyDict.Get(g.channels, id)
  }

  /** `get_thread`. */
  function GetThread(g: Guild, id: int): (r: Option<Thread>)
    ensures r.Some? <==> id in g.threads.entries
    ensures r.Some? ==> r.value == g.threads.entries[id]
    ensures GuildWf(g) && r.Some? ==> r.value.id == id
  {
    PyDict.Get(g.threads, id)
  }

  /** `get_role`. */
  function GetRole(g: Guild, id: int): (r: Option<Role>)
    ensures r.Some? <==> id in g.roles.entries
    ensures r.Some? ==> r.value == g.roles.entries[id]
    ensures GuildWf(g) && r.Some? ==> r.value.id == id
  {
    PyDict.Get(g.roles, id)
  }

  /** `get_member`. */
  function GetMember(g: Guild, id: int): (r: Option<Member>)
    ensures r.Some? <==> id in g.members.entries
    ensures r.Some? ==> r.value == g.members.entries[id]
    ensures GuildWf(g) && r.Some? ==> r.value.id == id
  {
    PyDict.Get(g.members, id)
  }

  /** `_voice_state_for`. */
  function VoiceStateFor(g: Guild, userId: int): (r: Option<VoiceState>)
    ensures r.Some? <==> userId in g.voiceStates.entries
    ensures r.Some? ==> r.value == g.voiceStates.entries[userId]
  {
    PyDict.Get(g.voiceStates, userId)
  }

  /** `get_stage_instance`. */
  function GetStageInstance(g: Guild, id: int): (r: Option<StageInstance>)
    ensures r.Some? <==> id in g.stageInstances.entries
    ensures r.Some? ==> r.value == g.stageInstances.entries[id]
  {
    PyDict.Get(g.stageInstances, id)
  }

  /** `get_scheduled_event`. */
  function GetScheduledEvent(g: Guild, id: int): (r: Option<ScheduledEvent>)
    ensures r.Some? <==> id in g.scheduledEvents.entries
    ensures r.Some? ==> r.value == g.scheduledEvents.entries[id]
  {
    PyDict.Get(g.scheduledEvents, id)
  }

  /** What `get_channel_or_thread` can return. */
  datatype ChannelOrThread = AChannel(channel: Channel) | AThread(thread: Thread)

  /** `get_channel_or_thread`: `channels.get(id) or threads.get(id)`. Channel
      objects are always truthy, so a channel wins over a thread. */
  function GetChannelOrThread(g: Guild, id: int): (r: Option<ChannelOrThread>)
    ensures r.None? <==> id !in g.channels.entries && id !in g.threads.entries
    ensures id in g.channels.entries ==> r == Some(AChannel(g.channels.entries[id]))
    ensures id !in g.channels.entries && id in g.threads.entries ==> r == Some(AThread(g.threads.entries[id]))
  {
    match GetChannel(g, id)
    case Some(c) => Some(AChannel(c))
    case None =>
      match GetThread(g, id)
      case Some(t) => Some(AThread(t))
      case None => None
  }

  /** `_resolve_channel`: as `get_channel_or_thread`, and nothing for no ID. */
  function ResolveChannel(g: Guild, id: Option<int>): (r: Option<ChannelOrThread>)
    ensures id.None? ==> r.None?
    ensures id.Some? ==> r == GetChannelOrThread(g, id.value)
  {
    if id.None? then None else GetChannelOrThread(g, id.value)
  }

  /** `default_role`: the role whose ID is the guild's own. */
  function DefaultRole(g: Guild): (r: Option<Role>)
    ensures r.Some? <==> g.id in g.roles.entries
    ensures GuildWf(g) && r.Some? ==> r.value.id == g.id
  {
    GetRole(g, g.id)
  }

  // ------------------------------------------------------ channel mutators

  /** `_add_channel`: an upsert under the channel's ID. */
  function AddChannel(g: Guild, c: Channel): (r: Guild)
    ensures GetChannel(r, c.id) == Some(c)
    ensures forall k :: k != c.id ==> GetChannel(r, k) == GetChannel(g, k)
    ensures r == g.(channels := r.channels)
    ensures GuildWf(g) ==> GuildWf(r)
  {
    g.(channels := PyDict.Set(g.channels, c.id, c))
  }

  /** `_remove_channel`: `pop(id, None)`, so an absent ID is not an error. */
  function RemoveChannel(g: Guild, id: int): (r: Guild)
    ensures GetChannel(r, id).None?
    ensures forall k :: k != id ==> GetChannel(r, k) == GetChannel(g, k)
    ensures GetChannel(g, id).None? ==> r == g
    ensures r == g.(channels := r.channels)
    ensures GuildWf(g) ==> GuildWf(r)
  {
    g.(channels := PyDict.Pop(g.channels, id).0)
  }

  // ------------------------------------------------------- member mutators

  /** The member object as the cache holds it after `_add_member`: its pending
      presence has been handed to the presence store and cleared. */
  function Stored(m: Member): Member {
    m.(presence := None)
  }

  /** `_add_member`: an upsert under the member's ID; a pending presence goes
      to the presence store first. */
  function AddMember(g: Guild, m: Member): (r: Guild)
    ensures GetMember(r, m.id) == Some(Stored(m))
    ensures forall k :: k != m.id ==> GetMember(r, k) == GetMember(g, k)
    ensures m.presence.None? ==> r.presenceLog == g.presenceLog
    ensures m.presence.Some? ==> r.presenceLog == g.presenceLog + [StorePresence(m.id, m.presence.value, g.id)]
    ensures r == g.(members := r.members, presenceLog := r.presenceLog)
    ensures GuildWf(g) ==> GuildWf(r)
  {
    var log := if m.presence.Some? then g.presenceLog + [StorePresence(m.id, m.presence.value, g.id)] else g.presenceLog;
    g.(members := PyDict.Set(g.members, m.id, Stored(m)), presenceLog := log)
  }

  /** `_remove_member`: drops the member if cached and always tells the
      presence store to forget the user. */
  function RemoveMember(g: Guild, id: int): (r: Guild)
    ensures GetMember(r, id).None?
    ensures forall k :: k != id ==> GetMember(r, k) == GetMember(g, k)
    ensures r.presenceLog == g.presenceLog + [RemovePresence(id, g.id)]
    ensures r == g.(members := r.members, presenceLog := r.presenceLog)
    ensures GuildWf(g) ==> GuildWf(r)
  {
    g.(members := PyDict.Pop(g.members, id).0, presenceLog := g.presenceLog + [RemovePresence(id, g.id)])
  }

  // ------------------------------------------------------- thread mutators

  /** `_add_thread`: an upsert under the thread's ID. */
  function AddThread(g: Guild, t: Thread): (r: Guild)
    ensures GetThread(r, t.id) == Some(t)
    ensures forall k :: k != t.id ==> GetThread(r, k) == GetThread(g, k)
    ensures r == g.(threads := r.threads)
    ensures GuildWf(g) ==> GuildWf(r)
  {
    g.(threads := PyDict.Set(g.threads, t.id, t))
  }

  /** `_store_thread`: the thread built from the payload is cached as by
      `_add_thread` and returned. */
  function StoreThread(g: Guild, payload: Thread): (r: (Guild, Thread))
    ensures r.1 == payload
    ensures GetThread(r.0, payload.id) == Some(r.1)
    ensures forall k :: k != payload.id ==> GetThread(r.0, k) == GetThread(g, k)
    ensures r.0 == g.(threads := r.0.threads)
    ensures GuildWf(g) ==> GuildWf(r.0)
  {
    (AddThread(g, payload), payload)
  }

  /** `_remove_thread`: `pop(id, None)`. */
  function RemoveThread(g: Guild, id: int): (r: Guild)
    ensures GetThread(r, id).None?
    ensures forall k :: k != id ==> GetThread(r, k) == GetThread(g, k)
    ensures GetThread(g, id).None? ==> r == g
    ensures r == g.(threads := r.threads)
    ensures GuildWf(g) ==> GuildWf(r)
  {
    g.(threads := PyDict.Pop(g.threads, id).0)
  }

  function ParentIs(channelId: int): Thread -> bool {
    (t: Thread) => t.parentId == channelId
  }

  function ParentIn(channelIds: set<int>): Thread -> bool {
    (t: Thread) => t.parentId in channelIds
  }

  function ThreadIds(ts: seq<Thread>): (r: seq<int>)
    ensures |r| == |ts| && forall i :: 0 <= i < |ts| ==> r[i] == ts[i].id
  {
    seq(|ts|, i requires 0 <= i < |ts| => ts[i].id)
  }

  /** `for t in ts: del d[t.id]`: `KeyError` at the first ID that is not (or
      no longer) a key. */
  function DeleteEach(d: PyDict.Dict<int, Thread>, ts: seq<Thread>): (r: Result<PyDict.Dict<int, Thread>>)
    ensures r.Success? ==> forall k :: k in r.value.entries <==> k in d.entries && k !in ThreadIds(ts)
    ensures r.Success? ==> forall k :: k in r.value.entries ==> r.value.entries[k] == d.entries[k]
    ensures (forall i :: 0 <= i < |ts| ==> ts[i].id in d.entries) && Seqs.Distinct(ThreadIds(ts)) ==> r.Success?
    decreases |ts|
  {
    if ts == [] then Success(d)
    else if ts[0].id !in d.entries then Failure(KeyError)
    else
      var d' := PyDict.Pop(d, ts[0].id).0;
      assert ThreadIds(ts) == [ts[0].id] + ThreadIds(ts[1..]);
      assert Seqs.Distinct(ThreadIds(ts)) ==> Seqs.Distinct(ThreadIds(ts[1..])) && ts[0].id !in ThreadIds(ts[1..]) by {
        if Seqs.Distinct(ThreadIds(ts)) {
          forall i | 0 <= i < |ts| - 1 ensures ThreadIds(ts[1..])[i] != ts[0].id {
            assert ThreadIds(ts)[i + 1] == ThreadIds(ts[1..])[i];
          }
        }
      }
      DeleteEach(d', ts[1..])
  }

  /** In a store keyed by thread ID, the IDs of the values are the keys, in
      order. */
  lemma ValueIdsAreKeys(d: PyDict.Dict<int, Thread>)
    requires forall k :: k in d.entries ==> d.entries[k].id == k
    ensures ThreadIds(PyDict.Values(d)) == d.order
  {
    var vs := PyDict.Values(d);
    forall i | 0 <= i < |vs| ensures ThreadIds(vs)[i] == d.order[i] {
      assert vs[i] == d.entries[d.order[i]];
    }
  }

  /** The children of a channel, listed from a store keyed by thread ID, have
      distinct IDs that are exactly the keys of the matching entries. */
  lemma ChildrenDeletable(d: PyDict.Dict<int, Thread>, p: Thread -> bool)
    requires forall k :: k in d.entries ==> d.entries[k].id == k
    ensures var ts := Seqs.Filter(PyDict.Values(d), p);
            && Seqs.Distinct(ThreadIds(ts))
            && (forall i :: 0 <= i < |ts| ==> ts[i].id in d.entries && d.entries[ts[i].id] == ts[i])
            && (forall k :: k in ThreadIds(ts) <==> k in d.entries && p(d.entries[k]))
  {
    var ts := Seqs.Filter(PyDict.Values(d), p);
    var children := PyDict.Filter(d, p);
    PyDict.FilterValues(d, p);
    ValueIdsAreKeys(children);
    assert ThreadIds(ts) == children.order;
    forall i | 0 <= i < |ts| ensures ts[i].id in d.entries && d.entries[ts[i].id] == ts[i] {
      assert ts[i] == children.entries[children.order[i]];
    }
  }

  /** `_remove_threads_by_channel`: the threads whose parent is the channel,
      in store order, are collected and then deleted one by one. Deleting by
      `thread.id` cannot fail because the store is keyed by thread ID. */
  function RemoveThreadsByChannel(g: Guild, channelId: int): (r: (Guild, seq<Thread>))
    requires GuildWf(g)
    ensures forall i :: 0 <= i < |r.1| ==> r.1[i].parentId == channelId && GetThread(g, r.1[i].id) == Some(r.1[i])
    ensures forall k :: k in g.threads.entries && g.threads.entries[k].parentId == channelId ==> g.threads.entries[k] in r.1
    ensures Seqs.Distinct(ThreadIds(r.1))
    ensures forall k :: GetThread(r.0, k) == (if GetThread(g, k).Some? && GetThread(g, k).value.parentId == channelId then None else GetThread(g, k))
    ensures r.0 == g.(threads := r.0.threads)
    ensures GuildWf(r.0)
  {
    var isChild := ParentIs(channelId);
    var toRemove := Seqs.Filter(PyDict.Values(g.threads), isChild);
    ChildrenDeletable(g.threads, isChild);
    var g' := g.(threads := DeleteChildren(g.threads, isChild));
    DeleteChildrenKeepsWf(g, isChild);
    (g', toRemove)
  }

  /** Replacing the thread store by what the deletion loop leaves keeps the
      cache keyed. */
  lemma DeleteChildrenKeepsWf(g: Guild, p: Thread -> bool)
    requires GuildWf(g)
    ensures GuildWf(g.(threads := DeleteChildren(g.threads, p)))
  {
  }

  /** The deletion loop of `_remove_threads_by_channel` over the listed
      children of a store keyed by thread ID: it succeeds and leaves exactly
      the other threads. */
  function DeleteChildren(d: PyDict.Dict<int, Thread>, p: Thread -> bool): (r: PyDict.Dict<int, Thread>)
    requires forall k :: k in d.entries ==> d.entries[k].id == k
    ensures forall k :: PyDict.Get(r, k) == (if PyDict.Get(d, k).Some? && p(PyDict.Get(d, k).value) then None else PyDict.Get(d, k))
    ensures forall k :: k in r.entries ==> r.entries[k].id == k
  {
    var ts := Seqs.Filter(PyDict.Values(d), p);
    ChildrenDeletable(d, p);
    var kept := DeleteEach(d, ts).value;
    ChildrenDeleted(d, p, kept);
    kept
  }

  /** Deleting the listed children leaves exactly the other threads, still
      keyed by their IDs. */
  lemma ChildrenDeleted(d: PyDict.Dict<int, Thread>, p: Thread -> bool, kept: PyDict.Dict<int, Thread>)
    requires forall k :: k in d.entries ==> d.entries[k].id == k
    requires var ts := Seqs.Filter(PyDict.Values(d), p);
             && (forall k :: k in ThreadIds(ts) <==> k in d.entries && p(d.entries[k]))
             && DeleteEach(d, ts) == Success(kept)
    ensures forall k :: PyDict.Get(kept, k) == (if PyDict.Get(d, k).Some? && p(PyDict.Get(d, k).value) then None else PyDict.Get(d, k))
    ensures forall k :: k in kept.entries ==> kept.entries[k].id == k
  {
  }

  /** `_filter_threads`: the sub-map of threads whose parent is in the set; the
      store itself is not touched. */
  function FilterThreads(g: Guild, channelIds: set<int>): (r: PyDict.Dict<int, Thread>)
    ensures forall k :: k in r.entries <==> k in g.threads.entries && g.threads.entries[k].parentId in channelIds
    ensures forall k :: k in r.entries ==> r.entries[k] == g.threads.entries[k]
  {
    PyDict.Filter(g.threads, ParentIn(channelIds))
  }

  // --------------------------------------------------------- role mutators

  /** `_add_role`: an upsert under the role's ID. */
  function AddRole(g: Guild, role: Role): (r: Guild)
    ensures GetRole(r, role.id) == Some(role)
    ensures forall k :: k != role.id ==> GetRole(r, k) == GetRole(g, k)
    ensures r == g.(roles := r.roles)
    ensures GuildWf(g) ==> GuildWf(r)
  {
    g.(roles := PyDict.Set(g.roles, role.id, role))
  }

  /** `_remove_role`: `pop(role_id)` without a default, so an unknown ID raises
      `KeyError`; a known one is removed and returned. */
  function RemoveRole(g: Guild, id: int): (r: Result<(Guild, Role)>)
    ensures r.Failure? <==> GetRole(g, id).None?
    ensures r.Failure? ==> r.error == KeyError
    ensures r.Success? ==> Some(r.value.1) == GetRole(g, id) && GetRole(r.value.0, id).None?
    ensures r.Success? ==> forall k :: k != id ==> GetRole(r.value.0, k) == GetRole(g, k)
    ensures r.Success? ==> r.value.0 == g.(roles := r.value.0.roles)
    ensures r.Success? && GuildWf(g) ==> GuildWf(r.value.0)
  {
    var (roles, popped) := PyDict.Pop(g.roles, id);
    match popped
    case None => Failure(KeyError)
    case Some(role) => Success((g.(roles := roles), role))
  }

  // ----------------------------------------------------------- voice state

  datatype VoiceUpdate = VoiceUpdate(guild: Guild, member: Option<Member>, before: VoiceState, after: VoiceState)

  /** `get_channel(channel_id)` for an optional ID. */
  function ChannelFor(g: Guild, channelId: Option<int>): (r: Option<Channel>)
    ensures channelId.None? ==> r.None?
    ensures channelId.Some? ==> r == GetChannel(g, channelId.value)
  {
    if channelId.None? then None else GetChannel(g, channelId.value)
  }

  /** The first half of `_update_voice_state`: the entry for the user is
      updated in place when the channel resolves, popped when it does not,
      and created when there was none, even for an unresolved channel. The
      second component is `before`: the prior state, or a channel-less state
      built from the payload. */
  function UpdateVoiceStore(d: PyDict.Dict<int, VoiceState>, data: VoicePayload, channel: Option<Channel>): (r: (PyDict.Dict<int, VoiceState>, VoiceState))
    ensures PyDict.Get(d, data.userId).Some? ==> r.1 == PyDict.Get(d, data.userId).value
    ensures PyDict.Get(d, data.userId).None? ==> r.1 == VoiceState(data, None)
    ensures PyDict.Get(d, data.userId).Some? && channel.Some? ==> PyDict.Get(r.0, data.userId) == Some(VoiceState(data, channel))
    ensures PyDict.Get(d, data.userId).Some? && channel.None? ==> PyDict.Get(r.0, data.userId).None?
    ensures PyDict.Get(d, data.userId).None? ==> PyDict.Get(r.0, data.userId) == Some(VoiceState(data, channel))
    ensures forall k :: k != data.userId ==> PyDict.Get(r.0, k) == PyDict.Get(d, k)
    ensures (forall k :: k in d.entries ==> d.entries[k].data.userId == k) ==> (forall k :: k in r.0.entries ==> r.0.entries[k].data.userId == k)
  {
    var after := VoiceState(data, channel);
    match PyDict.Get(d, data.userId)
    case Some(prior) =>
      if channel.None? then (PyDict.Pop(d, data.userId).0, prior)
      else (PyDict.Set(d, data.userId, after), prior)
    case None => (PyDict.Set(d, data.userId, after), VoiceState(data, None))
  }

  /** The second half of `_update_voice_state`: the cached member for the user
      if there is one; otherwise the member the payload carries, which is
      cached (as by `_add_member`) when voice caching is on. */
  function VoiceMember(g: Guild, data: VoicePayload, cacheVoice: bool): (r: (Guild, Option<Member>))
    ensures GetMember(g, data.userId).Some? ==> r == (g, GetMember(g, data.userId))
    ensures GetMember(g, data.userId).None? && data.member.None? ==> r == (g, None)
    ensures GetMember(g, data.userId).None? && data.member.Some? && !cacheVoice ==> r == (g, data.member)
    ensures GetMember(g, data.userId).None? && data.member.Some? && cacheVoice ==>
              r == (AddMember(g, data.member.value), Some(Stored(data.member.value)))
    ensures r.0 == g.(members := r.0.members, presenceLog := r.0.presenceLog)
    ensures GuildWf(g) ==> GuildWf(r.0)
  {
    match GetMember(g, data.userId)
    case Some(m) => (g, Some(m))
    case None =>
      match data.member
      case None => (g, None)
      case Some(m) => if cacheVoice then (AddMember(g, m), Some(Stored(m))) else (g, Some(m))
  }

  /** `_update_voice_state(data, channel_id)`: the voice-state update followed
      by the member lookup. */
  function UpdateVoiceState(g: Guild, data: VoicePayload, channelId: Option<int>, cacheVoice: bool): (r: VoiceUpdate)
    ensures r.after == VoiceState(data, ChannelFor(g, channelId))
    ensures VoiceStateFor(g, data.userId).Some? ==> r.before == VoiceStateFor(g, data.userId).value
    ensures VoiceStateFor(g, data.userId).None? ==> r.before == VoiceState(data, None)
    ensures VoiceStateFor(g, data.userId).Some? && ChannelFor(g, channelId).Some? ==> VoiceStateFor(r.guild, data.userId) == Some(r.after)
    ensures VoiceStateFor(g, data.userId).Some? && ChannelFor(g, channelId).None? ==> VoiceStateFor(r.guild, data.userId).None?
    ensures VoiceStateFor(g, data.userId).None? ==> VoiceStateFor(r.guild, data.userId) == Some(r.after)
    ensures forall k :: k != data.userId ==> VoiceStateFor(r.guild, k) == VoiceStateFor(g, k)
    ensures r.guild == g.(voiceStates := r.guild.voiceStates, members := r.guild.members, presenceLog := r.guild.presenceLog)
    ensures GuildWf(g) ==> GuildWf(r.guild)
  {
    var channel := ChannelFor(g, channelId);
    var (states, before) := UpdateVoiceStore(g.voiceStates, data, channel);
    var g1 := g.(voiceStates := states);
    var (g2, member) := VoiceMember(g1, data, cacheVoice);
    VoiceUpdate(g2, member, before, VoiceState(data, channel))
  }

  // ------------------------------------------------------- partner lemmas

  /** Adding a channel under a fresh ID and removing it again restores the
      cache exactly, insertion order included. */
  lemma AddThenRemoveChannel(g: Guild, c: Channel)
    requires GetChannel(g, c.id).None?
    ensures RemoveChannel(AddChannel(g, c), c.id) == g
  {
    var d := g.channels;
    var d1 := PyDict.Set(d, c.id, c);
    assert Seqs.IndexOf(d1.order, c.id) == |d.order|;
    var d2 := PyDict.Pop(d1, c.id).0;
    assert d2.order == d.order;
    assert d2.entries == d.entries;
  }

  /** The list `_remove_threads_by_channel` returns is exactly what
      `_filter_threads` reports for that one channel, in the same order. */
  lemma RemovedThreadsAreFiltered(g: Guild, channelId: int)
    requires GuildWf(g)
    ensures RemoveThreadsByChannel(g, channelId).1 == PyDict.Values(FilterThreads(g, {channelId}))
  {
    PyDict.FilterCongruent(g.threads, ParentIs(channelId), ParentIn({channelId}));
    PyDict.FilterValues(g.threads, ParentIs(channelId));
  }

  /** Removing the threads of a channel partitions the thread store: every
      thread either stays or is returned, never both. */
  lemma RemoveThreadsPartitions(g: Guild, channelId: int, k: int)
    requires GuildWf(g) && k in g.threads.entries
    ensures var (g', removed) := RemoveThreadsByChannel(g, channelId);
            (k in g'.threads.entries) != (g.threads.entries[k] in removed)
  {
    var (g', removed) := RemoveThreadsByChannel(g, channelId);
    if g.threads.entries[k] in removed {
      var i :| 0 <= i < |removed| && removed[i] == g.threads.entries[k];
      assert GetThread(g, k).value.parentId == channelId;
    }
  }

  /** The member half of the voice update: the cached member is returned when
      there is one; otherwise the payload's member, and the member store (and
      the presence log) changes only when no member with the user's ID is
      cached, the payload carries one and voice caching is on, in which case
      exactly that member is added. */
  lemma VoiceUpdateMember(g: Guild, data: VoicePayload, channelId: Option<int>, cacheVoice: bool)
    ensures var r := UpdateVoiceState(g, data, channelId, cacheVoice);
            && (GetMember(g, data.userId).Some? ==> r.member == GetMember(g, data.userId))
            && (GetMember(g, data.userId).None? && !cacheVoice ==> r.member == data.member)
            && (GetMember(g, data.userId).None? && cacheVoice && data.member.Some? ==> r.member == Some(Stored(data.member.value)))
    ensures var r := UpdateVoiceState(g, data, channelId, cacheVoice);
            !(GetMember(g, data.userId).None? && data.member.Some? && cacheVoice) ==>
              r.guild.members == g.members && r.guild.presenceLog == g.presenceLog
    ensures var r := UpdateVoiceState(g, data, channelId, cacheVoice);
            GetMember(g, data.userId).None? && data.member.Some? && cacheVoice ==>
              && GetMember(r.guild, data.member.value.id) == Some(Stored(data.member.value))
              && (forall k :: k != data.member.value.id ==> GetMember(r.guild, k) == GetMember(g, k))
  {
    var channel := ChannelFor(g, channelId);
    var g1 := g.(voiceStates := UpdateVoiceStore(g.voiceStates, data, channel).0);
    assert forall k :: GetMember(g1, k) == GetMember(g, k);
  }
}
