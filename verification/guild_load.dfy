/** `Guild._from_data`: building the cache from a guild snapshot.

    The snapshot's lists are loaded in the order the code loads them: roles,
    channels (through the channel factory), threads, stage instances,
    scheduled events, then voice states, then members (through the
    member-admission rule), then presences. Entity constructors are foreign;
    the snapshot carries already-built records, except for channels, whose
    class the factory picks from the channel type. */
module GuildLoad {
  import opened Wrappers
  import opened Entities
  import opened GuildState
  import GuildInfo
  import PyDict
  import Seqs

  /** The two member-cache flags `_from_data` consults. */
  datatype CacheFlags = CacheFlags(joined: bool, voice: bool)

  datatype PresencePayload = PresencePayload(userId: int, presence: Presence)

  /** The snapshot fields the cache reads; a missing list is empty and a
      missing optional field is `None`. */
  datatype GuildPayload = GuildPayload(
    id: int,
    memberCount: Option<int>,
    unavailable: bool,
    roles: seq<Role>,
    channels: seq<ChannelPayload>,
    threads: seq<Thread>,
    stageInstances: seq<StageInstance>,
    scheduledEvents: seq<ScheduledEvent>,
    premiumTier: Option<int>,
    premiumSubscriptionCount: Option<int>,
    features: seq<string>,
    approximateMemberCount: Option<int>,
    large: Option<bool>,
    voiceStates: seq<VoicePayload>,
    members: seq<Member>,
    presences: seq<PresencePayload>)

  function RoleKey(r: Role): int { r.id }
  function ChannelKey(c: Channel): int { c.id }
  function ThreadKey(t: Thread): int { t.id }
  function StageKey(s: StageInstance): int { s.id }
  function EventKey(e: ScheduledEvent): int { e.id }

  /** The channel object the factory's class builds from a payload. */
  function MakeChannel(c: ChannelPayload, cls: ChannelClass): Channel {
    Channel(c.id, cls.kind, c.position, c.categoryId, cls.sortingBucket)
  }

  function Accepts(factory: int -> Option<ChannelClass>): ChannelPayload -> bool {
    (c: ChannelPayload) => factory(c.channelType).Some?
  }

  /** The channels the snapshot yields: payloads whose type has no factory
      are skipped; the rest are built in order. */
  function BuildChannels(cs: seq<ChannelPayload>, factory: int -> Option<ChannelClass>): (r: seq<Channel>)
    ensures var accepted := Seqs.Filter(cs, Accepts(factory));
            && |r| == |accepted|
            && forall i :: 0 <= i < |r| ==> factory(accepted[i].channelType).Some? && r[i] == MakeChannel(accepted[i], factory(accepted[i].channelType).value)
  {
    var accepted := Seqs.Filter(cs, Accepts(factory));
    seq(|accepted|, i requires 0 <= i < |accepted| => MakeChannel(accepted[i], factory(accepted[i].channelType).value))
  }

  /** The snapshot's channel IDs that the factory accepts. */
  lemma BuildChannelsKeys(cs: seq<ChannelPayload>, factory: int -> Option<ChannelClass>, k: int)
    ensures k in PyDict.KeysOf(BuildChannels(cs, factory), ChannelKey) <==>
            exists j :: 0 <= j < |cs| && factory(cs[j].channelType).Some? && cs[j].id == k
  {
    var r := BuildChannels(cs, factory);
    var accepted := Seqs.Filter(cs, Accepts(factory));
    if exists j :: 0 <= j < |cs| && factory(cs[j].channelType).Some? && cs[j].id == k {
      var j :| 0 <= j < |cs| && factory(cs[j].channelType).Some? && cs[j].id == k;
      assert Accepts(factory)(cs[j]);
      var i :| 0 <= i < |accepted| && accepted[i] == cs[j];
      assert PyDict.KeysOf(r, ChannelKey)[i] == k;
    }
    if k in PyDict.KeysOf(r, ChannelKey) {
      var i :| 0 <= i < |r| && PyDict.KeysOf(r, ChannelKey)[i] == k;
      assert ChannelKey(r[i]) == k;
      var j :| 0 <= j < |cs| && cs[j] == accepted[i];
    }
  }

  /** The stores `_from_data` fills before the voice states: each list is an
      upsert loop keyed by entity ID. */
  function LoadStores(p: GuildPayload, factory: int -> Option<ChannelClass>): (g: Guild)
    ensures GuildWf(g)
    ensures g.id == p.id && g.memberCount == (if p.unavailable then Some(0) else p.memberCount)
    ensures g.members.order == [] && g.voiceStates.order == [] && g.presenceLog == []
    ensures forall k :: GetRole(g, k) == PyDict.Loaded(p.roles, RoleKey, k)
    ensures forall k :: GetChannel(g, k) == PyDict.Loaded(BuildChannels(p.channels, factory), ChannelKey, k)
    ensures forall k :: GetThread(g, k) == PyDict.Loaded(p.threads, ThreadKey, k)
    ensures forall k :: GetStageInstance(g, k) == PyDict.Loaded(p.stageInstances, StageKey, k)
    ensures forall k :: GetScheduledEvent(g, k) == PyDict.Loaded(p.scheduledEvents, EventKey, k)
  {
    var roles := PyDict.Load(p.roles, RoleKey);
    var channels := PyDict.Load(BuildChannels(p.channels, factory), ChannelKey);
    var threads := PyDict.Load(p.threads, ThreadKey);
    var stages := PyDict.Load(p.stageInstances, StageKey);
    var events := PyDict.Load(p.scheduledEvents, EventKey);
    Fresh(p.id).(
      memberCount := if p.unavailable then Some(0) else p.memberCount,
      unavailable := p.unavailable,
      roles := roles,
      channels := channels,
      threads := threads,
      stageInstances := stages,
      scheduledEvents := events,
      features := p.features,
      premiumTier := p.premiumTier,
      premiumSubscriptionCount := p.premiumSubscriptionCount.GetOr(0),
      approximateMemberCount := p.approximateMemberCount,
      large := p.large)
  }

  /** Does any voice-state payload have a null channel ID? */
  predicate SomeVoiceChannelMissing(vss: seq<VoicePayload>) {
    exists i :: 0 <= i < |vss| && vss[i].channelId.None?
  }

  /** `for vs in voice_states: self._update_voice_state(vs, int(vs['channel_id']))`.
      `int(None)` raises `TypeError`, which aborts the load at the first
      payload with a null channel ID. */
  function LoadVoiceStates(g: Guild, vss: seq<VoicePayload>, cacheVoice: bool): (r: Result<Guild>)
    ensures r.Failure? <==> SomeVoiceChannelMissing(vss)
    ensures r.Failure? ==> r.error == TypeError
    ensures r.Success? && !cacheVoice ==> r.value.members == g.members && r.value.presenceLog == g.presenceLog
    ensures r.Success? ==> r.value == g.(voiceStates := r.value.voiceStates, members := r.value.members, presenceLog := r.value.presenceLog)
    ensures r.Success? && GuildWf(g) ==> GuildWf(r.value)
    decreases |vss|
  {
    if vss == [] then Success(g)
    else if vss[0].channelId.None? then Failure(TypeError)
    else
      var g1 := UpdateVoiceState(g, vss[0], vss[0].channelId, cacheVoice).guild;
      VoiceUpdateMember(g, vss[0], vss[0].channelId, cacheVoice);
      assert SomeVoiceChannelMissing(vss) <==> SomeVoiceChannelMissing(vss[1..]) by {
        if SomeVoiceChannelMissing(vss) {
          var i :| 0 <= i < |vss| && vss[i].channelId.None?;
          assert vss[1..][i - 1] == vss[i];
        }
      }
      LoadVoiceStates(g1, vss[1..], cacheVoice)
  }

  /** No two voice-state payloads are for the same user. */
  predicate DistinctUsers(vss: seq<VoicePayload>) {
    forall i, j :: 0 <= i < j < |vss| ==> vss[i].userId != vss[j].userId
  }

  /** Some voice-state payload is for user `k`. */
  predicate Listed(vss: seq<VoicePayload>, k: int) {
    exists i :: 0 <= i < |vss| && vss[i].userId == k
  }

  /** Splitting the first payload off a voice-state list. */
  lemma VoiceTail(vss: seq<VoicePayload>)
    requires vss != [] && !SomeVoiceChannelMissing(vss) && DistinctUsers(vss)
    ensures !SomeVoiceChannelMissing(vss[1..]) && DistinctUsers(vss[1..])
    ensures !Listed(vss[1..], vss[0].userId)
    ensures forall k :: Listed(vss, k) <==> k == vss[0].userId || Listed(vss[1..], k)
  {
    var tl := vss[1..];
    forall j | 0 <= j < |tl| ensures tl[j] == vss[j + 1] && tl[j].channelId.Some? && tl[j].userId != vss[0].userId {
    }
    forall k | Listed(vss, k) ensures k == vss[0].userId || Listed(tl, k) {
      var i :| 0 <= i < |vss| && vss[i].userId == k;
      if i > 0 {
        assert tl[i - 1] == vss[i];
      }
    }
  }

  /** The first payload of a voice-state list, for a user with no cached
      voice state, inserts that user's entry and touches nothing else the
      rest of the load reads. */
  lemma VoiceHead(g: Guild, vss: seq<VoicePayload>, cacheVoice: bool)
    requires vss != [] && vss[0].channelId.Some? && VoiceStateFor(g, vss[0].userId).None?
    ensures var g1 := UpdateVoiceState(g, vss[0], vss[0].channelId, cacheVoice).guild;
            && LoadVoiceStates(g, vss, cacheVoice) == LoadVoiceStates(g1, vss[1..], cacheVoice)
            && g1.channels == g.channels
            && VoiceStateFor(g1, vss[0].userId) == Some(VoiceState(vss[0], ChannelFor(g, vss[0].channelId)))
            && forall k :: k != vss[0].userId ==> VoiceStateFor(g1, k) == VoiceStateFor(g, k)
  {
  }

  /** Loading voice states for distinct users, none of whom has a cached
      voice state, takes the insertion branch of `_update_voice_state` every
      time: each user gets an entry holding the payload and the channel its
      ID resolves to in the cache (none when that channel is not cached), and
      no other user's entry changes. */
  lemma {:induction false} LoadVoiceStatesContents(g: Guild, vss: seq<VoicePayload>, cacheVoice: bool)
    requires !SomeVoiceChannelMissing(vss) && DistinctUsers(vss)
    requires forall i :: 0 <= i < |vss| ==> VoiceStateFor(g, vss[i].userId).None?
    ensures var r := LoadVoiceStates(g, vss, cacheVoice).value;
            && (forall i :: 0 <= i < |vss| ==> VoiceStateFor(r, vss[i].userId) == Some(VoiceState(vss[i], ChannelFor(g, vss[i].channelId))))
            && (forall k :: !Listed(vss, k) ==> VoiceStateFor(r, k) == VoiceStateFor(g, k))
            && (forall k :: VoiceStateFor(r, k).Some? <==> VoiceStateFor(g, k).Some? || Listed(vss, k))
    decreases |vss|
  {
    if vss != [] {
      var tl := vss[1..];
      var g1 := UpdateVoiceState(g, vss[0], vss[0].channelId, cacheVoice).guild;
      VoiceTail(vss);
      VoiceHead(g, vss, cacheVoice);
      forall j | 0 <= j < |tl| ensures VoiceStateFor(g1, tl[j].userId).None? {
        assert tl[j] == vss[j + 1];
      }
      LoadVoiceStatesContents(g1, tl, cacheVoice);
      var r := LoadVoiceStates(g1, tl, cacheVoice).value;
      forall i | 0 <= i < |vss| ensures VoiceStateFor(r, vss[i].userId) == Some(VoiceState(vss[i], ChannelFor(g, vss[i].channelId))) {
        if i > 0 {
          assert tl[i - 1] == vss[i];
        }
      }
      forall k | Listed(vss, k) ensures VoiceStateFor(r, k).Some? {
        var i :| 0 <= i < |vss| && vss[i].userId == k;
      }
    }
  }

  /** The member-admission rule: a snapshot member is cached when every joined
      member is, when it is the connected user, or when voice members are
      cached and the member has a voice state. */
  predicate Admit(flags: CacheFlags, selfId: int, voiceStates: PyDict.Dict<int, VoiceState>, m: Member) {
    flags.joined || m.id == selfId || (flags.voice && m.id in voiceStates.entries)
  }

  function Admitted(flags: CacheFlags, selfId: int, voiceStates: PyDict.Dict<int, VoiceState>): Member -> bool {
    (m: Member) => Admit(flags, selfId, voiceStates, m)
  }

  function MemberKey(m: Member): int { m.id }

  /** The `store_presence` calls `_add_member` makes for `ms`: one per member
      with a pending presence, in order. */
  function PendingPresences(ms: seq<Member>, guildId: int): (r: seq<PresenceOp>)
    ensures |r| <= |ms|
    decreases |ms|
  {
    if ms == [] then []
    else
      var m := ms[|ms| - 1];
      PendingPresences(ms[..|ms| - 1], guildId) + (if m.presence.Some? then [StorePresence(m.id, m.presence.value, guildId)] else [])
  }

  /** What the admission loop leaves under `k`: the last admitted snapshot
      member with that ID, as `_add_member` stores it, or else what was cached
      before. */
  function MemberAfterLoad(g: Guild, admitted: seq<Member>, k: int): Option<Member> {
    match PyDict.Loaded(admitted, MemberKey, k)
    case Some(m) => Some(Stored(m))
    case None => GetMember(g, k)
  }

  /** The admission loop over the snapshot's members, each admitted member
      added as by `_add_member`. */
  function LoadMembers(g: Guild, ms: seq<Member>, selfId: int, flags: CacheFlags): (r: Guild)
    ensures forall k :: k in r.members.entries <==>
              k in g.members.entries || exists i :: 0 <= i < |ms| && ms[i].id == k && Admit(flags, selfId, g.voiceStates, ms[i])
    ensures r == g.(members := r.members, presenceLog := r.presenceLog)
    ensures GuildWf(g) ==> GuildWf(r)
    decreases |ms|
  {
    if ms == [] then g
    else
      var n := |ms| - 1;
      var g1 := LoadMembers(g, ms[..n], selfId, flags);
      assert forall i :: 0 <= i < n ==> ms[..n][i] == ms[i];
      if Admit(flags, selfId, g.voiceStates, ms[n]) then AddMember(g1, ms[n]) else g1
  }

  /** After the admission loop each ID holds the last admitted snapshot member
      with it (a repeated ID is overwritten), as `_add_member` stores it, and
      the presence store has seen one call per admitted member with a pending
      presence, in snapshot order. */
  lemma {:induction false} LoadMembersContents(g: Guild, ms: seq<Member>, selfId: int, flags: CacheFlags)
    ensures var r := LoadMembers(g, ms, selfId, flags);
            var admitted := Seqs.Filter(ms, Admitted(flags, selfId, g.voiceStates));
            && (forall k :: GetMember(r, k) == MemberAfterLoad(g, admitted, k))
            && r.presenceLog == g.presenceLog + PendingPresences(admitted, g.id)
    decreases |ms|
  {
    if ms != [] {
      var n := |ms| - 1;
      var adm := Admitted(flags, selfId, g.voiceStates);
      var g1 := LoadMembers(g, ms[..n], selfId, flags);
      var before := Seqs.Filter(ms[..n], adm);
      LoadMembersContents(g, ms[..n], selfId, flags);
      assert ms == ms[..n] + [ms[n]];
      Seqs.FilterSnoc(ms[..n], ms[n], adm);
      assert Seqs.Filter(ms, adm) == if adm(ms[n]) then before + [ms[n]] else before;
      assert LoadMembers(g, ms, selfId, flags) == if adm(ms[n]) then AddMember(g1, ms[n]) else g1;
      LoadMembersStep(g, g1, before, ms[n], adm(ms[n]));
    }
  }

  /** One step of the admission loop keeps the stored values and the log in
      step with the admitted members so far. */
  lemma LoadMembersStep(g: Guild, g1: Guild, before: seq<Member>, m: Member, admit: bool)
    requires forall k :: GetMember(g1, k) == MemberAfterLoad(g, before, k)
    requires g1.presenceLog == g.presenceLog + PendingPresences(before, g.id) && g1.id == g.id
    ensures var after := if admit then before + [m] else before;
            var r := if admit then AddMember(g1, m) else g1;
            && (forall k :: GetMember(r, k) == MemberAfterLoad(g, after, k))
            && r.presenceLog == g.presenceLog + PendingPresences(after, g.id)
  {
    if admit {
      var after := before + [m];
      var r := AddMember(g1, m);
      PyDict.LoadedSnoc(before, m, MemberKey);
      forall k ensures GetMember(r, k) == MemberAfterLoad(g, after, k) {
        if k == m.id {
          assert PyDict.Loaded(after, MemberKey, k) == Some(m);
        } else {
          assert PyDict.Loaded(after, MemberKey, k) == PyDict.Loaded(before, MemberKey, k);
          assert GetMember(r, k) == GetMember(g1, k);
        }
      }
      assert after[..|before|] == before && after[|before|] == m;
      assert PendingPresences(after, g.id) == PendingPresences(before, g.id) +
        (if m.presence.Some? then [StorePresence(m.id, m.presence.value, g.id)] else []);
    }
  }

  /** The calls the presence loop makes, one per snapshot presence. */
  function PresenceCalls(ps: seq<PresencePayload>, guildId: int): (r: seq<PresenceOp>)
    ensures |r| == |ps|
    ensures forall i :: 0 <= i < |ps| ==> r[i] == StorePresence(ps[i].userId, ps[i].presence, guildId)
  {
    seq(|ps|, i requires 0 <= i < |ps| => StorePresence(ps[i].userId, ps[i].presence, guildId))
  }

  /** `for presence in presences: state.store_presence(user_id, presence, self.id)`. */
  function LoadPresences(g: Guild, ps: seq<PresencePayload>): (r: Guild)
    ensures |r.presenceLog| == |g.presenceLog| + |ps|
    ensures r.presenceLog[..|g.presenceLog|] == g.presenceLog
    ensures forall i :: 0 <= i < |ps| ==> r.presenceLog[|g.presenceLog| + i] == StorePresence(ps[i].userId, ps[i].presence, g.id)
    ensures r == g.(presenceLog := r.presenceLog)
  {
    g.(presenceLog := g.presenceLog + PresenceCalls(ps, g.id))
  }

  /** The guild after the voice states of the snapshot are applied. */
  function AfterVoice(p: GuildPayload, flags: CacheFlags, factory: int -> Option<ChannelClass>): (r: Result<Guild>)
    ensures r.Success? ==> GuildWf(r.value)
  {
    LoadVoiceStates(LoadStores(p, factory), p.voiceStates, flags.voice)
  }

  /** `_from_data`, run on a fresh guild. It fails only with `TypeError`, for a
      voice state with a null channel ID. An unavailable guild has a member
      count of 0. */
  function FromData(p: GuildPayload, selfId: int, flags: CacheFlags, factory: int -> Option<ChannelClass>): (r: Result<Guild>)
    ensures r.Failure? <==> SomeVoiceChannelMissing(p.voiceStates)
    ensures r.Failure? ==> r.error == TypeError
    ensures r.Success? ==> GuildWf(r.value)
    ensures r.Success? ==> r.value.id == p.id && r.value.memberCount == (if p.unavailable then Some(0) else p.memberCount)
    ensures r.Success? ==> r.value.premiumSubscriptionCount == (if p.premiumSubscriptionCount.Some? then p.premiumSubscriptionCount.value else 0)
    ensures r.Success? ==> var gv := AfterVoice(p, flags, factory).value;
              forall k :: k in r.value.members.entries <==>
                k in gv.members.entries || exists i :: 0 <= i < |p.members| && p.members[i].id == k && Admit(flags, selfId, gv.voiceStates, p.members[i])
  {
    var gv :- AfterVoice(p, flags, factory);
    Success(LoadPresences(LoadMembers(gv, p.members, selfId, flags), p.presences))
  }

  /** `_from_data` caches the snapshot's roles, channels, threads, stage
      instances and scheduled events: an ID holds the last snapshot entity
      with that ID (channels as the factory built them), and nothing when no
      snapshot entity has it. */
  lemma FromDataStores(p: GuildPayload, selfId: int, flags: CacheFlags, factory: int -> Option<ChannelClass>, k: int)
    requires FromData(p, selfId, flags, factory).Success?
    ensures var g := FromData(p, selfId, flags, factory).value;
            && GetRole(g, k) == PyDict.Loaded(p.roles, RoleKey, k)
            && GetChannel(g, k) == PyDict.Loaded(BuildChannels(p.channels, factory), ChannelKey, k)
            && GetThread(g, k) == PyDict.Loaded(p.threads, ThreadKey, k)
            && GetStageInstance(g, k) == PyDict.Loaded(p.stageInstances, StageKey, k)
            && GetScheduledEvent(g, k) == PyDict.Loaded(p.scheduledEvents, EventKey, k)
  {
    var g0 := LoadStores(p, factory);
    var gv := AfterVoice(p, flags, factory).value;
    assert gv.roles == g0.roles && gv.channels == g0.channels && gv.threads == g0.threads;
    assert gv.stageInstances == g0.stageInstances && gv.scheduledEvents == g0.scheduledEvents;
  }

  /** `_from_data` caches, under each ID, the last admitted snapshot member
      with it (as `_add_member` stores it), or else what the voice states
      cached. The presence store sees the voice-state calls, then one call per
      admitted member with a pending presence, then one per snapshot
      presence, in that order. */
  lemma FromDataMembers(p: GuildPayload, selfId: int, flags: CacheFlags, factory: int -> Option<ChannelClass>)
    requires FromData(p, selfId, flags, factory).Success?
    ensures var gv := AfterVoice(p, flags, factory).value;
            var g := FromData(p, selfId, flags, factory).value;
            var admitted := Seqs.Filter(p.members, Admitted(flags, selfId, gv.voiceStates));
            && (forall k :: GetMember(g, k) == MemberAfterLoad(gv, admitted, k))
            && g.presenceLog == gv.presenceLog + PendingPresences(admitted, p.id) + PresenceCalls(p.presences, p.id)
  {
    var gv := AfterVoice(p, flags, factory).value;
    LoadMembersContents(gv, p.members, selfId, flags);
    var gm := LoadMembers(gv, p.members, selfId, flags);
    assert gm.id == p.id;
    assert FromData(p, selfId, flags, factory).value == LoadPresences(gm, p.presences);
  }

  /** When the snapshot lists each user's voice state once, `_from_data`
      caches exactly one voice state per listed user: the payload together
      with the snapshot channel its channel ID names, or no channel when the
      factory skipped that channel or the snapshot has none with that ID. */
  lemma AfterVoiceStates(p: GuildPayload, flags: CacheFlags, factory: int -> Option<ChannelClass>)
    requires AfterVoice(p, flags, factory).Success? && DistinctUsers(p.voiceStates)
    ensures var gv := AfterVoice(p, flags, factory).value;
            && (forall k :: VoiceStateFor(gv, k).Some? <==> Listed(p.voiceStates, k))
            && forall i :: 0 <= i < |p.voiceStates| ==>
                 p.voiceStates[i].channelId.Some? &&
                 VoiceStateFor(gv, p.voiceStates[i].userId) ==
                   Some(VoiceState(p.voiceStates[i], PyDict.Loaded(BuildChannels(p.channels, factory), ChannelKey, p.voiceStates[i].channelId.value)))
  {
    var g0 := LoadStores(p, factory);
    var vss := p.voiceStates;
    assert forall k :: VoiceStateFor(g0, k).None?;
    assert !SomeVoiceChannelMissing(vss);
    LoadVoiceStatesContents(g0, vss, flags.voice);
    var gv := LoadVoiceStates(g0, vss, flags.voice).value;
    assert AfterVoice(p, flags, factory).value == gv;
    forall i | 0 <= i < |vss|
      ensures vss[i].channelId.Some?
      ensures VoiceStateFor(gv, vss[i].userId) == Some(VoiceState(vss[i], PyDict.Loaded(BuildChannels(p.channels, factory), ChannelKey, vss[i].channelId.value)))
    {
      assert ChannelFor(g0, vss[i].channelId) == GetChannel(g0, vss[i].channelId.value);
    }
  }

  /** With voice members cached and each user's voice state listed once, a
      snapshot member with a voice state is cached by `_from_data`, whatever
      the other two admission conditions say. */
  lemma FromDataVoiceAdmits(p: GuildPayload, selfId: int, flags: CacheFlags, factory: int -> Option<ChannelClass>, i: int)
    requires FromData(p, selfId, flags, factory).Success?
    requires flags.voice && DistinctUsers(p.voiceStates)
    requires 0 <= i < |p.members| && Listed(p.voiceStates, p.members[i].id)
    ensures p.members[i].id in FromData(p, selfId, flags, factory).value.members.entries
  {
    AfterVoiceStates(p, flags, factory);
    var gv := AfterVoice(p, flags, factory).value;
    assert Admit(flags, selfId, gv.voiceStates, p.members[i]);
  }

  /** Channels whose type has no factory are skipped: the loaded channel IDs
      are exactly the accepted payloads' IDs. */
  lemma FromDataChannels(p: GuildPayload, selfId: int, flags: CacheFlags, factory: int -> Option<ChannelClass>, k: int)
    requires FromData(p, selfId, flags, factory).Success?
    ensures k in FromData(p, selfId, flags, factory).value.channels.entries <==>
            exists j :: 0 <= j < |p.channels| && factory(p.channels[j].channelType).Some? && p.channels[j].id == k
  {
    var g0 := Fresh(p.id);
    PyDict.SetAllGet(g0.channels, BuildChannels(p.channels, factory), ChannelKey, k);
    BuildChannelsKeys(p.channels, factory, k);
  }

  /** Without the voice cache flag, the voice states add no members, so the
      cached members are exactly the admitted snapshot members: every joined
      member, or only the connected user. */
  lemma FromDataAdmissionNoVoice(p: GuildPayload, selfId: int, flags: CacheFlags, factory: int -> Option<ChannelClass>, k: int)
    requires FromData(p, selfId, flags, factory).Success? && !flags.voice
    ensures k in FromData(p, selfId, flags, factory).value.members.entries <==>
            exists i :: 0 <= i < |p.members| && p.members[i].id == k && (flags.joined || k == selfId)
  {
    var gv := AfterVoice(p, flags, factory).value;
    assert gv.members == LoadStores(p, factory).members;
  }

  /** An unavailable guild reports a member count of 0 whatever the snapshot
      said, so it is not extra large and, unless the gateway flagged it
      large, not large either. */
  lemma UnavailableGuildIsEmpty(p: GuildPayload, selfId: int, flags: CacheFlags, factory: int -> Option<ChannelClass>)
    requires FromData(p, selfId, flags, factory).Success? && p.unavailable
    ensures var g := FromData(p, selfId, flags, factory).value;
            && GuildInfo.MemberCount(g) == Some(0)
            && !GuildInfo.ExtraLarge(g)
            && GuildInfo.Large(g) == (g.large.Some? && g.large.value)
  {
  }
}
