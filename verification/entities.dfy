/** The entities a guild caches, reduced to the attributes the cache reads.
    Their classes (channels, threads, roles, members, voice states, stage
    instances, scheduled events) live outside the guild module; here each is
    a plain record built from its gateway payload. */
module Entities {
  import opened Wrappers
  import Sorting

  /** The guild channel classes the cache distinguishes with `isinstance`. */
  datatype ChannelKind = TextChannel | VoiceChannel | StageChannel | CategoryChannel | ForumChannel | DirectoryChannel

  /** What the channel factory picks for a channel type: the class and its
      class-level `_sorting_bucket`. */
  datatype ChannelClass = ChannelClass(kind: ChannelKind, sortingBucket: int)

  datatype Channel = Channel(id: int, kind: ChannelKind, position: int, categoryId: Option<int>, sortingBucket: int)

  /** The channel payload fields the cache and the factory consume. */
  datatype ChannelPayload = ChannelPayload(channelType: int, id: int, position: int, categoryId: Option<int>)

  datatype Thread = Thread(id: int, parentId: int)

  /** `premiumSubscriber` stands for `role.is_premium_subscriber()`. */
  datatype Role = Role(id: int, position: int, hoist: bool, premiumSubscriber: bool)

  /** A presence as handed to the connection's presence store. */
  datatype Presence = Presence(status: string)

  /** `premiumSince` is the boost timestamp in milliseconds, if any;
      `presence` is the member's pending `_presence`. */
  datatype Member = Member(
    id: int,
    name: string,
    discriminator: string,
    nick: Option<string>,
    globalName: Option<string>,
    premiumSince: Option<int>,
    presence: Option<Presence>)

  /** A voice-state payload: the user, and the member object it may carry. */
  datatype VoicePayload = VoicePayload(userId: int, channelId: Option<int>, selfMute: bool, selfDeaf: bool, member: Option<Member>)

  /** `VoiceState(data=..., channel=...)`: the payload it was last updated
      from and the channel it was resolved against. */
  datatype VoiceState = VoiceState(data: VoicePayload, channel: Option<Channel>)

  datatype StageInstance = StageInstance(id: int, channelId: int)

  datatype ScheduledEvent = ScheduledEvent(id: int, channelId: Option<int>)

  /** The lexicographic order on `(position, id)`, which is what
      `sort(key=attrgetter('position', 'id'))` sorts by. */
  function PositionLe(a: Channel, b: Channel): bool {
    a.position < b.position || (a.position == b.position && a.id <= b.id)
  }

  /** The order on `(_sorting_bucket, position, id)` used inside each
      `by_category` group. */
  function BucketLe(a: Channel, b: Channel): bool {
    || a.sortingBucket < b.sortingBucket
    || (a.sortingBucket == b.sortingBucket && PositionLe(a, b))
  }

  lemma PositionLeTotalPreorder()
    ensures Sorting.TotalPreorder(PositionLe)
  {
  }

  lemma BucketLeTotalPreorder()
    ensures Sorting.TotalPreorder(BucketLe)
  {
  }
}
