/** The guild event entity and its participant channel list. */
module Events {
  import opened Primitives
  import opened Enumerations
  import opened Text

  /** Storage limits of the Name and Description columns; creation does not check them. */
  const NameMaxLength := 256
  const DescriptionMaxLength := 2048

  /** A participant channel reference; it carries only the channel id. */
  datatype GuildEventChannel = GuildEventChannel(channelId: UInt64)

  /** The value of every property of a guild event at one moment. */
  datatype EventRecord = EventRecord(
    id: int,
    guildId: UInt64,
    messageId: Option<UInt64>,
    originChannelId: Option<UInt64>,
    name: string,
    description: Option<string>,
    createdAt: Timestamp,
    startedAt: Option<Timestamp>,
    completedAt: Option<Timestamp>,
    createdBy: UInt64,
    startedBy: Option<UInt64>,
    completedBy: Option<UInt64>,
    minimumParticipantMinutes: Option<Int32>,
    maximumParticipants: Option<Int32>,
    currentState: EventStatus,
    participantChannels: seq<GuildEventChannel>)

  /** A guild event as the services hold it: an object whose properties are assigned in place.
      The id is generated on insert and has no public setter, so it is a constant here. */
  class GuildEvent {
    const id: int
    var guildId: UInt64
    var messageId: Option<UInt64>
    var originChannelId: Option<UInt64>
    var name: string
    var description: Option<string>
    var createdAt: Timestamp
    var startedAt: Option<Timestamp>
    var completedAt: Option<Timestamp>
    var createdBy: UInt64
    var startedBy: Option<UInt64>
    var completedBy: Option<UInt64>
    var minimumParticipantMinutes: Option<Int32>
    var maximumParticipants: Option<Int32>
    var currentState: EventStatus
    var participantChannels: seq<GuildEventChannel>

    /** The object initializer of event creation; everything it does not name keeps its
        default: not posted, not started, not completed, state Created, no channels. */
    constructor (id: int, guildId: UInt64, name: string, description: Option<string>,
                 minimumParticipantMinutes: Option<Int32>, maximumParticipants: Option<Int32>,
                 createdAt: Timestamp, createdBy: UInt64)
      ensures Snapshot() == EventRecord(id, guildId, None, None, name, description, createdAt, None, None,
                                        createdBy, None, None, minimumParticipantMinutes, maximumParticipants,
                                        Created, [])
    {
      this.id := id;
      this.guildId := guildId;
      this.messageId := None;
      this.originChannelId := None;
      this.name := name;
      this.description := description;
      this.createdAt := createdAt;
      this.startedAt := None;
      this.completedAt := None;
      this.createdBy := createdBy;
      this.startedBy := None;
      this.completedBy := None;
      this.minimumParticipantMinutes := minimumParticipantMinutes;
      this.maximumParticipants := maximumParticipants;
      this.currentState := Created;
      this.participantChannels := [];
    }

    function Snapshot(): EventRecord
      reads this
    {
      EventRecord(id, guildId, messageId, originChannelId, name, description, createdAt, startedAt,
                  completedAt, createdBy, startedBy, completedBy, minimumParticipantMinutes,
                  maximumParticipants, currentState, participantChannels)
    }
  }

  /** `ParticipantChannels.Any(c => c.ChannelId == channelId)`. */
  predicate HasChannel(channels: seq<GuildEventChannel>, channelId: UInt64)
  {
    exists i :: 0 <= i < |channels| && channels[i].channelId == channelId
  }

  /** No channel id occurs twice. */
  predicate DistinctChannels(channels: seq<GuildEventChannel>)
  {
    forall i, j :: 0 <= i < j < |channels| ==> channels[i].channelId != channels[j].channelId
  }

  /** `ParticipantChannels.FirstOrDefault(c => c.ChannelId == channelId)`, as a position:
      the first entry with that id, or none when no entry has it. */
  function IndexOfChannel(channels: seq<GuildEventChannel>, channelId: UInt64): (r: Option<nat>)
    ensures r.None? <==> !HasChannel(channels, channelId)
    ensures r.Some? ==> r.value < |channels| && channels[r.value].channelId == channelId
    ensures r.Some? ==> forall j :: 0 <= j < r.value ==> channels[j].channelId != channelId
  {
    if |channels| == 0 then None
    else if channels[0].channelId == channelId then Some(0)
    else
      match IndexOfChannel(channels[1..], channelId)
      case None =>
        assert forall i :: 1 <= i < |channels| ==> channels[1..][i - 1] == channels[i];
        None
      case Some(k) => Some(k + 1)
  }

  /** How many entries carry `channelId`. */
  function Occurrences(channels: seq<GuildEventChannel>, channelId: UInt64): nat
  {
    if channels == [] then 0
    else (if channels[0].channelId == channelId then 1 else 0) + Occurrences(channels[1..], channelId)
  }

  /** In a duplicate-free list a channel appears exactly once if present and never otherwise. */
  lemma {:induction false} DistinctOccurrences(channels: seq<GuildEventChannel>, channelId: UInt64)
    requires DistinctChannels(channels)
    ensures Occurrences(channels, channelId) == if HasChannel(channels, channelId) then 1 else 0
  {
    if channels != [] {
      var tail := channels[1..];
      assert DistinctChannels(tail) by {
        forall i, j | 0 <= i < j < |tail| ensures tail[i].channelId != tail[j].channelId {
          assert tail[i] == channels[i + 1] && tail[j] == channels[j + 1];
        }
      }
      DistinctOccurrences(tail, channelId);
      assert HasChannel(tail, channelId) ==> HasChannel(channels, channelId) by {
        if HasChannel(tail, channelId) {
          var i :| 0 <= i < |tail| && tail[i].channelId == channelId;
          assert channels[i + 1].channelId == channelId;
        }
      }
      if channels[0].channelId == channelId {
        assert !HasChannel(tail, channelId);
      } else {
        assert HasChannel(channels, channelId) ==> HasChannel(tail, channelId) by {
          if HasChannel(channels, channelId) {
            var i :| 0 <= i < |channels| && channels[i].channelId == channelId;
            assert tail[i - 1].channelId == channelId;
          }
        }
      }
    }
  }

  /** A message id and an origin channel are recorded together, once the event is posted. */
  predicate IsPosted(e: EventRecord)
  {
    e.messageId.Some? && e.originChannelId.Some?
  }

  /** The audit fields agree with how far the life cycle has gone: started exactly when
      it has left Created (a cancelled event may or may not have been), completed only
      after being started. */
  predicate AuditMatchesState(e: EventRecord)
  {
    && (e.startedAt.Some? <==> e.startedBy.Some?)
    && (e.completedAt.Some? <==> e.completedBy.Some?)
    && (e.completedAt.Some? ==> e.startedAt.Some?)
    && match e.currentState
       case Created => e.startedAt.None? && e.completedAt.None?
       case Active => e.startedAt.Some? && e.completedAt.None?
       case Paused => e.startedAt.Some? && e.completedAt.None?
       case Completed => e.startedAt.Some? && e.completedAt.Some?
       case Cancelled => true
  }

  /** What every stored event satisfies: a non-blank trimmed name, a trimmed description,
      valid policy numbers, duplicate-free channels, posting data recorded as a pair, and
      audit fields consistent with the state. */
  predicate WellFormed(e: EventRecord)
  {
    && e.name != [] && IsTrimmed(e.name)
    && (e.description.Some? ==> IsTrimmed(e.description.value))
    && (e.minimumParticipantMinutes.Some? ==> e.minimumParticipantMinutes.value >= 0)
    && (e.maximumParticipants.Some? ==> e.maximumParticipants.value >= 1)
    && DistinctChannels(e.participantChannels)
    && (e.messageId.Some? <==> e.originChannelId.Some?)
    && AuditMatchesState(e)
  }

  /** The column limits the database enforces on save. */
  predicate WithinStorageLimits(e: EventRecord)
  {
    |e.name| <= NameMaxLength && (e.description.Some? ==> |e.description.value| <= DescriptionMaxLength)
  }
}
