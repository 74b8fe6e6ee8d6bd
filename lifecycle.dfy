/** The event life cycle engine as functions of the stored event: what each operation of
    the event service returns and what the event becomes. The service class implements
    these on objects. */
module Lifecycle {
  import opened Primitives
  import opened Enumerations
  import opened OperationResults
  import opened Text
  import opened Events

  const EventNotFound := "Event not found."
  const NameRequired := "Event name is required."
  const NegativeMinimum := "Minimum participation cannot be negative."
  const MaximumBelowOne := "Maximum participants must be at least 1."
  const ChannelsOnlyWhileCreated := "Channels can only be modified while the event is in Created state."
  const ChannelAlreadyAdded := "This channel is already added."
  const ChannelNotAssociated := "This channel is not associated with the event."

  /** `description?.Trim()`. */
  function TrimOption(s: Option<string>): (r: Option<string>)
    ensures r.Some? <==> s.Some?
    ensures r.Some? ==> IsTrimmed(r.value)
    ensures s.Some? ==> r == Some(Trim(s.value))
  {
    if s.Some? then Some(Trim(s.value)) else None
  }

  /** `CreateEventAsync`: the event it stores under `id`, or the first validation error
      (name, then minimum, then maximum). */
  function CreateEventResult(id: int, guildId: UInt64, userId: UInt64, name: Option<string>,
                             description: Option<string>, minParticipationMinutes: Option<Int32>,
                             maxParticipants: Option<Int32>, now: Timestamp): (r: OperationResult<EventRecord>)
    ensures r.IsWellFormed()
    ensures r.IsSuccess() <==> && !IsNullOrWhiteSpace(name)
                               && (minParticipationMinutes.None? || minParticipationMinutes.value >= 0)
                               && (maxParticipants.None? || maxParticipants.value >= 1)
    ensures !r.IsSuccess() ==> r.status == ValidationError
    ensures IsNullOrWhiteSpace(name) ==> r.message == Some(NameRequired)
    ensures !IsNullOrWhiteSpace(name) && minParticipationMinutes.Some? && minParticipationMinutes.value < 0
            ==> r.message == Some(NegativeMinimum)
    ensures && !IsNullOrWhiteSpace(name)
            && (minParticipationMinutes.None? || minParticipationMinutes.value >= 0)
            && maxParticipants.Some? && maxParticipants.value < 1
            ==> r.message == Some(MaximumBelowOne)
    ensures r.IsSuccess() ==>
              var e := r.value.value;
              && e.id == id && e.guildId == guildId && e.currentState == Created
              && e.name == Trim(name.value) && e.description == TrimOption(description)
              && e.createdAt == now && e.createdBy == userId
              && e.startedAt == None && e.startedBy == None && e.completedAt == None && e.completedBy == None
              && !IsPosted(e) && e.messageId == None && e.originChannelId == None
              && e.minimumParticipantMinutes == minParticipationMinutes
              && e.maximumParticipants == maxParticipants
              && e.participantChannels == []
              && WellFormed(e)
    ensures && r.IsSuccess() && |name.value| <= NameMaxLength
            && (description.Some? ==> |description.value| <= DescriptionMaxLength)
            ==> WithinStorageLimits(r.value.value)
  {
    if IsNullOrWhiteSpace(name) then
      OperationResult.Fail(ValidationError, NameRequired)
    else if minParticipationMinutes.Some? && minParticipationMinutes.value < 0 then
      OperationResult.Fail(ValidationError, NegativeMinimum)
    else if maxParticipants.Some? && maxParticipants.value < 1 then
      OperationResult.Fail(ValidationError, MaximumBelowOne)
    else
      var e := EventRecord(id, guildId, None, None, Trim(name.value), TrimOption(description),
                           now, None, None, userId, None, None, minParticipationMinutes,
                           maxParticipants, Created, []);
      assert WellFormed(e) by {
        assert !AllWhiteSpace(name.value);
      }
      OperationResult.Success(e)
  }

  /** `SetEventMessageAsync`: records where the event was posted, in any state. */
  function SetEventMessageResult(found: Option<EventRecord>, messageId: UInt64, originChannelId: UInt64)
    : (r: OperationResult<EventRecord>)
    ensures r.IsWellFormed()
    ensures r.IsSuccess() <==> found.Some?
    ensures found.None? ==> r.status == NotFound && r.message == Some(EventNotFound)
    ensures r.IsSuccess() ==>
              var before, after := found.value, r.value.value;
              && IsPosted(after) && after.messageId == Some(messageId) && after.originChannelId == Some(originChannelId)
              && after.(messageId := before.messageId, originChannelId := before.originChannelId) == before
              && (WellFormed(before) ==> WellFormed(after))
  {
    if found.None? then OperationResult.Fail(NotFound, EventNotFound)
    else OperationResult.Success(found.value.(messageId := Some(messageId), originChannelId := Some(originChannelId)))
  }

  /** The optional `onUpdate` action of a transition: stamp the start or the completion. */
  datatype OnUpdate = NoUpdate | MarkStarted(at: Timestamp, userId: UInt64) | MarkCompleted(at: Timestamp, userId: UInt64)

  function ApplyOnUpdate(e: EventRecord, onUpdate: OnUpdate): EventRecord
  {
    match onUpdate
    case NoUpdate => e
    case MarkStarted(at, userId) => e.(startedAt := Some(at), startedBy := Some(userId))
    case MarkCompleted(at, userId) => e.(completedAt := Some(at), completedBy := Some(userId))
  }

  /** `UpdateEventStateAsync`: the generic guarded transition. An unknown event is NotFound;
      a current state outside `allowedFrom` is InvalidState naming both states; otherwise
      the state becomes `targetStatus` and `onUpdate` runs. */
  function EventStateUpdate(found: Option<EventRecord>, targetStatus: EventStatus,
                            allowedFrom: seq<EventStatus>, onUpdate: OnUpdate): (r: OperationResult<EventRecord>)
    ensures r.IsWellFormed()
    ensures r.IsSuccess() <==> found.Some? && found.value.currentState in allowedFrom
    ensures found.None? ==> r.status == NotFound && r.message == Some(EventNotFound)
    ensures found.Some? && found.value.currentState !in allowedFrom ==>
              && r.status == InvalidState
              && r.message == Some("Cannot change event from " + found.value.currentState.Name()
                                   + " to " + targetStatus.Name() + ".")
    ensures r.IsSuccess() ==> r.value.value.currentState == targetStatus
  {
    if found.None? then
      OperationResult.Fail(NotFound, EventNotFound)
    else if found.value.currentState !in allowedFrom then
      OperationResult.Fail(InvalidState, "Cannot change event from " + found.value.currentState.Name()
                                         + " to " + targetStatus.Name() + ".")
    else
      OperationResult.Success(ApplyOnUpdate(found.value.(currentState := targetStatus), onUpdate))
  }

  /** The five life cycle operations built on the generic transition. */
  datatype Transition = Start | Pause | Resume | Complete | Cancel {

    function Target(): EventStatus
    {
      match this
      case Start => Active
      case Pause => Paused
      case Resume => Active
      case Complete => Completed
      case Cancel => Cancelled
    }

    /** The allowed-from set; none contains its own target or Cancelled. */
    function AllowedFrom(): (r: seq<EventStatus>)
      ensures Target() !in r && Cancelled !in r
    {
      match this
      case Start => [Created]
      case Pause => [Active]
      case Resume => [Paused]
      case Complete => [Active]
      case Cancel => [Created, Active, Paused, Completed]
    }

    function OnUpdateFor(userId: UInt64, now: Timestamp): OnUpdate
    {
      match this
      case Start => MarkStarted(now, userId)
      case Complete => MarkCompleted(now, userId)
      case _ => NoUpdate
    }
  }

  /** Equal in everything but the state and the four audit fields. */
  predicate SameApartFromStateAndAudit(a: EventRecord, b: EventRecord)
  {
    b.(currentState := a.currentState, startedAt := a.startedAt, startedBy := a.startedBy,
       completedAt := a.completedAt, completedBy := a.completedBy) == a
  }

  /** Start, Pause, Resume, Complete or Cancel on the event found (or not) under its id.
      Success exactly from the allowed states; then the state is the target, only Start
      stamps StartedAt/By and only Complete stamps CompletedAt/By, nothing else changes,
      and a well-formed event stays well-formed. */
  function TransitionResult(found: Option<EventRecord>, t: Transition, userId: UInt64, now: Timestamp)
    : (r: OperationResult<EventRecord>)
    ensures r.IsWellFormed()
    ensures r.IsSuccess() <==> found.Some? && found.value.currentState in t.AllowedFrom()
    ensures found.None? ==> r.status == NotFound && r.message == Some(EventNotFound)
    ensures found.Some? && found.value.currentState !in t.AllowedFrom() ==>
              && r.status == InvalidState
              && r.message == Some("Cannot change event from " + found.value.currentState.Name()
                                   + " to " + t.Target().Name() + ".")
    ensures found.Some? && found.value.currentState == Cancelled ==> r.status == InvalidState
    ensures r.IsSuccess() ==>
              var before, after := found.value, r.value.value;
              && after.currentState == t.Target()
              && SameApartFromStateAndAudit(before, after)
              && (after.startedAt, after.startedBy)
                 == (if t == Start then (Some(now), Some(userId)) else (before.startedAt, before.startedBy))
              && (after.completedAt, after.completedBy)
                 == (if t == Complete then (Some(now), Some(userId)) else (before.completedAt, before.completedBy))
              && (WellFormed(before) ==> WellFormed(after))
  {
    EventStateUpdate(found, t.Target(), t.AllowedFrom(), t.OnUpdateFor(userId, now))
  }

  /** `AddParticipantChannelAsync`: only while Created, only a channel not yet present;
      the channel is appended and then occurs exactly once. */
  function AddParticipantChannelResult(found: Option<EventRecord>, channelId: UInt64)
    : (r: OperationResult<EventRecord>)
    ensures r.IsWellFormed()
    ensures r.IsSuccess() <==> && found.Some? && found.value.currentState == Created
                               && !HasChannel(found.value.participantChannels, channelId)
    ensures r.IsSuccess() ==> found.value.currentState.IsOrganizerEditable()
    ensures found.None? ==> r.status == NotFound && r.message == Some(EventNotFound)
    ensures found.Some? && found.value.currentState != Created ==>
              r.status == InvalidState && r.message == Some(ChannelsOnlyWhileCreated)
    ensures found.Some? && found.value.currentState == Created && HasChannel(found.value.participantChannels, channelId)
            ==> r.status == ValidationError && r.message == Some(ChannelAlreadyAdded)
    ensures r.IsSuccess() ==>
              var before, after := found.value, r.value.value;
              && after.participantChannels == before.participantChannels + [GuildEventChannel(channelId)]
              && after.(participantChannels := before.participantChannels) == before
              && (DistinctChannels(before.participantChannels) ==>
                    DistinctChannels(after.participantChannels)
                    && Occurrences(after.participantChannels, channelId) == 1)
              && (WellFormed(before) ==> WellFormed(after))
  {
    if found.None? then
      OperationResult.Fail(NotFound, EventNotFound)
    else if found.value.currentState != Created then
      OperationResult.Fail(InvalidState, ChannelsOnlyWhileCreated)
    else if HasChannel(found.value.participantChannels, channelId) then
      OperationResult.Fail(ValidationError, ChannelAlreadyAdded)
    else
      var channels := found.value.participantChannels + [GuildEventChannel(channelId)];
      AppendKeepsDistinct(found.value.participantChannels, channelId);
      OperationResult.Success(found.value.(participantChannels := channels))
  }

  /** Appending an absent channel keeps the list duplicate-free, with that channel once. */
  lemma AppendKeepsDistinct(channels: seq<GuildEventChannel>, channelId: UInt64)
    requires !HasChannel(channels, channelId)
    ensures HasChannel(channels + [GuildEventChannel(channelId)], channelId)
    ensures DistinctChannels(channels) ==>
              && DistinctChannels(channels + [GuildEventChannel(channelId)])
              && Occurrences(channels + [GuildEventChannel(channelId)], channelId) == 1
  {
    var after := channels + [GuildEventChannel(channelId)];
    assert after[|after| - 1].channelId == channelId;
    if DistinctChannels(channels) {
      assert DistinctChannels(after);
      DistinctOccurrences(after, channelId);
    }
  }

  /** Dropping the entry at `i` keeps the multiset of the others; in a duplicate-free list it
      keeps the list duplicate-free and removes that entry's channel altogether. */
  lemma RemoveAtKeepsOthers(channels: seq<GuildEventChannel>, i: nat)
    requires i < |channels|
    ensures multiset(channels[..i] + channels[i + 1..]) + multiset{channels[i]} == multiset(channels)
    ensures DistinctChannels(channels) ==>
              && DistinctChannels(channels[..i] + channels[i + 1..])
              && !HasChannel(channels[..i] + channels[i + 1..], channels[i].channelId)
  {
    var rest := channels[..i] + channels[i + 1..];
    assert channels == channels[..i] + [channels[i]] + channels[i + 1..];
    forall j | 0 <= j < |rest|
      ensures rest[j] == channels[if j < i then j else j + 1]
    {
    }
  }

  /** `RemoveParticipantChannelAsync`: in any state, only a channel that is present; that
      entry goes and every other entry stays. */
  function RemoveParticipantChannelResult(found: Option<EventRecord>, channelId: UInt64)
    : (r: OperationResult<EventRecord>)
    ensures r.IsWellFormed()
    ensures r.IsSuccess() <==> found.Some? && HasChannel(found.value.participantChannels, channelId)
    ensures found.None? ==> r.status == NotFound && r.message == Some(EventNotFound)
    ensures found.Some? && !HasChannel(found.value.participantChannels, channelId)
            ==> r.status == ValidationError && r.message == Some(ChannelNotAssociated)
    ensures r.IsSuccess() ==>
              var before, after := found.value, r.value.value;
              && multiset(after.participantChannels) + multiset{GuildEventChannel(channelId)}
                 == multiset(before.participantChannels)
              && after.(participantChannels := before.participantChannels) == before
              && (DistinctChannels(before.participantChannels) ==>
                    !HasChannel(after.participantChannels, channelId))
              && (WellFormed(before) ==> WellFormed(after))
  {
    if found.None? then
      OperationResult.Fail(NotFound, EventNotFound)
    else
      match IndexOfChannel(found.value.participantChannels, channelId)
      case None => OperationResult.Fail(ValidationError, ChannelNotAssociated)
      case Some(i) =>
        var before := found.value.participantChannels;
        var channels := before[..i] + before[i + 1..];
        RemoveAtKeepsOthers(before, i);
        assert before[i] == GuildEventChannel(channelId);
        OperationResult.Success(found.value.(participantChannels := channels))
  }

  /** `GetParticipantChannelsAsync`: the channel list, or an empty list for an unknown event. */
  function ParticipantChannelsOf(found: Option<EventRecord>): (r: seq<GuildEventChannel>)
    ensures found.None? ==> r == []
    ensures found.Some? ==> r == found.value.participantChannels
    ensures found.Some? && WellFormed(found.value) ==> DistinctChannels(r)
  {
    if found.Some? then found.value.participantChannels else []
  }

  /** The transition table: each pair (from, to) a single operation may take. */
  predicate Edge(from: EventStatus, to: EventStatus)
  {
    || (from == Created && to == Active)
    || (from == Active && to == Paused)
    || (from == Paused && to == Active)
    || (from == Active && to == Completed)
    || (from != Cancelled && to == Cancelled)
  }

  /** Some operation moves `from` to `to` exactly when (from, to) is an edge of the table. */
  lemma TransitionTable(from: EventStatus, to: EventStatus)
    ensures (exists t: Transition :: from in t.AllowedFrom() && t.Target() == to) <==> Edge(from, to)
  {
    if Edge(from, to) {
      var t :=
        if to == Cancelled then Cancel
        else if to == Paused then Pause
        else if to == Completed then Complete
        else if from == Created then Start
        else Resume;
      assert from in t.AllowedFrom() && t.Target() == to;
    }
  }

  /** The state an event is in after one attempted operation; a refused one changes nothing. */
  function Attempt(s: EventStatus, t: Transition): EventStatus
  {
    if s in t.AllowedFrom() then t.Target() else s
  }

  /** The state after a sequence of attempted operations. */
  function Run(s: EventStatus, ops: seq<Transition>): EventStatus
    decreases |ops|
  {
    if ops == [] then s else Run(Attempt(s, ops[0]), ops[1..])
  }

  /** Nothing leaves Cancelled. */
  lemma {:induction false} CancelledIsAbsorbing(ops: seq<Transition>)
    ensures Run(Cancelled, ops) == Cancelled
    decreases |ops|
  {
    if ops != [] {
      assert Attempt(Cancelled, ops[0]) == Cancelled;
      CancelledIsAbsorbing(ops[1..]);
    }
  }

  /** From Completed the only way on is Cancelled. */
  lemma {:induction false} CompletedOnlyToCancelled(ops: seq<Transition>)
    ensures Run(Completed, ops) in {Completed, Cancelled}
    decreases |ops|
  {
    if ops != [] {
      if Attempt(Completed, ops[0]) == Completed {
        CompletedOnlyToCancelled(ops[1..]);
      } else {
        assert Attempt(Completed, ops[0]) == Cancelled;
        CancelledIsAbsorbing(ops[1..]);
      }
    }
  }

  /** Created is only ever the initial state: once left, it is never entered again. */
  lemma {:induction false} CreatedIsNeverReentered(s: EventStatus, ops: seq<Transition>)
    requires s != Created
    ensures Run(s, ops) != Created
    decreases |ops|
  {
    if ops != [] {
      assert Attempt(s, ops[0]) != Created;
      CreatedIsNeverReentered(Attempt(s, ops[0]), ops[1..]);
    }
  }

  /** A run of transition results on one event follows Run: the stored state is Run of the
      operations, whatever acting users and clock values come with them. */
  function ApplyAll(e: EventRecord, ops: seq<Transition>, userId: UInt64, now: Timestamp): EventRecord
    decreases |ops|
  {
    if ops == [] then e
    else
      var r := TransitionResult(Some(e), ops[0], userId, now);
      ApplyAll(if r.IsSuccess() then r.value.value else e, ops[1..], userId, now)
  }

  lemma {:induction false} ApplyAllFollowsRun(e: EventRecord, ops: seq<Transition>, userId: UInt64, now: Timestamp)
    requires WellFormed(e)
    ensures ApplyAll(e, ops, userId, now).currentState == Run(e.currentState, ops)
    ensures WellFormed(ApplyAll(e, ops, userId, now))
    decreases |ops|
  {
    if ops != [] {
      var r := TransitionResult(Some(e), ops[0], userId, now);
      var next := if r.IsSuccess() then r.value.value else e;
      assert next.currentState == Attempt(e.currentState, ops[0]);
      ApplyAllFollowsRun(next, ops[1..], userId, now);
    }
  }
}
