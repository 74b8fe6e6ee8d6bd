/** The guild event service: the life cycle engine working on stored event objects. Every
    operation finds the event, checks, assigns its properties in place and saves; its
    result and the new table are those the Lifecycle functions give. */
module EventService {
  import opened Primitives
  import opened Enumerations
  import opened OperationResults
  import opened Text
  import opened Events
  import opened EventDb
  import opened Lifecycle

  /** Every stored event is well-formed. */
  ghost predicate AllWellFormed(table: map<int, EventRecord>)
  {
    forall id :: id in table ==> WellFormed(table[id])
  }

  /** Storing a well-formed event keeps every stored event well-formed. */
  lemma StoreKeepsAllWellFormed(table: map<int, EventRecord>, id: int, e: EventRecord)
    requires AllWellFormed(table) && WellFormed(e)
    ensures AllWellFormed(table[id := e])
  {
  }

  class GuildEventService {
    const db: EventDbContext

    constructor (db: EventDbContext)
      ensures this.db == db
    {
      this.db := db;
    }

    /** Every event is stored under its own id, an identity value already issued, and is
        well-formed (so, among others, its channel ids are distinct). */
    ghost predicate Valid()
      reads this, db, db.guildEvents.Values
    {
      && 1 <= db.nextEventId
      && (forall id :: id in db.guildEvents ==> db.guildEvents[id].id == id && 1 <= id < db.nextEventId)
      && AllWellFormed(Table())
    }

    /** The events table as values. */
    ghost function Table(): map<int, EventRecord>
      reads this, db, db.guildEvents.Values
    {
      map id | id in db.guildEvents :: db.guildEvents[id].Snapshot()
    }

    /** Under the invariant the guild query lists every matching stored event exactly once,
        and nothing that is not stored. */
    lemma {:induction false} QueryListsEachMatchOnce(guildId: UInt64, filter: Option<EventStatus>)
      requires Valid()
      ensures forall e :: e in db.GetGuildEventsForGuild(guildId, filter) ==> e in Table().Values
      ensures forall id :: id in Table() && Matches(Table()[id], guildId, filter)
                ==> multiset(db.GetGuildEventsForGuild(guildId, filter))[Table()[id]] == 1
    {
      var r := db.GetGuildEventsForGuild(guildId, filter);
      assert db.EventsKeyedById();
      forall e | e in r
        ensures e in Table().Values
      {
        var id :| 1 <= id < db.nextEventId && id in db.guildEvents && db.guildEvents[id].Snapshot() == e;
        assert Table()[id] == e;
      }
      forall id | id in Table() && Matches(Table()[id], guildId, filter)
        ensures multiset(r)[Table()[id]] == 1
      {
        assert Table()[id] == db.guildEvents[id].Snapshot();
        assert Table()[id] in r;
      }
    }

    /** `r` reports `spec`; on success the event under `eventId` became the spec's event
        and no other event changed, on failure the table is as `before`. */
    ghost predicate Performed(eventId: int, spec: OperationResult<EventRecord>, r: OperationResult<GuildEvent>,
                              before: map<int, EventRecord>)
      reads this, db, db.guildEvents.Values
    {
      && r.status == spec.status && r.message == spec.message
      && if spec.IsSuccess() then
           && spec.value.Some? && eventId in db.guildEvents
           && r.value == Some(db.guildEvents[eventId])
           && Table() == before[eventId := spec.value.value]
         else
           r.value == None && Table() == before
    }

    /** After an operation assigned properties of the event stored under `eventId` only,
        the table differs in that entry alone, and stays valid if the entry is well-formed. */
    twostate lemma Replaced(eventId: int)
      requires old(Valid()) && eventId in old(db.guildEvents)
      requires db.guildEvents == old(db.guildEvents) && db.nextEventId == old(db.nextEventId)
      requires forall id :: id in db.guildEvents && id != eventId
                 ==> db.guildEvents[id].Snapshot() == old(db.guildEvents[id].Snapshot())
      requires WellFormed(db.guildEvents[eventId].Snapshot())
      ensures Valid()
      ensures Table() == old(Table())[eventId := db.guildEvents[eventId].Snapshot()]
    {
      forall id | id in Table()
        ensures Table()[id] == old(Table())[eventId := db.guildEvents[eventId].Snapshot()][id]
      {
      }
      StoreKeepsAllWellFormed(old(Table()), eventId, db.guildEvents[eventId].Snapshot());
    }

    /** `CreateEventAsync`. */
    method CreateEvent(guildId: UInt64, userId: UInt64, name: Option<string>, description: Option<string>,
                       minParticipationMinutes: Option<Int32>, maxParticipants: Option<Int32>, now: Timestamp)
      returns (r: OperationResult<GuildEvent>)
      requires Valid()
      modifies db`guildEvents, db`nextEventId
      ensures Valid()
      ensures var spec := CreateEventResult(old(db.nextEventId), guildId, userId, name, description,
                                            minParticipationMinutes, maxParticipants, now);
              && r.status == spec.status && r.message == spec.message
              && if spec.IsSuccess() then
                   && r.value.Some? && fresh(r.value.value)
                   && db.guildEvents == old(db.guildEvents)[old(db.nextEventId) := r.value.value]
                   && Table() == old(Table())[old(db.nextEventId) := spec.value.value]
                 else
                   r.value == None && db.guildEvents == old(db.guildEvents) && db.nextEventId == old(db.nextEventId)
    {
      if IsNullOrWhiteSpace(name) {
        return OperationResult.Fail(ValidationError, NameRequired);
      }
      if minParticipationMinutes.Some? && minParticipationMinutes.value < 0 {
        return OperationResult.Fail(ValidationError, NegativeMinimum);
      }
      if maxParticipants.Some? && maxParticipants.value < 1 {
        return OperationResult.Fail(ValidationError, MaximumBelowOne);
      }
      assert CreateEventResult(db.nextEventId, guildId, userId, name, description, minParticipationMinutes,
                               maxParticipants, now).value.value
             == EventRecord(db.nextEventId, guildId, None, None, Trim(name.value), TrimOption(description), now,
                            None, None, userId, None, None, minParticipationMinutes, maxParticipants, Created, []);
      var ev := Insert(guildId, Trim(name.value), TrimOption(description), minParticipationMinutes, maxParticipants,
                   now, userId);
      r := OperationResult.Success(ev);
    }

    /** Creates an event in the Created state under the next identity value, stores it and
        advances the identity value; no stored event changes. */
    method Insert(guildId: UInt64, name: string, description: Option<string>, minParticipationMinutes: Option<Int32>,
                  maxParticipants: Option<Int32>, now: Timestamp, userId: UInt64)
      returns (ev: GuildEvent)
      requires Valid()
      requires WellFormed(EventRecord(db.nextEventId, guildId, None, None, name, description, now, None, None, userId,
                                      None, None, minParticipationMinutes, maxParticipants, Created, []))
      modifies db`guildEvents, db`nextEventId
      ensures Valid() && fresh(ev)
      ensures ev.Snapshot() == EventRecord(old(db.nextEventId), guildId, None, None, name, description, now, None, None,
                                           userId, None, None, minParticipationMinutes, maxParticipants, Created, [])
      ensures db.guildEvents == old(db.guildEvents)[ev.id := ev] && db.nextEventId == ev.id + 1
      ensures Table() == old(Table())[ev.id := ev.Snapshot()]
    {
      var id := db.nextEventId;
      ev := new GuildEvent(id, guildId, name, description, minParticipationMinutes, maxParticipants, now, userId);
      ghost var stored := db.guildEvents;
      db.guildEvents := db.guildEvents[id := ev];
      db.nextEventId := id + 1;
      forall i | i in stored
        ensures stored[i].Snapshot() == old(stored[i].Snapshot()) && stored[i].id == i
      {
      }
      assert Table().Keys == old(Table()).Keys + {id};
      forall i | i in Table()
        ensures Table()[i] == old(Table())[id := ev.Snapshot()][i]
      {
      }
      assert Table() == old(Table())[id := ev.Snapshot()];
      StoreKeepsAllWellFormed(old(Table()), id, ev.Snapshot());
    }

    /** `SetEventMessageAsync`. */
    method SetEventMessage(eventId: int, messageId: UInt64, originChannelId: UInt64)
      returns (r: OperationResult<GuildEvent>)
      requires Valid()
      modifies db.guildEvents.Values
      ensures Valid()
      ensures Performed(eventId, SetEventMessageResult(Find(old(Table()), eventId), messageId, originChannelId),
                        r, old(Table()))
    {
      if eventId !in db.guildEvents {
        return OperationResult.Fail(NotFound, EventNotFound);
      }
      var ev := db.guildEvents[eventId];
      ghost var before := ev.Snapshot();
      assert Table()[eventId] == before;
      ev.messageId := Some(messageId);
      ev.originChannelId := Some(originChannelId);
      assert ev.Snapshot() == SetEventMessageResult(Some(before), messageId, originChannelId).value.value;
      r := OperationResult.Success(ev);
      forall id | id in db.guildEvents && id != eventId
        ensures db.guildEvents[id].Snapshot() == old(db.guildEvents[id].Snapshot())
      {
        assert db.guildEvents[id].id == id;
      }
      Replaced(eventId);
    }

    /** `UpdateEventStateAsync`, the `onUpdate` action given as an OnUpdate value. */
    method UpdateEventState(eventId: int, targetStatus: EventStatus, allowedFrom: seq<EventStatus>,
                            onUpdate: OnUpdate)
      returns (r: OperationResult<GuildEvent>)
      requires Valid()
      requires forall e :: WellFormed(e) && e.currentState in allowedFrom
                 ==> WellFormed(ApplyOnUpdate(e.(currentState := targetStatus), onUpdate))
      modifies db.guildEvents.Values
      ensures Valid()
      ensures Performed(eventId, EventStateUpdate(Find(old(Table()), eventId), targetStatus, allowedFrom, onUpdate),
                        r, old(Table()))
    {
      if eventId !in db.guildEvents {
        return OperationResult.Fail(NotFound, EventNotFound);
      }
      var ev := db.guildEvents[eventId];
      if ev.currentState !in allowedFrom {
        return OperationResult.Fail(InvalidState, "Cannot change event from " + ev.currentState.Name()
                                                  + " to " + targetStatus.Name() + ".");
      }
      assert Table()[eventId] == ev.Snapshot();
      SetState(eventId, targetStatus, onUpdate);
      r := OperationResult.Success(ev);
    }

    /** Sets the state of the stored event `eventId` and runs the `onUpdate` action on it;
        no other event changes. */
    method SetState(eventId: int, targetStatus: EventStatus, onUpdate: OnUpdate)
      requires Valid() && eventId in db.guildEvents
      requires WellFormed(ApplyOnUpdate(db.guildEvents[eventId].Snapshot().(currentState := targetStatus), onUpdate))
      modifies db.guildEvents[eventId]
      ensures Valid()
      ensures Table() == old(Table())[eventId := ApplyOnUpdate(old(Table())[eventId].(currentState := targetStatus),
                                                               onUpdate)]
    {
      var ev := db.guildEvents[eventId];
      assert Table()[eventId] == ev.Snapshot();
      Apply(ev, targetStatus, onUpdate);
      forall id | id in db.guildEvents && id != eventId
        ensures db.guildEvents[id].Snapshot() == old(db.guildEvents[id].Snapshot())
      {
        assert db.guildEvents[id].id == id;
      }
      Replaced(eventId);
    }

    /** Assigns the new state to one event object, then the properties `onUpdate` stamps. */
    static method Apply(ev: GuildEvent, targetStatus: EventStatus, onUpdate: OnUpdate)
      modifies ev
      ensures ev.Snapshot() == ApplyOnUpdate(old(ev.Snapshot()).(currentState := targetStatus), onUpdate)
    {
      ev.currentState := targetStatus;
      match onUpdate {
        case NoUpdate =>
        case MarkStarted(at, userId) =>
          ev.startedAt := Some(at);
          ev.startedBy := Some(userId);
        case MarkCompleted(at, userId) =>
          ev.completedAt := Some(at);
          ev.completedBy := Some(userId);
      }
    }

    /** One of Start, Pause, Resume, Complete or Cancel. */
    method Transit(eventId: int, t: Transition, userId: UInt64, now: Timestamp)
      returns (r: OperationResult<GuildEvent>)
      requires Valid()
      modifies db.guildEvents.Values
      ensures Valid()
      ensures Performed(eventId, TransitionResult(Find(old(Table()), eventId), t, userId, now), r, old(Table()))
    {
      forall e | WellFormed(e) && e.currentState in t.AllowedFrom()
        ensures WellFormed(ApplyOnUpdate(e.(currentState := t.Target()), t.OnUpdateFor(userId, now)))
      {
        var spec := TransitionResult(Some(e), t, userId, now);
        assert spec.IsSuccess();
      }
      r := UpdateEventState(eventId, t.Target(), t.AllowedFrom(), t.OnUpdateFor(userId, now));
    }

    /** `StartEventAsync`: Created to Active, stamping StartedAt and StartedBy. */
    method StartEvent(eventId: int, userId: UInt64, now: Timestamp) returns (r: OperationResult<GuildEvent>)
      requires Valid()
      modifies db.guildEvents.Values
      ensures Valid()
      ensures Performed(eventId, TransitionResult(Find(old(Table()), eventId), Start, userId, now), r, old(Table()))
    {
      r := Transit(eventId, Start, userId, now);
    }

    /** `PauseEventAsync`: Active to Paused. */
    method PauseEvent(eventId: int, userId: UInt64, now: Timestamp) returns (r: OperationResult<GuildEvent>)
      requires Valid()
      modifies db.guildEvents.Values
      ensures Valid()
      ensures Performed(eventId, TransitionResult(Find(old(Table()), eventId), Pause, userId, now), r, old(Table()))
    {
      r := Transit(eventId, Pause, userId, now);
    }

    /** `ResumeEventAsync`: Paused to Active. */
    method ResumeEvent(eventId: int, userId: UInt64, now: Timestamp) returns (r: OperationResult<GuildEvent>)
      requires Valid()
      modifies db.guildEvents.Values
      ensures Valid()
      ensures Performed(eventId, TransitionResult(Find(old(Table()), eventId), Resume, userId, now), r, old(Table()))
    {
      r := Transit(eventId, Resume, userId, now);
    }

    /** `CompleteEventAsync`: Active to Completed, stamping CompletedAt and CompletedBy. */
    method CompleteEvent(eventId: int, userId: UInt64, now: Timestamp) returns (r: OperationResult<GuildEvent>)
      requires Valid()
      modifies db.guildEvents.Values
      ensures Valid()
      ensures Performed(eventId, TransitionResult(Find(old(Table()), eventId), Complete, userId, now), r, old(Table()))
    {
      r := Transit(eventId, Complete, userId, now);
    }

    /** `CancelEventAsync`: any state but Cancelled to Cancelled. */
    method CancelEvent(eventId: int, userId: UInt64, now: Timestamp) returns (r: OperationResult<GuildEvent>)
      requires Valid()
      modifies db.guildEvents.Values
      ensures Valid()
      ensures Performed(eventId, TransitionResult(Find(old(Table()), eventId), Cancel, userId, now), r, old(Table()))
    {
      r := Transit(eventId, Cancel, userId, now);
    }

    /** `AddParticipantChannelAsync`. */
    method AddParticipantChannel(eventId: int, channelId: UInt64) returns (r: OperationResult<GuildEvent>)
      requires Valid()
      modifies db.guildEvents.Values
      ensures Valid()
      ensures Performed(eventId, AddParticipantChannelResult(Find(old(Table()), eventId), channelId), r, old(Table()))
    {
      if eventId !in db.guildEvents {
        return OperationResult.Fail(NotFound, EventNotFound);
      }
      var ev := db.guildEvents[eventId];
      if ev.currentState != Created {
        return OperationResult.Fail(InvalidState, ChannelsOnlyWhileCreated);
      }
      if HasChannel(ev.participantChannels, channelId) {
        return OperationResult.Fail(ValidationError, ChannelAlreadyAdded);
      }
      ghost var before := ev.Snapshot();
      assert Table()[eventId] == before;
      ev.participantChannels := ev.participantChannels + [GuildEventChannel(channelId)];
      assert ev.Snapshot() == AddParticipantChannelResult(Some(before), channelId).value.value;
      r := OperationResult.Success(ev);
      forall id | id in db.guildEvents && id != eventId
        ensures db.guildEvents[id].Snapshot() == old(db.guildEvents[id].Snapshot())
      {
        assert db.guildEvents[id].id == id;
      }
      Replaced(eventId);
    }

    /** `RemoveParticipantChannelAsync`. */
    method RemoveParticipantChannel(eventId: int, channelId: UInt64) returns (r: OperationResult<GuildEvent>)
      requires Valid()
      modifies db.guildEvents.Values
      ensures Valid()
      ensures Performed(eventId, RemoveParticipantChannelResult(Find(old(Table()), eventId), channelId),
                        r, old(Table()))
    {
      if eventId !in db.guildEvents {
        return OperationResult.Fail(NotFound, EventNotFound);
      }
      var ev := db.guildEvents[eventId];
      var existing := IndexOfChannel(ev.participantChannels, channelId);
      if existing.None? {
        return OperationResult.Fail(ValidationError, ChannelNotAssociated);
      }
      var i := existing.value;
      ghost var before := ev.Snapshot();
      assert Table()[eventId] == before;
      ev.participantChannels := ev.participantChannels[..i] + ev.participantChannels[i + 1..];
      assert ev.Snapshot() == RemoveParticipantChannelResult(Some(before), channelId).value.value;
      r := OperationResult.Success(ev);
      forall id | id in db.guildEvents && id != eventId
        ensures db.guildEvents[id].Snapshot() == old(db.guildEvents[id].Snapshot())
      {
        assert db.guildEvents[id].id == id;
      }
      Replaced(eventId);
    }

    /** `GetParticipantChannelsAsync`: changes nothing. */
    method GetParticipantChannels(eventId: int) returns (channels: seq<GuildEventChannel>)
      requires Valid()
      ensures channels == ParticipantChannelsOf(Find(Table(), eventId))
      ensures DistinctChannels(channels)
    {
      channels := if eventId in db.guildEvents then db.guildEvents[eventId].participantChannels else [];
    }
  }
}
