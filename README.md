# LootGoblin core, modelled in Dafny

LootGoblin is a Discord bot that runs guild events: an organizer creates an event,
attaches participant channels to it, posts it, and drives it through its life cycle
(Created → Active ⇄ Paused; Active → Completed; Cancelled from every state but Cancelled
itself, Completed included).
Each guild has a settings row. The row names an event channel and a loot channel, plus
an organizer role and a participant role that gate the slash commands. A role check reads
the row through a ten-minute memory cache, and the settings setters evict that cache entry
after they write.

This project models that core:

- **Enumerations.** `EventStatus`, `LootStatus`, `LootType`, `LootRollType` and
  `OperationStatus` with their stored numeric codes and the decoding of a code back to a
  value.
- **OperationResults.** The `OperationResult<T>` record: a status, an optional value and
  an optional message.
- **Text.** .NET `string.Trim` and `string.IsNullOrWhiteSpace` over the .NET white-space set.
- **CacheConstants.** The `guild-settings-{id}` cache key. The model proves that distinct
  guilds get distinct keys.
- **Settings and Events.** The entities: `GuildSettings` is a value. `GuildEvent` is a
  class whose fields are updated in place; `Snapshot()` is its value view, `EventRecord`.
- **Caching.** The memory cache, as a class holding a map from key to cached row (or cached
  "no row").
- **EventDb.** The `EventDbContext`: the settings table, the event table and the event-id
  counter, and the guild event query (filter by guild and state, newest first).
- **Lifecycle.** Pure specification functions: what each `GuildEventService` operation
  returns and stores, given the event found (or not) under the id.
- **EventService.** `GuildEventService` as a class whose methods change the event objects in
  the context. Every method's contract ties its result and the new event table to the
  matching Lifecycle function, and keeps the table invariant `Valid()`. That invariant says
  ids are keys and below the counter, and every event is well formed: a non-empty trimmed
  name, audit stamps that agree with the state, and distinct participant channels.
- **SettingsService.** `GuildSettingsService`: get-or-create, the four setters (write,
  save, evict) and the read.
- **Preconditions.** `RoleCheckPrecondition` and the organizer and participant gates.

The main facts proved:

- Each transition succeeds exactly from its allowed states, and the transition graph is
  the one the services implement.
- Cancelled is absorbing, and Completed can only move on to Cancelled. Once an event
  leaves Created it never returns to it.
- Participant channels stay distinct.
- The guild query over a list of rows returns exactly the matching rows (as a multiset),
  newest first. Over the stored events, under the event service's invariant, it lists every
  matching event exactly once and nothing that is not stored.
- Writing a setting and then reading it returns the written value, and the write leaves
  every other field and guild alone.
- Evict-after-write keeps the cache coherent with the store, and a write without the
  eviction would not.
- Against a coherent cache, the role gate decides exactly as it would on the stored row.

External effects become parameters:

- the clock is a `Timestamp` argument;
- whether the database save succeeds is a `saveSucceeds` argument;
- cache expiry is the `Remove` operation, which may happen at any moment.

## Model

| member | source | states |
|---|---|---|
| Primitives.FindAfterStore | src/LootGoblin.Bot/Services/GuildSettingsService.cs:72-76 | a lookup by key after storing a row under that key finds that row, after deleting it finds nothing, and under any other key finds what it found before |
| Enumerations.EventStatus.Code | src/LootGoblin.Bot/Enumerations.cs:6-32 | the stored codes of the event states lie in 0..6 and are none of 4, 5 |
| Enumerations.EventStatusFromCode | src/LootGoblin.Bot/Enumerations.cs:6-32 | a code decodes to exactly the state whose code it is; exactly 0, 1, 2, 3, 6 decode |
| Enumerations.LootStatusFromCode | src/LootGoblin.Bot/Enumerations.cs:37-63 | a byte decodes to exactly the loot status with that code; exactly 0..4 decode |
| Enumerations.LootTypeFromCode | src/LootGoblin.Bot/Enumerations.cs:68-79 | a byte decodes to exactly the loot type with that code; exactly 0..1 decode |
| Enumerations.LootRollTypeFromCode | src/LootGoblin.Bot/Enumerations.cs:84-95 | a byte decodes to exactly the roll type with that code; exactly 0..1 decode |
| Enumerations.OperationStatusFromCode | src/LootGoblin.Bot/Enumerations.cs:100-126 | a code decodes to exactly the operation status with that code; 0..5 decode; every code but 0 is a failure kind |
| OperationResults.OperationResult.Success | src/LootGoblin.Bot/Models/OperationResult.cs:23-24 | a success carries the value and no message and reports IsSuccess |
| OperationResults.OperationResult.Fail | src/LootGoblin.Bot/Models/OperationResult.cs:32-33 | a failure carries the given status and message, no value, and does not report IsSuccess |
| Text.TrimStart | src/LootGoblin.Bot/Services/GuildEventService.cs:124-125 | the result is a suffix of the input, what was dropped is all white space, and the result does not start with white space |
| Text.TrimEnd | src/LootGoblin.Bot/Services/GuildEventService.cs:124-125 | the result is a prefix of the input, what was dropped is all white space, and the result does not end with white space |
| Text.Trim | src/LootGoblin.Bot/Services/GuildEventService.cs:124-125 | the result is trimmed and a slice of the input with only white space cut off before and after it; it is empty exactly when the input is all white space; an already trimmed string is unchanged |
| CacheConstants.DecimalString | src/LootGoblin.Bot/Constants.cs:13 | the decimal rendering of an id is non-empty, has no leading zero and parses back to the id |
| CacheConstants.GetGuildSettingsCacheKey | src/LootGoblin.Bot/Constants.cs:13 | the key starts with `guild-settings-` and the guild id can be read back from it |
| CacheConstants.CacheKeyInjective | src/LootGoblin.Bot/Constants.cs:13 | two guilds share a cache key exactly when they are the same guild |
| Caching.MemoryCache.GetOrCreate | src/LootGoblin.Bot/Discord/Preconditions/RoleCheckPrecondition.cs:47-51 | a present entry is returned and never replaced; a missing one is filled with the created value; afterwards the key holds the value returned, so a repeated lookup gives the same answer |
| Caching.MemoryCache.Remove | src/LootGoblin.Bot/Services/GuildSettingsService.cs:87 | eviction drops exactly that key |
| Settings.GuildSettings.With | src/LootGoblin.Bot/Services/GuildSettingsService.cs:82-115 | setting one field gives it the new value and keeps the id and every other field |
| Settings.NewGuildSettings | src/LootGoblin.Bot/Services/GuildSettingsService.cs:70-79 | a new row has the guild's id and every optional field unset |
| SettingsService.EventChannelFollowsSetter | src/LootGoblin.Bot/Discord/Modules/EventCommandsModule.cs:54-56 | after the event channel setter new events go to the channel set, or to the command's channel once it is cleared; the other three setters do not move them |
| Events.GuildEvent.constructor | src/LootGoblin.Bot/Services/GuildEventService.cs:121-136 | a new event is Created, unposted, unstamped, with no participant channels and the given fields |
| Events.IndexOfChannel | src/LootGoblin.Bot/Services/GuildEventService.cs:221 | the first position holding the channel, or none exactly when the channel is absent |
| Events.DistinctOccurrences | src/LootGoblin.Bot/Services/GuildEventService.cs:199-202 | in a list of distinct channels each channel occurs once if present and never otherwise |
| Lifecycle.TrimOption | src/LootGoblin.Bot/Services/GuildEventService.cs:125 | a missing description stays missing and a present one becomes its Trim, so it is trimmed |
| Lifecycle.CreateEventResult | src/LootGoblin.Bot/Services/GuildEventService.cs:110-137 | success exactly when the name is not blank, the minimum is not negative and the maximum is at least 1; each refusal is a ValidationError with its own message, checked in that order; the created event is Created, well formed, with the trimmed name and description, and trimming never pushes a name or description that fits its column over the limit |
| Lifecycle.SetEventMessageResult | src/LootGoblin.Bot/Services/GuildEventService.cs:140-151 | success exactly when the event exists; then only the message and origin channel change and the event is posted |
| Lifecycle.EventStateUpdate | src/LootGoblin.Bot/Services/GuildEventService.cs:251-266 | NotFound for a missing event, InvalidState outside the allowed states, otherwise the event moves to the target state |
| Lifecycle.Transition.AllowedFrom | src/LootGoblin.Bot/Services/GuildEventService.cs:154-181 | no operation is allowed from its own target state or from Cancelled |
| Lifecycle.TransitionResult | src/LootGoblin.Bot/Services/GuildEventService.cs:154-181 | start, pause, resume, complete and cancel succeed exactly from their allowed states, and otherwise fail NotFound or InvalidState with the message naming both states; only start stamps StartedAt/By, only complete stamps CompletedAt/By, nothing else changes and well-formedness is kept |
| Lifecycle.TransitionTable | src/LootGoblin.Bot/Services/GuildEventService.cs:154-181 | some operation leads from one state to another exactly when that pair is an edge of the event life cycle |
| Lifecycle.AddParticipantChannelResult | src/LootGoblin.Bot/Services/GuildEventService.cs:189-206 | success exactly for an existing Created (organizer-editable) event without that channel; the channel is appended and then occurs exactly once; refusals are NotFound, InvalidState or ValidationError, each with its own message |
| Lifecycle.RemoveParticipantChannelResult | src/LootGoblin.Bot/Services/GuildEventService.cs:214-229 | success exactly when the event exists and has the channel, in any state; the channel is removed, the others stay (as a multiset) and stay distinct |
| Lifecycle.ParticipantChannelsOf | src/LootGoblin.Bot/Services/GuildEventService.cs:236-241 | the channels of an existing event, or the empty list for a missing one; for a well-formed event no channel is listed twice |
| Lifecycle.CancelledIsAbsorbing | src/LootGoblin.Bot/Services/GuildEventService.cs:154-181 | no sequence of operations takes an event out of Cancelled |
| Lifecycle.CompletedOnlyToCancelled | src/LootGoblin.Bot/Services/GuildEventService.cs:171-181 | from Completed any sequence of operations ends in Completed or Cancelled |
| Lifecycle.CreatedIsNeverReentered | src/LootGoblin.Bot/Services/GuildEventService.cs:154-181 | once an event has left Created no sequence of operations brings it back |
| Lifecycle.ApplyAllFollowsRun | src/LootGoblin.Bot/Services/GuildEventService.cs:251-266 | applying a sequence of operations to a well-formed event ends in the state the life cycle predicts, still well formed |
| EventDb.Where | src/LootGoblin.Bot/Data/EventDbContext.cs:55-60 | the filter keeps exactly the rows of the guild (in the requested state), each with its multiplicity |
| EventDb.InsertNewestFirst | src/LootGoblin.Bot/Data/EventDbContext.cs:62-64 | inserting into a newest-first list keeps it newest first and adds exactly that row |
| EventDb.SortNewestFirst | src/LootGoblin.Bot/Data/EventDbContext.cs:62-64 | the ordering is newest first and a permutation of its input |
| EventDb.GuildEventsQuery | src/LootGoblin.Bot/Data/EventDbContext.cs:53-65 | the query returns exactly the matching rows, newest first; without a state filter every event of the guild is returned |
| EventDb.EventDbContext.RowsBetweenAreDistinct | src/LootGoblin.Bot/Data/Entities/GuildEvent.cs:145-147 | with every event stored under its own generated id, the stored rows of an id range carry ids in that range and none appears twice |
| EventDb.EventDbContext.GetGuildEventsForGuild | src/LootGoblin.Bot/Data/EventDbContext.cs:53-65 | over the stored events: every result matches and is a stored event, every matching event with an issued id is returned, newest first, and none twice when events are stored under their own ids |
| EventService.GuildEventService.QueryListsEachMatchOnce | src/LootGoblin.Bot/Data/EventDbContext.cs:53-65 | under the event table invariant the guild query lists every matching stored event exactly once and nothing that is not stored |
| EventService.GuildEventService.CreateEvent | src/LootGoblin.Bot/Services/GuildEventService.cs:110-137 | the result and the new table are those of CreateEventResult; on success a fresh event is stored under the next id |
| EventService.GuildEventService.SetEventMessage | src/LootGoblin.Bot/Services/GuildEventService.cs:140-151 | the result and the new table are those of SetEventMessageResult |
| EventService.GuildEventService.UpdateEventState | src/LootGoblin.Bot/Services/GuildEventService.cs:251-266 | the result and the new table are those of EventStateUpdate, and the table invariant is kept |
| EventService.GuildEventService.StartEvent | src/LootGoblin.Bot/Services/GuildEventService.cs:154-160 | the result and the new table are those of TransitionResult for Start |
| EventService.GuildEventService.PauseEvent | src/LootGoblin.Bot/Services/GuildEventService.cs:163-164 | the result and the new table are those of TransitionResult for Pause |
| EventService.GuildEventService.ResumeEvent | src/LootGoblin.Bot/Services/GuildEventService.cs:167-168 | the result and the new table are those of TransitionResult for Resume |
| EventService.GuildEventService.CompleteEvent | src/LootGoblin.Bot/Services/GuildEventService.cs:171-177 | the result and the new table are those of TransitionResult for Complete |
| EventService.GuildEventService.CancelEvent | src/LootGoblin.Bot/Services/GuildEventService.cs:180-181 | the result and the new table are those of TransitionResult for Cancel |
| EventService.GuildEventService.AddParticipantChannel | src/LootGoblin.Bot/Services/GuildEventService.cs:189-206 | the result and the new table are those of AddParticipantChannelResult |
| EventService.GuildEventService.RemoveParticipantChannel | src/LootGoblin.Bot/Services/GuildEventService.cs:214-229 | the result and the new table are those of RemoveParticipantChannelResult |
| EventService.GuildEventService.GetParticipantChannels | src/LootGoblin.Bot/Services/GuildEventService.cs:236-241 | the stored channels of the event (empty when missing), which are distinct |
| SettingsService.SettingsOrDefault | src/LootGoblin.Bot/Services/GuildSettingsService.cs:118-122 | the stored row, or a fresh default row for the guild when none is stored |
| SettingsService.UpsertSetting | src/LootGoblin.Bot/Services/GuildSettingsService.cs:82-115 | the guild's row exists afterwards with the new value, its other fields as before (or default), and every other guild's row untouched |
| SettingsService.SetThenGet | src/LootGoblin.Bot/Services/GuildSettingsService.cs:82-122 | reading after a write returns the written value for that guild and the old settings for every other guild |
| SettingsService.SetIsIdempotent | src/LootGoblin.Bot/Services/GuildSettingsService.cs:82-115 | writing the same value twice is writing it once; writing the stored value changes nothing |
| SettingsService.EvictAfterWriteKeepsCoherent | src/LootGoblin.Bot/Services/GuildSettingsService.cs:82-88 | a write followed by evicting that guild's key keeps every cached entry equal to the store |
| SettingsService.WriteWithoutEvictionIsStale | src/LootGoblin.Bot/Services/GuildSettingsService.cs:82-88 | a changing write without the eviction leaves a cached entry that disagrees with the store |
| SettingsService.GuildSettingsService.GetOrCreateGuildSettings | src/LootGoblin.Bot/Services/GuildSettingsService.cs:70-79 | returns the stored row, or a default one flagged as added exactly when none is stored |
| SettingsService.GuildSettingsService.SaveChanges | src/LootGoblin.Bot/Services/GuildSettingsService.cs:130-141 | a successful save commits the pending rows; a failed one commits nothing and reports the fixed failure message |
| SettingsService.GuildSettingsService.SetLootChannel | src/LootGoblin.Bot/Services/GuildSettingsService.cs:82-88 | on a successful save the loot channel is upserted and the key evicted; on failure store and cache are unchanged; cache coherence is kept |
| SettingsService.GuildSettingsService.SetEventChannel | src/LootGoblin.Bot/Services/GuildSettingsService.cs:91-97 | on a successful save the event channel is upserted and the key evicted; on failure store and cache are unchanged; cache coherence is kept |
| SettingsService.GuildSettingsService.SetEventOrganizerRole | src/LootGoblin.Bot/Services/GuildSettingsService.cs:100-106 | on a successful save the organizer role is upserted and the key evicted; on failure store and cache are unchanged; cache coherence is kept |
| SettingsService.GuildSettingsService.SetEventParticipantRole | src/LootGoblin.Bot/Services/GuildSettingsService.cs:109-115 | on a successful save the participant role is upserted and the key evicted; on failure store and cache are unchanged; cache coherence is kept |
| SettingsService.GuildSettingsService.GetGuildSettings | src/LootGoblin.Bot/Services/GuildSettingsService.cs:118-122 | the stored row or a default one, carrying the guild's id whenever rows are keyed by id |
| Preconditions.Decide | src/LootGoblin.Bot/Discord/Preconditions/RoleCheckPrecondition.cs:53-70 | success exactly when settings exist and the role is unset or held by a guild member; otherwise the settings-missing or missing-role message |
| Preconditions.CheckRole | src/LootGoblin.Bot/Discord/Preconditions/RoleCheckPrecondition.cs:34-71 | no guild is refused with the cache untouched; otherwise a cached entry is used, or the store's row (or its absence) is fetched and cached, and the decision is made on it |
| Preconditions.RequireEventOrganizerRole | src/LootGoblin.Bot/Discord/Preconditions/RequireEventOrganizerRoleAttribute.cs:15-16 | the organizer gate admits exactly when no organizer role is set or the guild member holds it |
| Preconditions.RequireEventParticipantRole | src/LootGoblin.Bot/Discord/Preconditions/RequireEventParticipantRoleAttribute.cs:15-16 | the participant gate admits exactly when no participant role is set or the guild member holds it |
| Preconditions.EnsureCanExecute | src/LootGoblin.Bot/Discord/Preconditions/RoleCheckPrecondition.cs:34-71 | the result and the new cache are those of CheckRole on the stored rows |
| Preconditions.GateAgreesWithStore | src/LootGoblin.Bot/Discord/Preconditions/RoleCheckPrecondition.cs:47-70 | with a coherent cache the gate decides as on the stored row and leaves the cache coherent |
| Preconditions.SetterThenGate | src/LootGoblin.Bot/Services/GuildSettingsService.cs:100-115 | after a setter (write and evict) the gate decides on the newly written row; when the written field is the gate's role, it admits exactly when the new role is unset or held by the guild member |
| Preconditions.CachedEntryWins | src/LootGoblin.Bot/Discord/Preconditions/RoleCheckPrecondition.cs:47-51 | while a guild's key is cached the gate ignores the store and leaves the cache as it is |
| Preconditions.MissingRowIsRefused | src/LootGoblin.Bot/Discord/Preconditions/RoleCheckPrecondition.cs:53-54 | a guild without a row is refused and its absence is cached, although the default settings would admit the user |
| Preconditions.GatesAreIndependent | src/LootGoblin.Bot/Data/Entities/GuildSettings.cs:25-35 | the participant gate does not depend on the organizer role, nor the organizer gate on the participant role |
| Preconditions.OrganizerRoleIsNotParticipantRole | src/LootGoblin.Bot/Data/Entities/GuildSettings.cs:25-35 | with two different roles set, holding only the organizer role passes the organizer gate and fails the participant gate |

## Left out

- The Discord command modules are left out. Only the event-channel fallback (`Settings.EventChannelFor`) is modelled. The attribute that puts the organizer gate on the event commands is caller context.
- The loot-channel fallback (the loot channel, else the event message's channel) is only documented on `GuildSettings.LootChannelId`; no code in this core implements it, so it is not modelled.
- The application host and dependency injection (`Program.cs`) are left out, and so is the gate's null check on the service provider, which is a programming error rather than behaviour.
- Entity Framework configuration, migrations and column types are left out. `Events.WithinStorageLimits` states the 256- and 2048-character limits. No operation enforces them, because the services do not check them either; `Lifecycle.CreateEventResult` only proves that trimming keeps input that fits within them.
- Loot piles, participant sessions and event participants are left out. The services in this core never read or write those collections.
- Asynchrony, concurrent requests and database concurrency conflicts are left out: each operation is one atomic step.
- The clock is a `Timestamp` parameter. Cache expiry after ten minutes is the `Remove` operation at an unspecified moment, not a timer.
- SettingsService.GuildSettingsService.SaveChanges: the `DbUpdateException` wrapper is the `SaveFailed` outcome. The entity tracked in memory after a failed save is not modelled: the store keeps only what was committed.
- EventService.GuildEventService.CreateEvent: save failures of the event service are not modelled; every event save succeeds.
- EventService.GuildEventService.CreateEvent: the 32-bit range of event ids is not modelled; ids are unbounded.
- EventDb.SortNewestFirst: the database's order among events created at the same instant is unspecified; the model keeps input order.
- Text.Trim: the white-space set is written out as the .NET `char.IsWhiteSpace` set; no other Unicode processing is modelled.
- Preconditions.RoleCheckPrecondition: the role selector is one of the settings fields rather than an arbitrary function, which covers both gates the bot defines.
- Completed is not terminal: `CancelEventAsync` accepts it (GuildEventService.cs:181); see `Lifecycle.CompletedOnlyToCancelled`.
- The gate also caches the absence of a settings row, because `GetOrCreateAsync` stores a null result; see `Preconditions.MissingRowIsRefused`.
- The gate refuses a guild with no settings row, whereas `GetGuildSettings` returns defaults under which anyone is admitted; the model keeps both behaviours.
