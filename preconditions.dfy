/** The role gate in front of event commands: it finds the guild's settings through the
    memory cache (filling a missing entry from the settings table, "no row" included) and
    lets the command run when the required role is unset or the user holds it. */
module Preconditions {
  import opened Primitives
  import opened Settings
  import opened CacheConstants
  import opened Caching
  import opened EventDb
  import opened SettingsService

  const GuildNotFound := "Guild could not be found."
  const SettingsNotFound := "Guild settings not found."

  /** The user who issued the command: a guild member with role ids, or any other user. */
  datatype User = GuildInteractionUser(id: UInt64, roleIds: seq<UInt64>) | OtherUser(id: UInt64)

  /** The part of the command context the gate reads: the guild, if any, and the user. */
  datatype CommandContext = CommandContext(guild: Option<UInt64>, user: User)

  datatype PreconditionResult = PreconditionSuccess | PreconditionFail(message: string)

  /** A role check: which settings property names the required role, and how the role is
      called in the refusal message. */
  datatype RoleCheckPrecondition = RoleCheckPrecondition(roleField: SettingsField, roleType: string)
  {
    /** The refusal for a user without the role. */
    function MissingRoleMessage(): string
    {
      "You must have the " + roleType + " role to use this command."
    }

    /** The user may run the command under these settings: no role required, or a guild
        member holding it. */
    predicate Admits(settings: GuildSettings, user: User)
    {
      settings.Get(roleField).None?
      || (user.GuildInteractionUser? && settings.Get(roleField).value in user.roleIds)
    }
  }

  /** The decision once the settings lookup has answered: no settings refuses, otherwise the
      user is admitted exactly when the role check admits them. */
  function Decide(p: RoleCheckPrecondition, settings: Option<GuildSettings>, user: User): (r: PreconditionResult)
    ensures r.PreconditionSuccess? <==> settings.Some? && p.Admits(settings.value, user)
    ensures settings.None? ==> r == PreconditionFail(SettingsNotFound)
    ensures settings.Some? && !p.Admits(settings.value, user) ==> r == PreconditionFail(p.MissingRoleMessage())
  {
    if settings.None? then
      PreconditionFail(SettingsNotFound)
    else if settings.value.Get(p.roleField).None? then
      PreconditionSuccess
    else if user.GuildInteractionUser? && settings.value.Get(p.roleField).value in user.roleIds then
      PreconditionSuccess
    else
      PreconditionFail(p.MissingRoleMessage())
  }

  /** `EnsureCanExecuteAsync` as a function of the settings table and the cache entries: the
      decision, and the entries afterwards. A command outside a guild is refused and the cache
      untouched; otherwise a cached entry is used as is, and a missing one is filled with
      what the table holds for the guild, which may be "no row". */
  function CheckRole(p: RoleCheckPrecondition, ctx: CommandContext, rows: map<UInt64, GuildSettings>,
                     entries: map<string, Option<GuildSettings>>): (r: (PreconditionResult, map<string, Option<GuildSettings>>))
    ensures ctx.guild.None? ==> r == (PreconditionFail(GuildNotFound), entries)
    ensures ctx.guild.Some? ==>
              var key := GetGuildSettingsCacheKey(ctx.guild.value);
              && key in r.1
              && r.1 == entries[key := r.1[key]]
              && (key in entries ==> r.1[key] == entries[key])
              && (key !in entries ==> r.1[key] == Find(rows, ctx.guild.value))
              && r.0 == Decide(p, r.1[key], ctx.user)
  {
    if ctx.guild.None? then
      (PreconditionFail(GuildNotFound), entries)
    else
      var key := GetGuildSettingsCacheKey(ctx.guild.value);
      var settings := if key in entries then entries[key] else Find(rows, ctx.guild.value);
      (Decide(p, settings, ctx.user), entries[key := settings])
  }

  /** `RequireEventOrganizerRoleAttribute`: the organizer role is required, if one is set. */
  function RequireEventOrganizerRole(): (p: RoleCheckPrecondition)
    ensures forall s, u :: p.Admits(s, u) <==>
              s.AnyoneMayOrganize() || (u.GuildInteractionUser? && s.eventOrganizerRoleId.value in u.roleIds)
    ensures p.roleType == "Event Organizer"
  {
    RoleCheckPrecondition(EventOrganizerRole, "Event Organizer")
  }

  /** `RequireEventParticipantRoleAttribute`: the participant role is required, if one is set. */
  function RequireEventParticipantRole(): (p: RoleCheckPrecondition)
    ensures forall s, u :: p.Admits(s, u) <==>
              s.AnyoneMayParticipate() || (u.GuildInteractionUser? && s.eventParticipantRoleId.value in u.roleIds)
    ensures p.roleType == "Event Participant"
  {
    RoleCheckPrecondition(EventParticipantRole, "Event Participant")
  }

  /** `EnsureCanExecuteAsync` on the shared context and cache; the table is only read. */
  method EnsureCanExecute(p: RoleCheckPrecondition, ctx: CommandContext, db: EventDbContext, cache: MemoryCache)
    returns (r: PreconditionResult)
    modifies cache
    ensures (r, cache.entries) == CheckRole(p, ctx, db.guildSettings, old(cache.entries))
  {
    if ctx.guild.None? {
      return PreconditionFail(GuildNotFound);
    }
    var key := GetGuildSettingsCacheKey(ctx.guild.value);
    var settings := cache.GetOrCreate(key, Find(db.guildSettings, ctx.guild.value));
    r := Decide(p, settings, ctx.user);
  }

  /** With a coherent cache the gate decides on the table's current row, and leaves the
      cache coherent. */
  lemma {:induction false} GateAgreesWithStore(p: RoleCheckPrecondition, ctx: CommandContext,
                                               rows: map<UInt64, GuildSettings>,
                                               entries: map<string, Option<GuildSettings>>)
    requires Coherent(rows, entries) && ctx.guild.Some?
    ensures CheckRole(p, ctx, rows, entries).0 == Decide(p, Find(rows, ctx.guild.value), ctx.user)
    ensures Coherent(rows, CheckRole(p, ctx, rows, entries).1)
  {
    var g := ctx.guild.value;
    var entries' := CheckRole(p, ctx, rows, entries).1;
    forall h: UInt64 | GetGuildSettingsCacheKey(h) in entries'
      ensures entries'[GetGuildSettingsCacheKey(h)] == Find(rows, h)
    {
      CacheKeyInjective(g, h);
    }
  }

  /** A setting saved through the settings service is what the next gate check of that guild
      decides on: the write evicted the entry, so the gate refills it from the new row. When
      the gate checks the property just set, it admits exactly the users the new value admits. */
  lemma {:induction false} SetterThenGate(p: RoleCheckPrecondition, user: User, rows: map<UInt64, GuildSettings>,
                                          entries: map<string, Option<GuildSettings>>,
                                          guildId: UInt64, f: SettingsField, v: Option<UInt64>)
    ensures var rows', entries' := UpsertSetting(rows, guildId, f, v), entries - {GetGuildSettingsCacheKey(guildId)};
            && CheckRole(p, CommandContext(Some(guildId), user), rows', entries').0
               == Decide(p, Some(SettingsOrDefault(rows, guildId).With(f, v)), user)
            && (p.roleField == f ==>
                  (CheckRole(p, CommandContext(Some(guildId), user), rows', entries').0.PreconditionSuccess?
                   <==> v.None? || (user.GuildInteractionUser? && v.value in user.roleIds)))
  {
    var rows' := UpsertSetting(rows, guildId, f, v);
    assert Find(rows', guildId) == Some(SettingsOrDefault(rows, guildId).With(f, v));
  }

  /** While a guild's entry is cached the table is not consulted: two tables give the same
      decision and the same entries, so a change that bypasses the eviction stays invisible
      until the entry expires. */
  lemma {:induction false} CachedEntryWins(p: RoleCheckPrecondition, ctx: CommandContext,
                                           rows1: map<UInt64, GuildSettings>, rows2: map<UInt64, GuildSettings>,
                                           entries: map<string, Option<GuildSettings>>)
    requires ctx.guild.Some? && GetGuildSettingsCacheKey(ctx.guild.value) in entries
    ensures CheckRole(p, ctx, rows1, entries) == CheckRole(p, ctx, rows2, entries)
    ensures CheckRole(p, ctx, rows1, entries).1 == entries
  {
    var key := GetGuildSettingsCacheKey(ctx.guild.value);
    assert entries[key := entries[key]] == entries;
  }

  /** A guild without a settings row is refused by both gates, even though the settings
      service reports all-absent settings for it, under which neither role is required; the
      "no row" answer is cached too. */
  lemma {:induction false} MissingRowIsRefused(p: RoleCheckPrecondition, ctx: CommandContext,
                                               rows: map<UInt64, GuildSettings>,
                                               entries: map<string, Option<GuildSettings>>)
    requires ctx.guild.Some? && ctx.guild.value !in rows
    requires Coherent(rows, entries)
    ensures CheckRole(p, ctx, rows, entries).0 == PreconditionFail(SettingsNotFound)
    ensures CheckRole(p, ctx, rows, entries).1[GetGuildSettingsCacheKey(ctx.guild.value)] == None
    ensures p.Admits(SettingsOrDefault(rows, ctx.guild.value), ctx.user)
  {
    var g := ctx.guild.value;
    assert Find(rows, g) == None;
    assert SettingsOrDefault(rows, g).Get(p.roleField) == None;
  }

  /** Each gate reads its own property only: the organizer role does not restrict
      participation, and the participant role does not restrict organizing. */
  lemma GatesAreIndependent(s: GuildSettings, u: User, role: Option<UInt64>)
    ensures RequireEventParticipantRole().Admits(s.(eventOrganizerRoleId := role), u)
            == RequireEventParticipantRole().Admits(s, u)
    ensures RequireEventOrganizerRole().Admits(s.(eventParticipantRoleId := role), u)
            == RequireEventOrganizerRole().Admits(s, u)
  {
  }

  /** Holding the organizer role only does not satisfy the participant gate once a different
      participant role is set. */
  lemma OrganizerRoleIsNotParticipantRole(s: GuildSettings, userId: UInt64)
    requires s.eventOrganizerRoleId.Some? && s.eventParticipantRoleId.Some?
    requires s.eventOrganizerRoleId != s.eventParticipantRoleId
    ensures !RequireEventParticipantRole().Admits(s, GuildInteractionUser(userId, [s.eventOrganizerRoleId.value]))
    ensures RequireEventOrganizerRole().Admits(s, GuildInteractionUser(userId, [s.eventOrganizerRoleId.value]))
  {
  }
}
