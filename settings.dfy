/** A guild's settings row: the guild id and four optional channel and role ids. */
module Settings {
  import opened Primitives

  /** One row per guild. The id is the guild's own id, assigned by Discord, never generated. */
  datatype GuildSettings = GuildSettings(
    id: UInt64,
    eventChannelId: Option<UInt64>,
    lootChannelId: Option<UInt64>,
    eventOrganizerRoleId: Option<UInt64>,
    eventParticipantRoleId: Option<UInt64>)
  {
    /** The property a setter assigns. */
    function Get(f: SettingsField): Option<UInt64>
    {
      match f
      case EventChannel => eventChannelId
      case LootChannel => lootChannelId
      case EventOrganizerRole => eventOrganizerRoleId
      case EventParticipantRole => eventParticipantRoleId
    }

    /** Assigns one property (`None` clears it); the id and the other three are kept. */
    function With(f: SettingsField, v: Option<UInt64>): (r: GuildSettings)
      ensures r.id == id && r.Get(f) == v
      ensures forall g: SettingsField :: g != f ==> r.Get(g) == Get(g)
    {
      match f
      case EventChannel => this.(eventChannelId := v)
      case LootChannel => this.(lootChannelId := v)
      case EventOrganizerRole => this.(eventOrganizerRoleId := v)
      case EventParticipantRole => this.(eventParticipantRoleId := v)
    }

    /** No organizer role set: anyone may set up or manage an event. */
    predicate AnyoneMayOrganize()
    {
      eventOrganizerRoleId.None?
    }

    /** No participant role set: anyone may take part in an event. */
    predicate AnyoneMayParticipate()
    {
      eventParticipantRoleId.None?
    }
  }

  /** `new GuildSettings { Id = guildId }`: every optional id absent. */
  function NewGuildSettings(guildId: UInt64): (s: GuildSettings)
    ensures s.id == guildId
    ensures forall f: SettingsField :: s.Get(f) == None
  {
    GuildSettings(guildId, None, None, None, None)
  }

  /** The four optional properties, each assigned by its own setter. */
  datatype SettingsField = EventChannel | LootChannel | EventOrganizerRole | EventParticipantRole

  /** Where an event is posted, given the guild's row as `FindAsync` returns it: the configured
      event channel, else the channel the command was issued in. */
  function EventChannelFor(settings: Option<GuildSettings>, commandChannelId: UInt64): (c: UInt64)
    ensures settings.Some? && settings.value.eventChannelId.Some? ==> c == settings.value.eventChannelId.value
    ensures settings.None? || settings.value.eventChannelId.None? ==> c == commandChannelId
  {
    if settings.Some? && settings.value.eventChannelId.Some? then settings.value.eventChannelId.value
    else commandChannelId
  }

  /** The settings table is keyed by each row's own id. */
  ghost predicate KeyedById(rows: map<UInt64, GuildSettings>)
  {
    forall g :: g in rows ==> rows[g].id == g
  }
}
