/** The guild settings service: reads a guild's settings row, and sets one of its four
    properties at a time, creating the row on first use, saving, then evicting the cached
    copy so that the role gate reads the new value. */
module SettingsService {
  import opened Primitives
  import opened Settings
  import opened CacheConstants
  import opened Caching
  import opened EventDb

  /** The message of the error a failed save is reported with. */
  const SaveFailedMessage := "Database update failed while saving guild settings. Please try again."

  /** How `SaveChangesAsync` ended: saved, or the storage error rethrown with its fixed message. */
  datatype SaveOutcome = Saved | SaveFailed(message: string)

  /** `GetGuildSettingsAsync`: the guild's row, or a fresh all-absent instance when it has none. */
  function SettingsOrDefault(rows: map<UInt64, GuildSettings>, guildId: UInt64): (s: GuildSettings)
    ensures Find(rows, guildId).Some? ==> s == Find(rows, guildId).value
    ensures Find(rows, guildId).None? ==> s == NewGuildSettings(guildId)
    ensures KeyedById(rows) ==> s.id == guildId
  {
    if guildId in rows then rows[guildId] else NewGuildSettings(guildId)
  }

  /** The table after a setter saved: the guild's row (created if missing) has property `f`
      set to `v`; every other row is as before. */
  function UpsertSetting(rows: map<UInt64, GuildSettings>, guildId: UInt64, f: SettingsField, v: Option<UInt64>)
    : (r: map<UInt64, GuildSettings>)
    ensures r.Keys == rows.Keys + {guildId}
    ensures forall g :: g in rows && g != guildId ==> r[g] == rows[g]
    ensures r[guildId].Get(f) == v
    ensures forall f': SettingsField :: f' != f ==> r[guildId].Get(f') == SettingsOrDefault(rows, guildId).Get(f')
    ensures KeyedById(rows) ==> KeyedById(r)
  {
    rows[guildId := SettingsOrDefault(rows, guildId).With(f, v)]
  }

  /** Reading back after a setter gives the value set, and keeps the other three properties. */
  lemma SetThenGet(rows: map<UInt64, GuildSettings>, guildId: UInt64, f: SettingsField, v: Option<UInt64>, h: UInt64)
    ensures SettingsOrDefault(UpsertSetting(rows, guildId, f, v), guildId)
              == SettingsOrDefault(rows, guildId).With(f, v)
    ensures h != guildId ==> SettingsOrDefault(UpsertSetting(rows, guildId, f, v), h) == SettingsOrDefault(rows, h)
  {
  }

  /** Setting a property to the value it already has, on an existing row, changes nothing. */
  lemma SetIsIdempotent(rows: map<UInt64, GuildSettings>, guildId: UInt64, f: SettingsField, v: Option<UInt64>)
    ensures UpsertSetting(UpsertSetting(rows, guildId, f, v), guildId, f, v) == UpsertSetting(rows, guildId, f, v)
    ensures guildId in rows && rows[guildId].Get(f) == v ==> UpsertSetting(rows, guildId, f, v) == rows
  {
  }

  /** After the event channel setter, new events of the guild are posted to the channel set,
      or, once it is cleared, to the channel the command was issued in; the other three
      setters do not move them. */
  lemma EventChannelFollowsSetter(rows: map<UInt64, GuildSettings>, guildId: UInt64, f: SettingsField,
                                  v: Option<UInt64>, commandChannelId: UInt64)
    ensures f == EventChannel ==>
              EventChannelFor(Find(UpsertSetting(rows, guildId, f, v), guildId), commandChannelId)
              == if v.Some? then v.value else commandChannelId
    ensures f != EventChannel ==>
              EventChannelFor(Find(UpsertSetting(rows, guildId, f, v), guildId), commandChannelId)
              == EventChannelFor(Find(rows, guildId), commandChannelId)
  {
  }

  /** Writing the row and then evicting the guild's key keeps the cache coherent: the entries
      of every other guild still describe their unchanged rows. */
  lemma {:induction false} EvictAfterWriteKeepsCoherent(rows: map<UInt64, GuildSettings>,
                                                        entries: map<string, Option<GuildSettings>>,
                                                        guildId: UInt64, f: SettingsField, v: Option<UInt64>)
    requires Coherent(rows, entries)
    ensures Coherent(UpsertSetting(rows, guildId, f, v), entries - {GetGuildSettingsCacheKey(guildId)})
  {
    var rows', entries' := UpsertSetting(rows, guildId, f, v), entries - {GetGuildSettingsCacheKey(guildId)};
    forall g: UInt64 | GetGuildSettingsCacheKey(g) in entries'
      ensures entries'[GetGuildSettingsCacheKey(g)] == Find(rows', g)
    {
      CacheKeyInjective(g, guildId);
    }
  }

  /** Without the eviction the cache goes stale: a guild whose settings are cached and whose
      property changes keeps answering with the old settings. */
  lemma {:induction false} WriteWithoutEvictionIsStale(rows: map<UInt64, GuildSettings>,
                                                       entries: map<string, Option<GuildSettings>>,
                                                       guildId: UInt64, f: SettingsField, v: Option<UInt64>)
    requires Coherent(rows, entries) && GetGuildSettingsCacheKey(guildId) in entries
    requires v != SettingsOrDefault(rows, guildId).Get(f)
    ensures !Coherent(UpsertSetting(rows, guildId, f, v), entries)
  {
    var rows' := UpsertSetting(rows, guildId, f, v);
    var cached := entries[GetGuildSettingsCacheKey(guildId)];
    assert cached == Find(rows, guildId);
    assert Find(rows', guildId) == Some(rows'[guildId]) && rows'[guildId].Get(f) == v;
    if cached.Some? {
      assert cached.value.Get(f) != v;
    }
    assert cached != Find(rows', guildId);
  }

  class GuildSettingsService {
    const db: EventDbContext
    const cache: MemoryCache

    constructor (db: EventDbContext, cache: MemoryCache)
      ensures this.db == db && this.cache == cache
    {
      this.db := db;
      this.cache := cache;
    }

    /** `GetOrCreateGuildSettingsAsync`: the tracked row, or a new one to be added on the next
        save (`added`); the store itself changes only when that save succeeds. */
    method GetOrCreateGuildSettings(guildId: UInt64) returns (settings: GuildSettings, added: bool)
      ensures added <==> Find(db.guildSettings, guildId).None?
      ensures settings == SettingsOrDefault(db.guildSettings, guildId)
      ensures KeyedById(db.guildSettings) ==> settings.id == guildId
    {
      var found := Find(db.guildSettings, guildId);
      if found.None? {
        settings := NewGuildSettings(guildId);
        added := true;
      } else {
        settings := found.value;
        added := false;
      }
    }

    /** `SaveChangesAsync`: commits the tracked changes (`pending`) when the storage accepts
        them, otherwise reports the storage error and the store keeps its content. */
    method SaveChanges(pending: map<UInt64, GuildSettings>, saveSucceeds: bool) returns (outcome: SaveOutcome)
      modifies db`guildSettings
      ensures saveSucceeds ==> outcome == Saved && db.guildSettings == pending
      ensures !saveSucceeds ==> outcome == SaveFailed(SaveFailedMessage) && db.guildSettings == old(db.guildSettings)
    {
      if saveSucceeds {
        db.guildSettings := pending;
        outcome := Saved;
      } else {
        outcome := SaveFailed(SaveFailedMessage);
      }
    }

    /** The shared body of the four setters: get or create the row, assign the property, save,
        and only after a successful save evict the guild's cache entry. */
    method SetSetting(guildId: UInt64, f: SettingsField, v: Option<UInt64>, saveSucceeds: bool)
      returns (outcome: SaveOutcome)
      modifies db`guildSettings, cache
      ensures outcome == Saved <==> saveSucceeds
      ensures outcome.Saved? ==> && db.guildSettings == UpsertSetting(old(db.guildSettings), guildId, f, v)
                                 && cache.entries == old(cache.entries) - {GetGuildSettingsCacheKey(guildId)}
      ensures outcome.SaveFailed? ==> && outcome.message == SaveFailedMessage
                                      && db.guildSettings == old(db.guildSettings)
                                      && cache.entries == old(cache.entries)
      ensures KeyedById(old(db.guildSettings)) ==> KeyedById(db.guildSettings)
      ensures Coherent(old(db.guildSettings), old(cache.entries)) ==> Coherent(db.guildSettings, cache.entries)
    {
      var settings, _ := GetOrCreateGuildSettings(guildId);
      var pending := db.guildSettings[guildId := settings.With(f, v)];
      outcome := SaveChanges(pending, saveSucceeds);
      if outcome.SaveFailed? {
        return;
      }
      cache.Remove(GetGuildSettingsCacheKey(guildId));
      if Coherent(old(db.guildSettings), old(cache.entries)) {
        EvictAfterWriteKeepsCoherent(old(db.guildSettings), old(cache.entries), guildId, f, v);
      }
    }

    /** `SetLootChannelAsync` (`None` clears the setting). */
    method SetLootChannel(guildId: UInt64, channelId: Option<UInt64>, saveSucceeds: bool)
      returns (outcome: SaveOutcome)
      modifies db`guildSettings, cache
      ensures outcome == Saved <==> saveSucceeds
      ensures outcome.Saved? ==> && db.guildSettings == UpsertSetting(old(db.guildSettings), guildId, LootChannel, channelId)
                                 && cache.entries == old(cache.entries) - {GetGuildSettingsCacheKey(guildId)}
      ensures outcome.SaveFailed? ==> db.guildSettings == old(db.guildSettings) && cache.entries == old(cache.entries)
      ensures KeyedById(old(db.guildSettings)) ==> KeyedById(db.guildSettings)
      ensures Coherent(old(db.guildSettings), old(cache.entries)) ==> Coherent(db.guildSettings, cache.entries)
    {
      outcome := SetSetting(guildId, LootChannel, channelId, saveSucceeds);
    }

    /** `SetEventChannelAsync` (`None` clears the setting). */
    method SetEventChannel(guildId: UInt64, channelId: Option<UInt64>, saveSucceeds: bool)
      returns (outcome: SaveOutcome)
      modifies db`guildSettings, cache
      ensures outcome == Saved <==> saveSucceeds
      ensures outcome.Saved? ==> && db.guildSettings == UpsertSetting(old(db.guildSettings), guildId, EventChannel, channelId)
                                 && cache.entries == old(cache.entries) - {GetGuildSettingsCacheKey(guildId)}
      ensures outcome.SaveFailed? ==> db.guildSettings == old(db.guildSettings) && cache.entries == old(cache.entries)
      ensures KeyedById(old(db.guildSettings)) ==> KeyedById(db.guildSettings)
      ensures Coherent(old(db.guildSettings), old(cache.entries)) ==> Coherent(db.guildSettings, cache.entries)
    {
      outcome := SetSetting(guildId, EventChannel, channelId, saveSucceeds);
    }

    /** `SetEventOrganizerRoleAsync` (`None` lets anyone organize). */
    method SetEventOrganizerRole(guildId: UInt64, roleId: Option<UInt64>, saveSucceeds: bool)
      returns (outcome: SaveOutcome)
      modifies db`guildSettings, cache
      ensures outcome == Saved <==> saveSucceeds
      ensures outcome.Saved? ==> && db.guildSettings == UpsertSetting(old(db.guildSettings), guildId, EventOrganizerRole, roleId)
                                 && cache.entries == old(cache.entries) - {GetGuildSettingsCacheKey(guildId)}
      ensures outcome.SaveFailed? ==> db.guildSettings == old(db.guildSettings) && cache.entries == old(cache.entries)
      ensures KeyedById(old(db.guildSettings)) ==> KeyedById(db.guildSettings)
      ensures Coherent(old(db.guildSettings), old(cache.entries)) ==> Coherent(db.guildSettings, cache.entries)
    {
      outcome := SetSetting(guildId, EventOrganizerRole, roleId, saveSucceeds);
    }

    /** `SetEventParticipantRoleAsync` (`None` lets anyone participate). */
    method SetEventParticipantRole(guildId: UInt64, roleId: Option<UInt64>, saveSucceeds: bool)
      returns (outcome: SaveOutcome)
      modifies db`guildSettings, cache
      ensures outcome == Saved <==> saveSucceeds
      ensures outcome.Saved? ==> && db.guildSettings == UpsertSetting(old(db.guildSettings), guildId, EventParticipantRole, roleId)
                                 && cache.entries == old(cache.entries) - {GetGuildSettingsCacheKey(guildId)}
      ensures outcome.SaveFailed? ==> db.guildSettings == old(db.guildSettings) && cache.entries == old(cache.entries)
      ensures KeyedById(old(db.guildSettings)) ==> KeyedById(db.guildSettings)
      ensures Coherent(old(db.guildSettings), old(cache.entries)) ==> Coherent(db.guildSettings, cache.entries)
    {
      outcome := SetSetting(guildId, EventParticipantRole, roleId, saveSucceeds);
    }

    /** `GetGuildSettingsAsync`: never fails; a guild without a row gets all-absent settings. */
    method GetGuildSettings(guildId: UInt64) returns (settings: GuildSettings)
      ensures settings == SettingsOrDefault(db.guildSettings, guildId)
      ensures KeyedById(db.guildSettings) ==> settings.id == guildId
    {
      var found := Find(db.guildSettings, guildId);
      settings := if found.Some? then found.value else NewGuildSettings(guildId);
    }
  }
}
