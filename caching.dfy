/** The in-process memory cache shared by the settings service and the role gate; it holds
    what a settings lookup returned, including "no row". */
module Caching {
  import opened Primitives
  import opened Settings
  import opened CacheConstants

  /** The absolute expiry the role gate gives the entries it creates. */
  const GuildSettingsExpiryMinutes := 10

  class MemoryCache {
    var entries: map<string, Option<GuildSettings>>

    constructor ()
      ensures entries == map[]
    {
      entries := map[];
    }

    /** `GetOrCreate`: a cached entry is returned as it is; otherwise `created` (what the
        factory computes) is stored and returned. Either way the key then holds the value
        returned, so the next lookup gives the same answer, and a present entry is never
        replaced. */
    method GetOrCreate(key: string, created: Option<GuildSettings>) returns (value: Option<GuildSettings>)
      modifies this
      ensures key in old(entries) ==> value == old(entries)[key] && entries == old(entries)
      ensures key !in old(entries) ==> value == created
      ensures key in entries && entries[key] == value
      ensures entries == old(entries)[key := value]
    {
      if key in entries {
        value := entries[key];
        assert entries[key := value] == entries;
      } else {
        value := created;
        entries := entries[key := value];
      }
    }

    /** `Remove`; it is also what expiry does to an entry at a moment the model leaves open. */
    method Remove(key: string)
      modifies this
      ensures entries == old(entries) - {key}
    {
      entries := entries - {key};
    }
  }

  /** The cache agrees with the settings table: whatever is cached under a guild's key is
      exactly what a lookup of that guild in the table returns now. */
  ghost predicate Coherent(rows: map<UInt64, GuildSettings>, entries: map<string, Option<GuildSettings>>)
  {
    forall g: UInt64 {:trigger GetGuildSettingsCacheKey(g)} ::
      GetGuildSettingsCacheKey(g) in entries ==> entries[GetGuildSettingsCacheKey(g)] == Find(rows, g)
  }
}
