/** The cache key under which a guild's settings are cached. */
module CacheConstants {
  import opened Primitives

  const GuildSettingsKeyPrefix: string := "guild-settings-"

  predicate IsDigits(s: string)
  {
    forall i :: 0 <= i < |s| ==> '0' <= s[i] <= '9'
  }

  function DigitChar(d: int): (c: char)
    requires 0 <= d < 10
    ensures '0' <= c <= '9' && c as int - '0' as int == d
  {
    ('0' as int + d) as char
  }

  /** The value a string of decimal digits denotes. */
  function ParseDecimal(s: string): nat
    requires IsDigits(s)
  {
    if s == [] then 0 else ParseDecimal(s[..|s| - 1]) * 10 + (s[|s| - 1] as int - '0' as int)
  }

  /** The invariant-culture decimal form of `n`: digits only, no leading zero, and it
      denotes `n` again. */
  function DecimalString(n: nat): (s: string)
    ensures |s| >= 1 && IsDigits(s)
    ensures s[0] == '0' ==> s == "0"
    ensures ParseDecimal(s) == n
  {
    if n < 10 then
      [DigitChar(n)]
    else
      var front := DecimalString(n / 10);
      var s := front + [DigitChar(n % 10)];
      assert s[..|s| - 1] == front;
      s
  }

  /** `GetGuildSettingsCacheKey`: the prefix followed by the guild id in decimal; the id
      can be read back from the key. */
  function GetGuildSettingsCacheKey(guildId: UInt64): (key: string)
    ensures |key| > |GuildSettingsKeyPrefix| && key[..|GuildSettingsKeyPrefix|] == GuildSettingsKeyPrefix
    ensures GuildIdOfCacheKey(key) == Some(guildId)
  {
    var key := GuildSettingsKeyPrefix + DecimalString(guildId);
    assert key[|GuildSettingsKeyPrefix|..] == DecimalString(guildId);
    key
  }

  /** The inverse of GetGuildSettingsCacheKey on well-formed keys. */
  function GuildIdOfCacheKey(key: string): Option<UInt64>
  {
    var n := |GuildSettingsKeyPrefix|;
    if |key| > n && key[..n] == GuildSettingsKeyPrefix && IsDigits(key[n..])
       && ParseDecimal(key[n..]) < 0x1_0000_0000_0000_0000
    then Some(ParseDecimal(key[n..]))
    else None
  }

  /** Distinct guilds have distinct keys, so evicting one guild's entry never evicts another's. */
  lemma CacheKeyInjective(a: UInt64, b: UInt64)
    ensures GetGuildSettingsCacheKey(a) == GetGuildSettingsCacheKey(b) <==> a == b
  {
    if GetGuildSettingsCacheKey(a) == GetGuildSettingsCacheKey(b) {
      assert Some(a) == GuildIdOfCacheKey(GetGuildSettingsCacheKey(b)) == Some(b);
    }
  }
}
