/** The database as the core sees it: the settings and events tables, and the per-guild
    event query. */
module EventDb {
  import opened Primitives
  import opened Enumerations
  import opened Settings
  import opened Events

  /** The tables. Settings rows are values keyed by guild id; events are objects keyed by
      their generated id, `nextEventId` being the identity column's next value. */
  class EventDbContext {
    var guildSettings: map<UInt64, GuildSettings>
    var guildEvents: map<int, GuildEvent>
    var nextEventId: int

    constructor ()
      ensures guildSettings == map[] && guildEvents == map[] && nextEventId == 1
    {
      guildSettings := map[];
      guildEvents := map[];
      nextEventId := 1;
    }

    /** Every event object is stored under its own id. */
    ghost predicate EventsKeyedById()
      reads this, guildEvents.Values
    {
      forall id :: id in guildEvents ==> guildEvents[id].id == id
    }

    /** The stored events with ids in [lo, hi), in id order. */
    function RowsBetween(lo: int, hi: int): (r: seq<EventRecord>)
      reads this, guildEvents.Values
      ensures forall id :: lo <= id < hi && id in guildEvents ==> guildEvents[id].Snapshot() in r
      ensures forall e :: e in r ==> exists id :: lo <= id < hi && id in guildEvents && guildEvents[id].Snapshot() == e
      decreases hi - lo
    {
      if lo >= hi then []
      else (if lo in guildEvents then [guildEvents[lo].Snapshot()] else []) + RowsBetween(lo + 1, hi)
    }

    /** With every event stored under its own id, the rows of [lo, hi) carry ids in that
        range and no row appears twice. */
    lemma {:induction false} RowsBetweenAreDistinct(lo: int, hi: int)
      ensures EventsKeyedById() ==> forall e :: e in RowsBetween(lo, hi) ==> lo <= e.id < hi
      ensures EventsKeyedById() ==> forall e :: multiset(RowsBetween(lo, hi))[e] <= 1
      decreases hi - lo
    {
      if lo < hi && EventsKeyedById() {
        RowsBetweenAreDistinct(lo + 1, hi);
        var rest := RowsBetween(lo + 1, hi);
        if lo in guildEvents {
          var x := guildEvents[lo].Snapshot();
          assert x.id == lo && x !in rest;
          assert RowsBetween(lo, hi) == [x] + rest;
          assert multiset(RowsBetween(lo, hi)) == multiset{x} + multiset(rest);
        } else {
          assert RowsBetween(lo, hi) == rest;
        }
      }
    }

    /** `GetGuildEventsForGuildAsync` over every event the identity column has issued. */
    function GetGuildEventsForGuild(guildId: UInt64, filter: Option<EventStatus>): (r: seq<EventRecord>)
      reads this, guildEvents.Values
      ensures forall e :: e in r ==> Matches(e, guildId, filter)
      ensures NewestFirst(r)
      ensures forall id :: 1 <= id < nextEventId && id in guildEvents && Matches(guildEvents[id].Snapshot(), guildId, filter)
                ==> guildEvents[id].Snapshot() in r
      ensures forall e :: e in r ==> exists id :: 1 <= id < nextEventId && id in guildEvents && guildEvents[id].Snapshot() == e
      ensures EventsKeyedById() ==> forall e :: multiset(r)[e] <= 1
    {
      RowsBetweenAreDistinct(1, nextEventId);
      GuildEventsQuery(RowsBetween(1, nextEventId), guildId, filter)
    }
  }

  /** The two `Where` clauses: this guild, and the requested state if any. */
  predicate Matches(e: EventRecord, guildId: UInt64, filter: Option<EventStatus>)
  {
    e.guildId == guildId && (filter.None? || e.currentState == filter.value)
  }

  function Where(rows: seq<EventRecord>, guildId: UInt64, filter: Option<EventStatus>): (r: seq<EventRecord>)
    ensures forall e :: multiset(r)[e] == if Matches(e, guildId, filter) then multiset(rows)[e] else 0
  {
    if rows == [] then []
    else
      assert rows == [rows[0]] + rows[1..];
      (if Matches(rows[0], guildId, filter) then [rows[0]] else []) + Where(rows[1..], guildId, filter)
  }

  /** Ordered by CreatedAt, newest first. */
  predicate NewestFirst(s: seq<EventRecord>)
  {
    forall i, j :: 0 <= i < j < |s| ==> s[i].createdAt >= s[j].createdAt
  }

  /** No event of `s` is newer than `t`. */
  predicate NoneNewerThan(t: Timestamp, s: seq<EventRecord>)
  {
    forall k :: 0 <= k < |s| ==> s[k].createdAt <= t
  }

  /** Putting an event no older than any of `s` in front keeps the order newest first. */
  lemma PrependNewest(x: EventRecord, s: seq<EventRecord>)
    requires NewestFirst(s) && NoneNewerThan(x.createdAt, s)
    ensures NewestFirst([x] + s)
    ensures forall t :: x.createdAt <= t && NoneNewerThan(t, s) ==> NoneNewerThan(t, [x] + s)
  {
    var r := [x] + s;
    forall i, j | 0 <= i < j < |r|
      ensures r[i].createdAt >= r[j].createdAt
    {
      assert r[j] == s[j - 1];
      if i > 0 {
        assert r[i] == s[i - 1];
      }
    }
  }

  /** The head of a list ordered newest first is its newest event; the tail stays ordered,
      and whatever bounds the whole list bounds its head and its tail. */
  lemma HeadIsNewest(s: seq<EventRecord>)
    requires NewestFirst(s) && s != []
    ensures NewestFirst(s[1..]) && NoneNewerThan(s[0].createdAt, s[1..]) && NoneNewerThan(s[0].createdAt, s)
    ensures forall t :: NoneNewerThan(t, s) ==> s[0].createdAt <= t && NoneNewerThan(t, s[1..])
  {
    forall t | NoneNewerThan(t, s)
      ensures s[0].createdAt <= t && NoneNewerThan(t, s[1..])
    {
      forall k | 0 <= k < |s| - 1
        ensures s[1..][k].createdAt <= t
      {
        assert s[1..][k] == s[k + 1];
      }
    }
  }

  /** Places `e` before the first event that is not newer than it. */
  function InsertNewestFirst(e: EventRecord, s: seq<EventRecord>): (r: seq<EventRecord>)
    requires NewestFirst(s)
    ensures NewestFirst(r)
    ensures multiset(r) == multiset(s) + multiset{e}
    ensures forall t :: e.createdAt <= t && NoneNewerThan(t, s) ==> NoneNewerThan(t, r)
  {
    if s == [] then
      PrependNewest(e, s);
      [e]
    else if e.createdAt >= s[0].createdAt then
      HeadIsNewest(s);
      PrependNewest(e, s);
      [e] + s
    else
      HeadIsNewest(s);
      var rest := InsertNewestFirst(e, s[1..]);
      assert NoneNewerThan(s[0].createdAt, rest);
      PrependNewest(s[0], rest);
      assert s == [s[0]] + s[1..];
      [s[0]] + rest
  }

  /** `OrderByDescending(e => e.CreatedAt)`; among equal timestamps the input order is kept. */
  function SortNewestFirst(rows: seq<EventRecord>): (r: seq<EventRecord>)
    ensures NewestFirst(r)
    ensures multiset(r) == multiset(rows)
  {
    if rows == [] then []
    else
      assert rows == [rows[0]] + rows[1..];
      InsertNewestFirst(rows[0], SortNewestFirst(rows[1..]))
  }

  /** The query on a list of rows: exactly the matching rows, each as often as stored,
      newest first; with no filter that is every event of the guild. */
  function GuildEventsQuery(rows: seq<EventRecord>, guildId: UInt64, filter: Option<EventStatus>)
    : (r: seq<EventRecord>)
    ensures forall e :: e in r ==> e.guildId == guildId && (filter.Some? ==> e.currentState == filter.value)
    ensures forall e :: multiset(r)[e] == if Matches(e, guildId, filter) then multiset(rows)[e] else 0
    ensures NewestFirst(r)
    ensures forall e :: e in rows && Matches(e, guildId, filter) ==> e in r
    ensures filter.None? ==> forall e :: e in rows && e.guildId == guildId ==> e in r
    ensures forall e :: e in r ==> e in rows
    ensures (forall e :: multiset(rows)[e] <= 1) ==> forall e :: multiset(r)[e] <= 1
  {
    var matching := Where(rows, guildId, filter);
    var r := SortNewestFirst(matching);
    forall e | e in r
      ensures Matches(e, guildId, filter)
    {
      assert multiset(r)[e] > 0;
    }
    forall e | e in rows && Matches(e, guildId, filter)
      ensures e in r
    {
      assert multiset(r)[e] == multiset(rows)[e] > 0;
    }
    forall e | e in r
      ensures e in rows
    {
      assert multiset(rows)[e] == multiset(r)[e] > 0;
    }
    r
  }
}
