/** Value types shared by every module: C#'s nullable values and the integer widths the bot uses. */
module Primitives {

  /** C#'s `T?`: a value that may be absent (`null`). */
  datatype Option<+T> = None | Some(value: T)

  /** A lookup by primary key (`FindAsync`, or `FirstOrDefault` on the key): the row, or nothing. */
  function Find<K, V>(table: map<K, V>, key: K): (r: Option<V>)
    ensures r.Some? <==> key in table
    ensures r.Some? ==> r.value == table[key]
  {
    if key in table then Some(table[key]) else None
  }

  /** Read after write: a lookup after storing a row under a key finds that row, and a
      lookup under any other key finds what it found before; after deleting the key the
      lookup finds nothing there and the same as before elsewhere. */
  lemma FindAfterStore<K, V>(table: map<K, V>, key: K, v: V, other: K)
    ensures Find(table[key := v], key) == Some(v)
    ensures other != key ==> Find(table[key := v], other) == Find(table, other)
    ensures Find(table - {key}, key) == None
    ensures other != key ==> Find(table - {key}, other) == Find(table, other)
  {
  }

  /** `ulong`: every Discord id (guild, channel, role, user, message) is a 64-bit unsigned integer. */
  type UInt64 = x: int | 0 <= x < 0x1_0000_0000_0000_0000

  /** `int`: event ids and the event's numeric policy settings. */
  type Int32 = x: int | -0x8000_0000 <= x < 0x8000_0000

  /** `byte`: the storage type of the loot enumerations. */
  type Byte = x: int | 0 <= x < 0x100

  /** A `DateTimeOffset`, as a tick count; the model only compares timestamps. */
  type Timestamp = int
}
