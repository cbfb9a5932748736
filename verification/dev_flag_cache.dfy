/** The `dev.flipswitch` flag cache: a map from flag key to value with a
    time-to-live that is checked lazily, on read, and entries dropped when
    the stream reports a change.

    The clock is a parameter in milliseconds: `set` stamps the entry with the
    time of the write and `get` compares the entry's age with the TTL.
 */
module DevFlagCache {
  import opened Wrappers
  import DevEvents

  const DefaultTtlMs: int := 60000

  datatype Entry<V> = Entry(value: V, writtenAt: nat)

  datatype Cache<V> = Cache(entries: map<string, Entry<V>>, ttlMs: int)

  /** `new FlagCache(ttl)`. */
  function New<V>(ttlMs: int): (c: Cache<V>)
    ensures c.entries == map[] && c.ttlMs == ttlMs
  {
    Cache(map[], ttlMs)
  }

  /** `new FlagCache()`: a 60-second TTL. */
  function NewDefault<V>(): (c: Cache<V>)
    ensures c.entries == map[] && c.ttlMs == 60000
  {
    New(DefaultTtlMs)
  }

  /** An entry is expired once its age is strictly greater than the TTL. */
  function IsExpired<V>(e: Entry<V>, ttlMs: int, now: nat): (b: bool)
    ensures ttlMs >= 0 && now <= e.writtenAt ==> !b
    ensures ttlMs < 0 && e.writtenAt <= now ==> b
    ensures b && ttlMs >= 0 ==> e.writtenAt < now
  {
    now - e.writtenAt > ttlMs
  }

  datatype Read<V> = Read(cache: Cache<V>, value: Option<V>)

  /** `get(key)`: the stored value if present and fresh; an expired entry
      reads as absent and is removed by the read. */
  function Get<V>(c: Cache<V>, key: string, now: nat): (r: Read<V>)
    ensures r.value.Some? <==> key in c.entries && !IsExpired(c.entries[key], c.ttlMs, now)
    ensures r.value.Some? ==> r.value.value == c.entries[key].value
    ensures r.cache.ttlMs == c.ttlMs
    ensures r.cache.entries.Keys <= c.entries.Keys
    ensures forall k :: k in c.entries && k != key ==> k in r.cache.entries && r.cache.entries[k] == c.entries[k]
    ensures key in r.cache.entries <==> r.value.Some?
  {
    if key !in c.entries then Read(c, None)
    else if IsExpired(c.entries[key], c.ttlMs, now) then Read(c.(entries := c.entries - {key}), None)
    else Read(c, Some(c.entries[key].value))
  }

  /** `set(key, value)`: stores or overwrites, restarting the entry's age. */
  function Set<V>(c: Cache<V>, key: string, value: V, now: nat): (r: Cache<V>)
    ensures key in r.entries && r.entries[key] == Entry(value, now)
    ensures r.entries.Keys == c.entries.Keys + {key}
    ensures forall k :: k in c.entries && k != key ==> r.entries[k] == c.entries[k]
    ensures r.ttlMs == c.ttlMs
  {
    c.(entries := c.entries[key := Entry(value, now)])
  }

  /** `invalidate(key)`: removes that key only. */
  function Invalidate<V>(c: Cache<V>, key: string): (r: Cache<V>)
    ensures key !in r.entries
    ensures r.entries.Keys == c.entries.Keys - {key}
    ensures forall k :: k in r.entries ==> r.entries[k] == c.entries[k]
    ensures r.ttlMs == c.ttlMs
  {
    c.(entries := c.entries - {key})
  }

  /** `invalidateAll()` and `clear()`: both empty the map. */
  function InvalidateAll<V>(c: Cache<V>): (r: Cache<V>)
    ensures Size(r) == 0 && r.ttlMs == c.ttlMs
  {
    c.(entries := map[])
  }

  function Clear<V>(c: Cache<V>): (r: Cache<V>)
    ensures Size(r) == 0 && r.ttlMs == c.ttlMs
  {
    InvalidateAll(c)
  }

  /** `size()`: the number of stored entries, expired ones included. */
  function Size<V>(c: Cache<V>): (n: nat)
    ensures n == 0 <==> c.entries == map[]
    ensures forall k :: k in c.entries ==> n >= 1
  {
    |c.entries.Keys|
  }

  /** `handleFlagChange(event)`: one key, or everything when the event names
      no flag. */
  function HandleFlagChange<V>(c: Cache<V>, e: DevEvents.FlagChangeEvent): (r: Cache<V>)
    ensures e.flagKey.None? ==> r.entries == map[]
    ensures e.flagKey.Some? ==> r.entries.Keys == c.entries.Keys - {e.flagKey.value}
    ensures forall k :: k in r.entries ==> k in c.entries && r.entries[k] == c.entries[k]
    ensures r.ttlMs == c.ttlMs
  {
    if e.flagKey.Some? then Invalidate(c, e.flagKey.value) else InvalidateAll(c)
  }

  // ---------------------------------------------------------------------
  // Properties
  // ---------------------------------------------------------------------

  /** A read after a write returns the written value exactly while the
      entry's age is at most the TTL. */
  lemma GetAfterSet<V>(c: Cache<V>, key: string, value: V, written: nat, now: nat)
    ensures Get(Set(c, key, value, written), key, now).value.Some?
      <==> now - written <= c.ttlMs
    ensures now - written <= c.ttlMs ==>
      Get(Set(c, key, value, written), key, now).value == Some(value)
  {
  }

  /** An entry read exactly at its TTL is still fresh; one millisecond later
      it is gone, and the read removes it. */
  lemma ExpiryBoundary<V>(c: Cache<V>, key: string, value: V, written: nat)
    requires c.ttlMs >= 0
    ensures Get(Set(c, key, value, written), key, written + c.ttlMs).value == Some(value)
    ensures Get(Set(c, key, value, written), key, written + c.ttlMs + 1).value.None?
    ensures key !in Get(Set(c, key, value, written), key, written + c.ttlMs + 1).cache.entries
  {
  }

  /** A key never written reads as absent and the read changes nothing. */
  lemma GetAbsent<V>(c: Cache<V>, key: string, now: nat)
    requires key !in c.entries
    ensures Get(c, key, now) == Read(c, None)
  {
  }

  /** Invalidating one key leaves every other read as it was. */
  lemma InvalidateKeepsOthers<V>(c: Cache<V>, key: string, other: string, now: nat)
    requires other != key
    ensures Get(Invalidate(c, key), key, now).value.None?
    ensures Get(Invalidate(c, key), other, now).value == Get(c, other, now).value
  {
  }

  /** After a full invalidation every read is absent. */
  lemma InvalidateAllEmpties<V>(c: Cache<V>, key: string, now: nat)
    ensures Get(InvalidateAll(c), key, now).value.None?
    ensures Get(Clear(c), key, now).value.None?
  {
  }

  /** A second write replaces the first completely. */
  lemma SetOverwrites<V>(c: Cache<V>, key: string, v1: V, t1: nat, v2: V, t2: nat)
    ensures Set(Set(c, key, v1, t1), key, v2, t2) == Set(c, key, v2, t2)
  {
  }

  /** A change event for one flag hides exactly that flag; one without a key
      hides all. */
  lemma FlagChangeReads<V>(c: Cache<V>, e: DevEvents.FlagChangeEvent, key: string, now: nat)
    ensures e.flagKey == Some(key) || e.flagKey.None? ==>
      Get(HandleFlagChange(c, e), key, now).value.None?
    ensures e.flagKey.Some? && e.flagKey.value != key ==>
      Get(HandleFlagChange(c, e), key, now).value == Get(c, key, now).value
  {
  }
}
