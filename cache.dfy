/**
 * The expiring key/value store of src/utils/cache.ts.
 *
 * The browser's `localStorage` is a map from storage keys to entries. The module
 * prefixes every key with the application sign, stores `{value, endTime}` and
 * expires entries lazily when they are read. JSON encoding is not modelled: an
 * entry is either a well-formed record or `Malformed` (text that does not parse).
 */
module Cache {
  import opened Wrappers

  /** The application sign, defined at build time as `APP_SIGN`. */
  const AppSign: string := "doladola"

  /** The `localStorage` key under which the cache keeps `key`. */
  function StorageKey(key: string): (k: string)
    ensures |k| == |AppSign| + 1 + |key|
    ensures k[..|AppSign| + 1] == AppSign + ":"
    ensures k[|AppSign| + 1..] == key
  {
    AppSign + ":" + key
  }

  /** Two cache keys never share a storage key. */
  lemma StorageKeyInjective(a: string, b: string)
    requires StorageKey(a) == StorageKey(b)
    ensures a == b
  {
    assert a == StorageKey(a)[|AppSign| + 1..];
    assert b == StorageKey(b)[|AppSign| + 1..];
  }

  /** What `localStorage` holds under one key. */
  datatype Entry<V> = Stored(value: V, endTime: Option<int>) | Malformed

  type Storage<V> = map<string, Entry<V>>

  /** `endTime` is truthy: present and not 0. */
  predicate HasDeadline(endTime: Option<int>) {
    endTime.Some? && endTime.value != 0
  }

  /** An entry that `getItem` treats as expired at time `now`. */
  predicate IsExpired<V>(e: Entry<V>, now: int) {
    e.Stored? && HasDeadline(e.endTime) && e.endTime.value <= now
  }

  /** The storage after `setItem(key, value, endTime)`. */
  function Put<V>(items: Storage<V>, key: string, value: V, endTime: Option<int>): (r: Storage<V>)
    ensures r.Keys == items.Keys + {StorageKey(key)}
    ensures r[StorageKey(key)] == Stored(value, endTime)
    ensures forall k :: k in items && k != StorageKey(key) ==> r[k] == items[k]
  {
    items[StorageKey(key) := Stored(value, endTime)]
  }

  /** The storage after `removeItem(key)`. */
  function Delete<V>(items: Storage<V>, key: string): (r: Storage<V>)
    ensures r.Keys == items.Keys - {StorageKey(key)}
    ensures forall k :: k in r ==> r[k] == items[k]
  {
    items - {StorageKey(key)}
  }

  /** What `getItem` returns together with the storage it leaves behind. */
  datatype Read<V> = Read(value: Option<V>, items: Storage<V>)

  /**
   * `getItem(key, defaultValue)` at time `now`: a key that is not there reads as
   * undefined (the default is not used); a malformed or expired entry is removed
   * and the default is returned; otherwise the stored value is returned.
   */
  function Get<V>(items: Storage<V>, key: string, defaultValue: Option<V>, now: int): (r: Read<V>)
    ensures r.items == items || r.items == Delete(items, key)
    ensures r.value.Some? ==>
              r.value == defaultValue ||
              (StorageKey(key) in items && items[StorageKey(key)].Stored? &&
               items[StorageKey(key)].value == r.value.value && r.items == items)
  {
    var k := StorageKey(key);
    if k !in items then Read(None, items)
    else match items[k]
      case Malformed => Read(defaultValue, Delete(items, key))
      case Stored(v, e) =>
        if HasDeadline(e) && e.value <= now then Read(defaultValue, Delete(items, key))
        else Read(Some(v), items)
  }

  /** A key that was never set, or has been removed, reads as undefined even with a default. */
  lemma GetMissing<V>(items: Storage<V>, key: string, defaultValue: Option<V>, now: int)
    requires StorageKey(key) !in items
    ensures Get(items, key, defaultValue, now) == Read(None, items)
  {
  }

  /** An expired entry is removed and the default is returned. */
  lemma GetExpired<V>(items: Storage<V>, key: string, defaultValue: Option<V>, now: int)
    requires StorageKey(key) in items && IsExpired(items[StorageKey(key)], now)
    ensures Get(items, key, defaultValue, now) == Read(defaultValue, Delete(items, key))
  {
  }

  /** An entry that does not parse is removed and the default is returned. */
  lemma GetMalformed<V>(items: Storage<V>, key: string, defaultValue: Option<V>, now: int)
    requires StorageKey(key) in items && items[StorageKey(key)] == Malformed
    ensures Get(items, key, defaultValue, now) == Read(defaultValue, Delete(items, key))
  {
  }

  /** Round trip: a value set without a deadline, or with one still ahead, reads back unchanged. */
  lemma PutThenGet<V>(items: Storage<V>, key: string, value: V, endTime: Option<int>,
                      defaultValue: Option<V>, now: int)
    requires !HasDeadline(endTime) || now < endTime.value
    ensures Get(Put(items, key, value, endTime), key, defaultValue, now)
         == Read(Some(value), Put(items, key, value, endTime))
  {
  }

  /** Setting one key changes neither what another key reads nor what that read removes. */
  lemma PutOtherKey<V>(items: Storage<V>, key: string, value: V, endTime: Option<int>,
                       other: string, defaultValue: Option<V>, now: int)
    requires other != key
    ensures Get(Put(items, key, value, endTime), other, defaultValue, now).value
         == Get(items, other, defaultValue, now).value
    ensures Get(Put(items, key, value, endTime), other, defaultValue, now).items
         == Put(Get(items, other, defaultValue, now).items, key, value, endTime)
  {
    if StorageKey(other) == StorageKey(key) {
      StorageKeyInjective(other, key);
    }
    var k := StorageKey(other);
    var r := Get(items, other, defaultValue, now);
    var p := Put(items, key, value, endTime);
    if k in items && (items[k].Malformed? || IsExpired(items[k], now)) {
      assert Get(p, other, defaultValue, now).items == Delete(p, other);
      assert Delete(p, other) == Put(Delete(items, other), key, value, endTime);
    }
  }

  /** After `removeItem(key)`, reading `key` gives undefined. */
  lemma DeleteThenGet<V>(items: Storage<V>, key: string, defaultValue: Option<V>, now: int)
    ensures Get(Delete(items, key), key, defaultValue, now) == Read(None, Delete(items, key))
  {
  }

  /** Removing a key twice is the same as removing it once. */
  lemma DeleteIdempotent<V>(items: Storage<V>, key: string)
    ensures Delete(Delete(items, key), key) == Delete(items, key)
  {
  }

  /** The global `localStorage`, seen through the cache's three operations. */
  class Store<V> {
    var items: Storage<V>

    constructor (initial: Storage<V>)
      ensures items == initial
    {
      items := initial;
    }

    /** `removeItem(key)`. */
    method RemoveItem(key: string)
      modifies this
      ensures items == Delete(old(items), key)
    {
      items := items - {StorageKey(key)};
    }

    /** `setItem(key, value, endTime)`. */
    method SetItem(key: string, value: V, endTime: Option<int>)
      modifies this
      ensures items == Put(old(items), key, value, endTime)
    {
      items := items[StorageKey(key) := Stored(value, endTime)];
    }

    /** `getItem(key, defaultValue)`, with the clock reading `now` passed in. */
    method GetItem(key: string, defaultValue: Option<V>, now: int) returns (r: Option<V>)
      modifies this
      ensures Read(r, items) == Get(old(items), key, defaultValue, now)
    {
      var k := StorageKey(key);
      if k !in items {
        return None;
      }
      match items[k]
      case Malformed =>
        RemoveItem(key);
        r := defaultValue;
      case Stored(v, e) =>
        if e.Some? && e.value != 0 && e.value <= now {
          RemoveItem(key);
          r := defaultValue;
        } else {
          r := Some(v);
        }
    }
  }
}
