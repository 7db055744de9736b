/**
 * A fetch-or-create cache: a present key answers with its entry, an absent
 * key gets the creator's value stored under it. The locking that makes it
 * safe across threads is not part of this model, and neither is the second
 * look-up under the write lock, which misses whenever no other thread runs.
 */
module ReaderWriterCache {

  /** The entry a fetch answers with: the existing one, or the newly created one. */
  function Fetched<K, V>(cache: map<K, V>, key: K, created: V): (r: V)
    ensures key in cache ==> r == cache[key]
    ensures key !in cache ==> r == created
  {
    if key in cache then cache[key] else created
  }

  /** The cache after a fetch: unchanged for a present key, extended by the new entry otherwise. */
  function AfterFetch<K, V>(cache: map<K, V>, key: K, created: V): (r: map<K, V>)
    ensures key in r && r[key] == Fetched(cache, key, created)
    ensures forall k :: k in cache ==> k in r && r[k] == cache[k]
    ensures forall k :: k in r && k != key ==> k in cache
  {
    if key in cache then cache else cache[key := created]
  }

  /** A second fetch of the same key returns the first one's entry and changes nothing, whatever it would create. */
  lemma FetchIsIdempotent<K, V>(cache: map<K, V>, key: K, created: V, createdAgain: V)
    ensures Fetched(AfterFetch(cache, key, created), key, createdAgain) == Fetched(cache, key, created)
    ensures AfterFetch(AfterFetch(cache, key, created), key, createdAgain) == AfterFetch(cache, key, created)
  {
  }

  class ReaderWriterCache<K(==), V> {
    var cache: map<K, V>
    /** How many times a creator has run. */
    ghost var creations: nat

    constructor()
      ensures cache == map[] && creations == 0
    {
      cache := map[];
      creations := 0;
    }

    /**
     * The entry for the key; an absent key runs the creator once and stores
     * its value. Existing entries are never overwritten and no other key
     * changes.
     */
    method FetchOrCreateItem(key: K, creator: () -> V) returns (r: V)
      modifies this
      ensures r == Fetched(old(cache), key, creator())
      ensures cache == AfterFetch(old(cache), key, creator())
      ensures creations == old(creations) + (if key in old(cache) then 0 else 1)
    {
      if key in cache {
        return cache[key];
      }
      var newEntry := creator();
      creations := creations + 1;
      cache := cache[key := newEntry];
      r := newEntry;
    }
  }
}
