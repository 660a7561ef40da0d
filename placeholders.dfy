/**
  * Placeholder maps: the key/value maps handed to the templating routine.
  * Guava's ImmutableMap keeps insertion order, so a map is the sequence of
  * its entries in the order they were put.
  */
module Placeholders {

  datatype Option<+T> = None | Some(value: T)

  type Entry = (string, string)
  type PlaceholderMap = seq<Entry>

  /** The keys of the map, in insertion order. */
  function Keys(m: PlaceholderMap): seq<string>
  {
    seq(|m|, i requires 0 <= i < |m| => m[i].0)
  }

  /** The value bound to `key`, or None when the map has no such key. */
  function Lookup(m: PlaceholderMap, key: string): Option<string>
    decreases |m|
  {
    if |m| == 0 then None
    else if m[0].0 == key then Some(m[0].1)
    else Lookup(m[1..], key)
  }

  /** No key is put twice (ImmutableMap.Builder.build refuses duplicates). */
  predicate DistinctKeys(m: PlaceholderMap)
  {
    forall i, j | 0 <= i < j < |m| :: m[i].0 != m[j].0
  }

  lemma KeysAppend(a: PlaceholderMap, b: PlaceholderMap)
    ensures Keys(a + b) == Keys(a) + Keys(b)
  {
  }

  lemma KeysCons(m: PlaceholderMap)
    requires |m| > 0
    ensures Keys(m) == [m[0].0] + Keys(m[1..])
  {
  }

  /** A key is found exactly when it is among the keys. */
  lemma {:induction false} LookupPresent(m: PlaceholderMap, key: string)
    ensures Lookup(m, key).Some? <==> key in Keys(m)
    decreases |m|
  {
    if |m| > 0 {
      KeysCons(m);
      LookupPresent(m[1..], key);
    }
  }

  /** In a map without duplicate keys, each entry's key finds that entry's value. */
  lemma {:induction false} LookupAt(m: PlaceholderMap, i: int)
    requires DistinctKeys(m)
    requires 0 <= i < |m|
    ensures Lookup(m, m[i].0) == Some(m[i].1)
    decreases i
  {
    if i > 0 {
      assert m[0].0 != m[i].0;
      assert m[1..][i - 1] == m[i];
      LookupAt(m[1..], i - 1);
    }
  }

  /** Guava's ImmutableMap.Builder: entries are put one at a time and kept in order. */
  class MapBuilder {
    var entries: PlaceholderMap

    constructor ()
      ensures entries == []
    {
      entries := [];
    }

    /** Appends one entry and returns nothing (the source chains on the builder itself). */
    method Put(key: string, value: string)
      modifies this
      ensures entries == old(entries) + [(key, value)]
    {
      entries := entries + [(key, value)];
    }

    /** The built map; Guava throws on a duplicate key, so callers must not put one. */
    function Build(): PlaceholderMap
      reads this
      requires DistinctKeys(entries)
    {
      entries
    }
  }
}
