/**
 * `EntityCache` (custom_components/waterguard_linkbox/coordinator.py): per entity key, an
 * insertion-ordered dictionary from timestamp to reading, bounded by `maxEntries`. The ordered
 * dictionary is a sequence of readings, oldest first, with distinct timestamps.
 */
module Cache {
  import opened Wrappers

  datatype Reading = Reading(timestamp: int, value: real)

  predicate DistinctTimestamps(rs: seq<Reading>)
  {
    forall i, j :: 0 <= i < j < |rs| ==> rs[i].timestamp != rs[j].timestamp
  }

  /** Where timestamp `ts` sits in `rs`, if it does. */
  function IndexOf(rs: seq<Reading>, ts: int): (r: Option<nat>)
    ensures r.Some? ==> r.value < |rs| && rs[r.value].timestamp == ts
    ensures r.None? <==> forall i :: 0 <= i < |rs| ==> rs[i].timestamp != ts
  {
    if rs == [] then None
    else if rs[|rs| - 1].timestamp == ts then Some(|rs| - 1)
    else IndexOf(rs[..|rs| - 1], ts)
  }

  /** `od[ts] = value`: a timestamp already present keeps its place and takes the new value; a new one goes last. */
  function Put(rs: seq<Reading>, ts: int, value: real): seq<Reading>
  {
    match IndexOf(rs, ts)
    case Some(i) => rs[i := Reading(ts, value)]
    case None => rs + [Reading(ts, value)]
  }

  /** What the eviction loop leaves: the newest `max` readings, in arrival order. */
  function Trim(rs: seq<Reading>, max: nat): seq<Reading>
  {
    if |rs| > max then rs[|rs| - max..] else rs
  }

  /** The value stored under timestamp `ts`. */
  function ValueAt(rs: seq<Reading>, ts: int): Option<real>
  {
    match IndexOf(rs, ts)
    case Some(i) => Some(rs[i].value)
    case None => None
  }

  /** The newest reading, which `get_latest_reading` returns. */
  function Latest(rs: seq<Reading>): Option<Reading>
  {
    if rs == [] then None else Some(rs[|rs| - 1])
  }

  /** What `add_reading` leaves for the key. */
  function Added(rs: seq<Reading>, ts: int, value: real, max: nat): seq<Reading>
  {
    Trim(Put(rs, ts, value), max)
  }

  /** Storing under a present timestamp changes that entry's value only: length and order of timestamps stay. */
  lemma PutExistingInPlace(rs: seq<Reading>, ts: int, value: real, i: nat)
    requires DistinctTimestamps(rs) && i < |rs| && rs[i].timestamp == ts
    ensures var r := Put(rs, ts, value);
      && |r| == |rs| && r[i] == Reading(ts, value)
      && forall j :: 0 <= j < |rs| && j != i ==> r[j] == rs[j]
  {
    var k := IndexOf(rs, ts).value;
    assert k == i;
  }

  /** Storing under a new timestamp appends it. */
  lemma PutNewAppends(rs: seq<Reading>, ts: int, value: real)
    requires forall i :: 0 <= i < |rs| ==> rs[i].timestamp != ts
    ensures Put(rs, ts, value) == rs + [Reading(ts, value)]
  {
  }

  lemma PutKeepsDistinct(rs: seq<Reading>, ts: int, value: real)
    requires DistinctTimestamps(rs)
    ensures DistinctTimestamps(Put(rs, ts, value))
  {
  }

  /** Eviction removes from the oldest end only: what is left is a suffix, at most `max` long, and all of it when it fits. */
  lemma TrimKeepsNewest(rs: seq<Reading>, max: nat)
    ensures var t := Trim(rs, max);
      && |t| == (if |rs| > max then max else |rs|)
      && t == rs[|rs| - |t|..]
      && (|rs| <= max ==> t == rs)
  {
  }

  lemma TrimKeepsDistinct(rs: seq<Reading>, max: nat)
    requires DistinctTimestamps(rs)
    ensures DistinctTimestamps(Trim(rs, max))
  {
    var t := Trim(rs, max);
    var d := |rs| - |t|;
    forall i, j | 0 <= i < j < |t|
      ensures t[i].timestamp != t[j].timestamp
    {
      assert t[i] == rs[d + i] && t[j] == rs[d + j];
    }
  }

  /** An added entry stays within the bound and keeps its timestamps distinct. */
  lemma AddedValid(rs: seq<Reading>, ts: int, value: real, max: nat)
    requires DistinctTimestamps(rs)
    ensures |Added(rs, ts, value, max)| <= max && DistinctTimestamps(Added(rs, ts, value, max))
  {
    PutKeepsDistinct(rs, ts, value);
    TrimKeepsNewest(Put(rs, ts, value), max);
    TrimKeepsDistinct(Put(rs, ts, value), max);
  }

  /**
   * After adding a reading to a cache entry within its bound, the reading is the stored value of its
   * timestamp; when its timestamp was new it is also the latest reading.
   */
  lemma AddedHoldsReading(rs: seq<Reading>, ts: int, value: real, max: nat)
    requires DistinctTimestamps(rs) && |rs| <= max && max >= 1
    ensures ValueAt(Added(rs, ts, value, max), ts) == Some(value)
    ensures IndexOf(rs, ts).None? ==> Latest(Added(rs, ts, value, max)) == Some(Reading(ts, value))
    ensures |Added(rs, ts, value, max)| <= max
  {
    var p := Put(rs, ts, value);
    PutKeepsDistinct(rs, ts, value);
    match IndexOf(rs, ts)
    case Some(i) =>
      PutExistingInPlace(rs, ts, value, i);
      assert Trim(p, max) == p;
      FirstIndexIsOnly(p, ts, i);
    case None =>
      assert p == rs + [Reading(ts, value)];
      var t := Trim(p, max);
      TrimKeepsNewest(p, max);
      assert t[|t| - 1] == Reading(ts, value);
      TrimKeepsDistinct(p, max);
      FirstIndexIsOnly(t, ts, |t| - 1);
  }

  /** With distinct timestamps, IndexOf finds the one entry holding `ts`. */
  lemma FirstIndexIsOnly(rs: seq<Reading>, ts: int, i: nat)
    requires DistinctTimestamps(rs) && i < |rs| && rs[i].timestamp == ts
    ensures IndexOf(rs, ts) == Some(i)
  {
  }

  /** Taking the latest reading off and putting it back, as `get_latest_reading` does, restores the entry. */
  lemma PopPushRestores(rs: seq<Reading>)
    requires DistinctTimestamps(rs) && rs != []
    ensures var last := rs[|rs| - 1]; Put(rs[..|rs| - 1], last.timestamp, last.value) == rs
  {
    var last := rs[|rs| - 1];
    var front := rs[..|rs| - 1];
    assert forall i :: 0 <= i < |front| ==> front[i].timestamp != last.timestamp;
    PutNewAppends(front, last.timestamp, last.value);
    assert front + [last] == rs;
  }

  /** The eviction loop of `add_reading`: drop the oldest reading while there are more than `max`. */
  method Evict(full: seq<Reading>, max: nat) returns (rs: seq<Reading>)
    ensures rs == Trim(full, max)
  {
    rs := full;
    while |rs| > max
      invariant rs == full[|full| - |rs|..]
      invariant |full| > max ==> |rs| >= max
      invariant |full| <= max ==> rs == full
    {
      rs := rs[1..];
    }
  }

  /** The readings stored under `key` in a cache map; an absent key has none. */
  function Stored(cache: map<string, seq<Reading>>, key: string): seq<Reading>
  {
    if key in cache then cache[key] else []
  }

  /** Every entry of a cache map is within the bound and has distinct timestamps. */
  ghost predicate Bounded(cache: map<string, seq<Reading>>, max: nat)
  {
    forall k :: k in cache ==> |cache[k]| <= max && DistinctTimestamps(cache[k])
  }

  class EntityCache {
    const maxEntries: nat
    var cache: map<string, seq<Reading>>

    ghost predicate Valid()
      reads this
    {
      Bounded(cache, maxEntries)
    }

    constructor (maxEntries: nat)
      ensures Valid() && this.maxEntries == maxEntries && cache == map[]
    {
      this.maxEntries := maxEntries;
      cache := map[];
    }

    /** The readings of `key`, oldest first: `get_all_readings`. */
    function Readings(key: string): (r: seq<Reading>)
      reads this
      requires Valid()
      ensures |r| <= maxEntries && DistinctTimestamps(r)
    {
      Stored(cache, key)
    }

    /** `add_reading`: store the reading, then evict the oldest entries while the key holds too many. */
    method AddReading(key: string, value: real, timestamp: int)
      requires Valid()
      modifies this
      ensures Valid()
      ensures cache == old(cache)[key := Added(old(Readings(key)), timestamp, value, maxEntries)]
    {
      var rs := if key in cache then cache[key] else [];
      rs := Evict(Put(rs, timestamp, value), maxEntries);
      AddedValid(Readings(key), timestamp, value, maxEntries);
      cache := cache[key := rs];
    }

    /** `get_latest_reading`: the newest reading, taken off and put back, so the entry is unchanged. */
    method GetLatestReading(key: string) returns (value: Option<real>, timestamp: Option<int>)
      requires Valid()
      modifies this
      ensures Valid() && cache == old(cache)
      ensures value.Some? <==> HasEntityData(key)
      ensures timestamp.Some? <==> HasEntityData(key)
      ensures HasEntityData(key) ==> value == Some(Latest(cache[key]).value.value) && timestamp == Some(Latest(cache[key]).value.timestamp)
    {
      if key !in cache || |cache[key]| == 0 {
        return None, None;
      }
      var rs := cache[key];
      var last := rs[|rs| - 1];
      cache := cache[key := rs[..|rs| - 1]];
      PopPushRestores(rs);
      cache := cache[key := Put(cache[key], last.timestamp, last.value)];
      return Some(last.value), Some(last.timestamp);
    }

    /** `has_entity_data`. */
    predicate HasEntityData(key: string)
      reads this
    {
      key in cache && |cache[key]| > 0
    }

    /** `get_cache_stats`: the number of readings per key, each within the bound. */
    function Stats(): (r: map<string, nat>)
      reads this
      requires Valid()
      ensures r.Keys == cache.Keys
      ensures forall k :: k in r ==> r[k] == |cache[k]| <= maxEntries
    {
      map k | k in cache :: |cache[k]|
    }
  }
}
