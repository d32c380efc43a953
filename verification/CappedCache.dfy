/**
 Bounded caches whose entries know when they were last touched: insertion evicts the oldest entry
 once the cap is reached, hits slide the instant, cleanup drops expired entries. Under a strictly
 increasing clock this is least-recently-used replacement, proved against a list of the distinct
 keys in order of recency.
 */
module CappedCache {
  import opened ByteStrings
  import opened CacheTtls

  datatype Entry<V> = Entry(value: V, at: int)

  type Cache<V> = map<string, Entry<V>>

  predicate Oldest<V>(c: Cache<V>, key: string) {
    key in c && forall k :: k in c ==> c[key].at <= c[k].at
  }

  predicate Fresh<V>(c: Cache<V>, key: string, now: int, ttl: int) {
    key in c && now - c[key].at < ttl
  }

  /** Insertion under a cap. Which of several equally old entries goes is not determined. */
  ghost predicate Inserted<V>(before: Cache<V>, key: string, entry: Entry<V>, maxEntries: nat, after: Cache<V>) {
    if maxEntries == 0 then after == before
    else if key in before || |before| < maxEntries then after == before[key := entry]
    else exists victim :: Oldest(before, victim) && after == (before - {victim})[key := entry]
  }

  /** A fresh entry is found and slid to now; an expired one is left where it is. */
  function Slid<V>(c: Cache<V>, key: string, now: int): Cache<V> {
    if Fresh(c, key, now, CACHE_TTL) then c[key := Entry(c[key].value, now)] else c
  }

  function Kept<V>(c: Cache<V>, now: int, ttl: int): (r: Cache<V>)
    ensures r.Keys <= c.Keys
  {
    map k | k in c && Fresh(c, k, now, ttl) :: c[k]
  }

  lemma SubCacheSize<V>(c: Cache<V>, d: Cache<V>)
    requires d.Keys <= c.Keys
    ensures |d| <= |c|
  {
    KeySetSize(c.Keys, d.Keys);
    assert |d.Keys| == |d| && |c.Keys| == |c|;
  }

  lemma {:induction false} KeySetSize(all: set<string>, some: set<string>)
    requires some <= all
    ensures |some| <= |all|
    decreases some
  {
    if some != {} {
      var k :| k in some;
      KeySetSize(all - {k}, some - {k});
    }
  }

  /** No insertion takes a cache over its cap, and an insertion always caches its key. */
  lemma InsertStaysCapped<V>(before: Cache<V>, key: string, entry: Entry<V>, maxEntries: nat, after: Cache<V>)
    requires Inserted(before, key, entry, maxEntries, after)
    ensures |before| <= maxEntries ==> |after| <= maxEntries
    ensures maxEntries > 0 ==> key in after && after[key] == entry
    ensures forall k :: k in after && k != key ==> k in before && after[k] == before[k]
  {
    if maxEntries > 0 && key !in before && |before| >= maxEntries {
      var victim :| Oldest(before, victim) && after == (before - {victim})[key := entry];
      assert after.Keys == before.Keys - {victim} + {key};
    } else if maxEntries > 0 {
      assert after.Keys == before.Keys + {key};
    }
  }

  // ---- Runs ----

  datatype Op<V> =
    | Access(key: string, now: int, loaded: Option<V>)
    | Cleanup(now: int)
    | Invalidate(keys: set<string>)

  /** A lookup that hits slides; one that misses inserts what the database returned, if anything. */
  ghost predicate Step<V>(c: Cache<V>, op: Op<V>, maxEntries: nat, c': Cache<V>) {
    match op
    case Access(key, now, loaded) =>
      if Fresh(c, key, now, CACHE_TTL) then c' == Slid(c, key, now)
      else if loaded.Some? then Inserted(c, key, Entry(loaded.value, now), maxEntries, c')
      else c' == c
    case Cleanup(now) => c' == Kept(c, now, CleanupTtl(|c|, maxEntries))
    case Invalidate(keys) => c' == c - keys
  }

  datatype Touch = Touch(key: string, at: int)

  /** The touch an operation is, if it is one: a hit or an insertion. */
  function Touched<V>(c: Cache<V>, op: Op<V>): seq<Touch> {
    match op
    case Access(key, now, loaded) =>
      if Fresh(c, key, now, CACHE_TTL) || loaded.Some? then [Touch(key, now)] else []
    case _ => []
  }

  /** `c` is what some run of `ops` from an empty cache leaves, with `touches` its touches. */
  ghost predicate Reached<V(!new)>(ops: seq<Op<V>>, maxEntries: nat, c: Cache<V>, touches: seq<Touch>)
    decreases |ops|
  {
    if ops == [] then c == map[] && touches == []
    else
      var front, op := ops[..|ops| - 1], ops[|ops| - 1];
      exists before: Cache<V>, earlier ::
        && Reached(front, maxEntries, before, earlier)
        && Step(before, op, maxEntries, c)
        && touches == earlier + Touched(before, op)
  }

  /** In every run of every operation, invalidation included, the cap holds. */
  lemma {:induction false} CapHolds<V(!new)>(ops: seq<Op<V>>, maxEntries: nat, c: Cache<V>, touches: seq<Touch>)
    requires Reached(ops, maxEntries, c, touches)
    ensures |c| <= maxEntries
    decreases |ops|
  {
    if ops != [] {
      var front, op := ops[..|ops| - 1], ops[|ops| - 1];
      var before: Cache<V>, earlier :|
        Reached(front, maxEntries, before, earlier) && Step(before, op, maxEntries, c) && touches == earlier + Touched(before, op);
      CapHolds(front, maxEntries, before, earlier);
      match op
      case Access(key, now, loaded) =>
        if Fresh(before, key, now, CACHE_TTL) {
          SubCacheSize(before, c);
        } else if loaded.Some? {
          InsertStaysCapped(before, key, Entry(loaded.value, now), maxEntries, c);
        }
      case _ => SubCacheSize(before, c);
    }
  }

  // ---- Least recently used ----

  ghost predicate ClockIncreases(touches: seq<Touch>) {
    forall i, j :: 0 <= i < j < |touches| ==> touches[i].at < touches[j].at
  }

  /** When every key was last touched. */
  function LastTouch(touches: seq<Touch>): map<string, int> {
    if touches == [] then map[]
    else
      var t := touches[|touches| - 1];
      LastTouch(touches[..|touches| - 1])[t.key := t.at]
  }

  predicate Later(last: map<string, int>, k: string, j: string) {
    k in last && j in last && last[k] > last[j]
  }

  /** `keys` are the `n` most recently touched distinct keys. */
  ghost predicate MostRecent(last: map<string, int>, keys: set<string>, n: nat) {
    && keys <= last.Keys && |keys| == n
    && forall k, j :: k in keys && j in last && j !in keys ==> Later(last, k, j)
  }

  ghost predicate DistinctBefore(last: map<string, int>, now: int) {
    && (forall k :: k in last ==> last[k] < now)
    && (forall k, j :: k in last && j in last && last[k] == last[j] ==> k == j)
  }

  lemma SameSizeSubset(a: set<string>, b: set<string>)
    requires a <= b && |a| == |b|
    ensures a == b
  {
    forall k | k in b
      ensures k in a
    {
      if k !in a {
        assert |b - {k}| == |b| - 1;
        KeySetSize(b - {k}, a);
        assert false;
      }
    }
  }

  /** There is only one such set: `MostRecent` names a result, not a choice. */
  lemma MostRecentIsUnique(last: map<string, int>, a: set<string>, b: set<string>, n: nat)
    requires MostRecent(last, a, n) && MostRecent(last, b, n)
    ensures a == b
  {
    if a <= b {
      SameSizeSubset(a, b);
    } else {
      var k :| k in a && k !in b;
      forall j | j in b
        ensures j in a
      {
        assert j in a || (Later(last, k, j) && Later(last, j, k));
      }
      SameSizeSubset(b, a);
    }
  }

  /** The cache holds exactly its own size's worth of the most recently touched keys. */
  ghost predicate Recent<V>(c: Cache<V>, last: map<string, int>, maxEntries: nat) {
    && |c| <= maxEntries
    && MostRecent(last, c.Keys, |c|)
    && forall k :: k in c ==> c[k].at == last[k]
  }

  lemma TouchStaysRecent<V>(c: Cache<V>, key: string, entry: Entry<V>, maxEntries: nat, last: map<string, int>)
    requires Recent(c, last, maxEntries) && DistinctBefore(last, entry.at) && key in c
    ensures Recent(c[key := entry], last[key := entry.at], maxEntries)
    ensures |c[key := entry]| == |c| && last[key := entry.at].Keys == last.Keys
  {
    assert c[key := entry].Keys == c.Keys;
    assert |c.Keys| == |c| && |c[key := entry].Keys| == |c[key := entry]|;
  }

  lemma GrowthStaysMostRecent(keys: set<string>, key: string, now: int, n: nat, last: map<string, int>)
    requires MostRecent(last, keys, n) && DistinctBefore(last, now) && key !in keys
    ensures MostRecent(last[key := now], keys + {key}, n + 1)
  {
    var last' := last[key := now];
    forall k, j | k in keys + {key} && j in last' && j !in keys + {key}
      ensures Later(last', k, j)
    {
      assert k == key || Later(last, k, j);
    }
  }

  lemma GrowthStaysRecent<V>(c: Cache<V>, key: string, entry: Entry<V>, maxEntries: nat, last: map<string, int>)
    requires Recent(c, last, maxEntries) && DistinctBefore(last, entry.at) && key !in c && |c| < maxEntries
    ensures Recent(c[key := entry], last[key := entry.at], maxEntries)
    ensures |c[key := entry]| == |c| + 1
  {
    GrowthStaysMostRecent(c.Keys, key, entry.at, |c|, last);
    assert c[key := entry].Keys == c.Keys + {key};
    assert |c[key := entry].Keys| == |c[key := entry]|;
  }

  lemma EvictionStaysRecent<V>(c: Cache<V>, victim: string, last: map<string, int>, maxEntries: nat, now: int)
    requires Recent(c, last, maxEntries) && DistinctBefore(last, now) && Oldest(c, victim)
    ensures Recent(c - {victim}, last, maxEntries)
    ensures |c - {victim}| == |c| - 1
  {
    var d := c - {victim};
    assert d.Keys == c.Keys - {victim};
    assert |c.Keys| == |c| && |d.Keys| == |d|;
  }

  lemma CleanupStaysRecent<V>(c: Cache<V>, now: int, ttl: int, last: map<string, int>, maxEntries: nat)
    requires Recent(c, last, maxEntries)
    ensures Recent(Kept(c, now, ttl), last, maxEntries)
  {
    var d := Kept(c, now, ttl);
    SubCacheSize(c, d);
    assert |d.Keys| == |d|;
  }

  function Min(a: nat, b: nat): nat {
    if a < b then a else b
  }

  /** With nothing but evictions the cache is as full as the touched keys allow. */
  ghost predicate Full<V>(c: Cache<V>, last: map<string, int>, maxEntries: nat) {
    |c| == Min(maxEntries, |last|)
  }

  lemma KeysAfterTouch(last: map<string, int>, key: string, now: int)
    ensures |last[key := now]| == if key in last then |last| else |last| + 1
  {
    assert last[key := now].Keys == last.Keys + {key};
    assert |last.Keys| == |last| && |last[key := now].Keys| == |last[key := now]|;
  }

  /** A cache with room left that is as full as it can be holds every touched key. */
  lemma FullWithRoomHoldsAll<V>(c: Cache<V>, last: map<string, int>, maxEntries: nat)
    requires Recent(c, last, maxEntries) && Full(c, last, maxEntries) && |c| < maxEntries
    ensures c.Keys == last.Keys
  {
    assert |c.Keys| == |c| && |last.Keys| == |last|;
    SameSizeSubset(c.Keys, last.Keys);
  }

  lemma RoomyInsertStaysRecent<V>(c: Cache<V>, key: string, entry: Entry<V>, maxEntries: nat, last: map<string, int>)
    requires Recent(c, last, maxEntries) && DistinctBefore(last, entry.at) && key !in c && |c| < maxEntries
    ensures Recent(c[key := entry], last[key := entry.at], maxEntries)
    ensures Full(c, last, maxEntries) ==> Full(c[key := entry], last[key := entry.at], maxEntries)
  {
    GrowthStaysRecent(c, key, entry, maxEntries, last);
    KeysAfterTouch(last, key, entry.at);
    if Full(c, last, maxEntries) {
      FullWithRoomHoldsAll(c, last, maxEntries);
    }
  }

  lemma EvictingInsertStaysRecent<V>(
    c: Cache<V>, key: string, entry: Entry<V>, maxEntries: nat, victim: string, last: map<string, int>)
    requires Recent(c, last, maxEntries) && DistinctBefore(last, entry.at) && key !in c
    requires maxEntries > 0 && |c| >= maxEntries && Oldest(c, victim)
    ensures Recent((c - {victim})[key := entry], last[key := entry.at], maxEntries)
    ensures Full(c, last, maxEntries) ==> Full((c - {victim})[key := entry], last[key := entry.at], maxEntries)
  {
    EvictionStaysRecent(c, victim, last, maxEntries, entry.at);
    GrowthStaysRecent(c - {victim}, key, entry, maxEntries, last);
    KeysAfterTouch(last, key, entry.at);
  }

  lemma InsertStaysRecent<V>(c: Cache<V>, key: string, entry: Entry<V>, maxEntries: nat, c': Cache<V>, last: map<string, int>)
    requires Recent(c, last, maxEntries) && DistinctBefore(last, entry.at)
    requires Inserted(c, key, entry, maxEntries, c')
    ensures Recent(c', last[key := entry.at], maxEntries)
    ensures Full(c, last, maxEntries) ==> Full(c', last[key := entry.at], maxEntries)
  {
    if maxEntries == 0 {
      EmptyStaysRecent(c, last, key, entry.at);
    } else if key in c {
      TouchStaysRecent(c, key, entry, maxEntries, last);
      KeysAfterTouch(last, key, entry.at);
    } else if |c| < maxEntries {
      RoomyInsertStaysRecent(c, key, entry, maxEntries, last);
    } else {
      var victim :| Oldest(c, victim) && c' == (c - {victim})[key := entry];
      EvictingInsertStaysRecent(c, key, entry, maxEntries, victim, last);
    }
  }

  lemma EmptyStaysRecent<V>(c: Cache<V>, last: map<string, int>, key: string, now: int)
    requires Recent(c, last, 0)
    ensures Recent(c, last[key := now], 0) && Full(c, last[key := now], 0)
  {
    assert |c.Keys| == 0;
  }

  lemma {:induction false} LastTouchDistinct(touches: seq<Touch>, now: int)
    requires ClockIncreases(touches) && (forall t :: t in touches ==> t.at < now)
    ensures DistinctBefore(LastTouch(touches), now)
    decreases |touches|
  {
    if touches != [] {
      var t := touches[|touches| - 1];
      LastTouchDistinct(touches[..|touches| - 1], t.at);
    }
  }

  /** What one operation does to recency, when the clock has moved past every touch. */
  lemma StepStaysRecent<V>(c: Cache<V>, op: Op<V>, maxEntries: nat, c': Cache<V>, touches: seq<Touch>)
    requires !op.Invalidate? && Step(c, op, maxEntries, c')
    requires ClockIncreases(touches + Touched(c, op))
    requires Recent(c, LastTouch(touches), maxEntries)
    ensures Recent(c', LastTouch(touches + Touched(c, op)), maxEntries)
    ensures op.Access? && Full(c, LastTouch(touches), maxEntries) ==>
              Full(c', LastTouch(touches + Touched(c, op)), maxEntries)
  {
    var last := LastTouch(touches);
    match op
    case Cleanup(now) => CleanupStaysRecent(c, now, CleanupTtl(|c|, maxEntries), last, maxEntries);
      assert touches + Touched(c, op) == touches;
    case Access(key, now, loaded) =>
      if Touched(c, op) == [] {
        assert touches + Touched(c, op) == touches;
      } else {
        var after := touches + [Touch(key, now)];
        assert after[..|after| - 1] == touches && after[|after| - 1] == Touch(key, now);
        assert forall i :: 0 <= i < |touches| ==> after[i] == touches[i];
        LastTouchDistinct(touches, now);
        if Fresh(c, key, now, CACHE_TTL) {
          TouchStaysRecent(c, key, Entry(c[key].value, now), maxEntries, last);
        } else {
          InsertStaysRecent(c, key, Entry(loaded.value, now), maxEntries, c', last);
        }
      }
  }

  /**
   Least recently used: over any run of lookups and cleanups under a strictly increasing clock, the
   cached keys are the most recently touched ones, as many as the cache has entries; without
   cleanups that is as many as the cap and the touched keys allow.
   */
  lemma {:induction false} RefinesLru<V(!new)>(ops: seq<Op<V>>, maxEntries: nat, c: Cache<V>, touches: seq<Touch>)
    requires Reached(ops, maxEntries, c, touches) && ClockIncreases(touches)
    requires forall op :: op in ops ==> !op.Invalidate?
    ensures Recent(c, LastTouch(touches), maxEntries)
    ensures (forall op :: op in ops ==> op.Access?) ==> Full(c, LastTouch(touches), maxEntries)
    decreases |ops|
  {
    if ops != [] {
      var front, op := ops[..|ops| - 1], ops[|ops| - 1];
      var before: Cache<V>, earlier :|
        Reached(front, maxEntries, before, earlier) && Step(before, op, maxEntries, c) && touches == earlier + Touched(before, op);
      assert forall i :: 0 <= i < |earlier| ==> touches[i] == earlier[i];
      RefinesLru(front, maxEntries, before, earlier);
      StepStaysRecent(before, op, maxEntries, c, earlier);
    }
  }

  /** Two runs with the same touches and no cleanup cache the same keys, whatever ties or values. */
  lemma SameTouchesSameKeys<V(!new)>(
    a: seq<Op<V>>, b: seq<Op<V>>, maxEntries: nat, c: Cache<V>, d: Cache<V>, touches: seq<Touch>)
    requires Reached(a, maxEntries, c, touches) && Reached(b, maxEntries, d, touches) && ClockIncreases(touches)
    requires forall op :: op in a + b ==> op.Access?
    ensures c.Keys == d.Keys
  {
    assert forall op :: op in a ==> op in a + b;
    assert forall op :: op in b ==> op in a + b;
    RefinesLru(a, maxEntries, c, touches);
    RefinesLru(b, maxEntries, d, touches);
    MostRecentIsUnique(LastTouch(touches), c.Keys, d.Keys, |c|);
  }

  // ---- The code ----

  class CappedMap<V> {
    var entries: Cache<V>

    constructor ()
      ensures entries == map[]
    {
      entries := map[];
    }

    method OldestKey() returns (victim: string)
      requires |entries| > 0
      ensures Oldest(entries, victim)
    {
      assert |entries.Keys| == |entries|;
      victim :| victim in entries;
      var rest := entries.Keys - {victim};
      while rest != {}
        invariant rest <= entries.Keys && victim in entries
        invariant forall k :: k in entries && k !in rest ==> entries[victim].at <= entries[k].at
        decreases rest
      {
        var k :| k in rest;
        if entries[k].at < entries[victim].at {
          victim := k;
        }
        rest := rest - {k};
      }
    }

    method InsertCapped(key: string, entry: Entry<V>, maxEntries: nat)
      modifies this
      ensures Inserted(old(entries), key, entry, maxEntries, entries)
      ensures |old(entries)| <= maxEntries ==> |entries| <= maxEntries
      ensures maxEntries > 0 ==> key in entries && entries[key] == entry
    {
      ghost var before := entries;
      if maxEntries == 0 {
        return;
      }
      if key in entries {
        entries := entries[key := entry];
      } else {
        if |entries| >= maxEntries {
          var oldest := OldestKey();
          entries := entries - {oldest};
        }
        entries := entries[key := entry];
      }
      InsertStaysCapped(before, key, entry, maxEntries, entries);
    }

    method GetSliding(key: string, now: int) returns (found: Option<V>)
      modifies this
      ensures entries == Slid(old(entries), key, now)
      ensures found == if Fresh(old(entries), key, now, CACHE_TTL) then Some(old(entries)[key].value) else None
    {
      if key in entries && now - entries[key].at < CACHE_TTL {
        found := Some(entries[key].value);
        entries := entries[key := Entry(entries[key].value, now)];
      } else {
        found := None;
      }
    }

    method RetainFresh(now: int, ttl: int)
      modifies this
      ensures entries == Kept(old(entries), now, ttl)
    {
      entries := map k | k in entries && now - entries[k].at < ttl :: entries[k];
    }
  }
}
