/** The two in-memory caches, each proved against the trace of everything that happened to it. */
module Cache {
  import opened Prelude

  /** What a cache operation did. `Hit` and `Miss` are the counted gets, `Peek` an uncounted one. */
  datatype Event = Hit(key: Text) | Peek(key: Text) | Miss | Insert(key: Text) | Reput(key: Text)
    | Evict(key: Text) | Drop(key: Text) | Clear

  /** Events in order, latest outermost. */
  datatype Trace = Start | Then(before: Trace, event: Event)

  function Length(t: Trace): nat {
    match t
    case Start => 0
    case Then(p, _) => 1 + Length(p)
  }

  /** The keys that were inserted and not removed since. */
  function Resident(t: Trace): set<Text> {
    match t
    case Start => {}
    case Then(p, Insert(k)) => Resident(p) + {k}
    case Then(p, Evict(k)) => Resident(p) - {k}
    case Then(p, Drop(k)) => Resident(p) - {k}
    case Then(p, Clear) => {}
    case Then(p, _) => Resident(p)
  }

  /** Counted gets and re-puts of `k` since its last insertion. */
  function UsesSinceInsert(t: Trace, k: Text): nat {
    match t
    case Start => 0
    case Then(p, e) =>
      if e == Insert(k) then 0
      else UsesSinceInsert(p, k) + if e == Hit(k) || e == Reput(k) then 1 else 0
  }

  /** Position of the last insertion of `k`; 0 when there is none. */
  function InsertedAt(t: Trace, k: Text): nat {
    match t
    case Start => 0
    case Then(p, e) => if e == Insert(k) then Length(t) else InsertedAt(p, k)
  }

  /** Position of the last get or put that found or stored `k`, counted or not. */
  function TouchedAt(t: Trace, k: Text): nat {
    match t
    case Start => 0
    case Then(p, e) =>
      if e == Hit(k) || e == Peek(k) || e == Insert(k) || e == Reput(k) then Length(t) else TouchedAt(p, k)
  }

  function HitCount(t: Trace): nat {
    match t
    case Start => 0
    case Then(_, Clear) => 0
    case Then(p, e) => HitCount(p) + if e.Hit? then 1 else 0
  }

  function MissCount(t: Trace): nat {
    match t
    case Start => 0
    case Then(_, Clear) => 0
    case Then(p, e) => MissCount(p) + if e.Miss? then 1 else 0
  }

  function CountedGets(t: Trace): nat {
    match t
    case Start => 0
    case Then(_, Clear) => 0
    case Then(p, e) => CountedGets(p) + if e.Hit? || e.Miss? then 1 else 0
  }

  lemma {:induction false} GetsAreHitsPlusMisses(t: Trace)
    ensures CountedGets(t) == HitCount(t) + MissCount(t)
  {
    match t
    case Start =>
    case Then(p, _) => GetsAreHitsPlusMisses(p);
  }

  lemma {:induction false} PositionsBounded(t: Trace, k: Text)
    ensures InsertedAt(t, k) <= Length(t) && TouchedAt(t, k) <= Length(t)
  {
    match t
    case Start =>
    case Then(p, _) => PositionsBounded(p, k);
  }

  ghost predicate NoDuplicates(s: seq<Text>) {
    forall i, j :: 0 <= i < j < |s| ==> s[i] != s[j]
  }

  ghost predicate Lists(s: seq<Text>, keys: set<Text>) {
    && NoDuplicates(s)
    && (forall k :: k in s <==> k in keys)
  }

  lemma {:induction false} ListedSize(s: seq<Text>, keys: set<Text>)
    requires Lists(s, keys)
    ensures |s| == |keys|
  {
    if s == [] {
      assert forall k :: k in keys ==> k in s;
      assert keys == {};
    } else {
      var rest := keys - {s[0]};
      forall k ensures k in s[1..] <==> k in rest {
        if k in rest { var i :| 0 <= i < |s| && s[i] == k; assert s[1..][i - 1] == k; }
      }
      ListedSize(s[1..], rest);
    }
  }

  function IndexOf(s: seq<Text>, k: Text): (i: nat)
    requires k in s
    ensures i < |s| && s[i] == k && k !in s[..i]
  {
    if s[0] == k then 0 else
      assert s == [s[0]] + s[1..];
      var i := 1 + IndexOf(s[1..], k);
      assert s[..i] == [s[0]] + s[1..][..i - 1];
      i
  }

  function Without(s: seq<Text>, k: Text): seq<Text>
    requires k in s
  {
    var i := IndexOf(s, k); s[..i] + s[i + 1..]
  }

  lemma WithoutLists(s: seq<Text>, k: Text, keys: set<Text>)
    requires Lists(s, keys) && k in s
    ensures Lists(Without(s, k), keys - {k})
  {
    var n := IndexOf(s, k);
    var w := Without(s, k);
    forall x ensures x in w <==> x in keys - {k} {
      if x in keys - {k} {
        var i :| 0 <= i < |s| && s[i] == x;
        if i < n { assert w[i] == x; } else { assert w[i - 1] == x; }
      }
    }
  }

  lemma AppendLists(s: seq<Text>, k: Text, keys: set<Text>)
    requires Lists(s, keys) && k !in keys
    ensures Lists(s + [k], keys + {k})
  {
  }

  // ---- orders by insertion and by recency ----

  ghost predicate ByInsertion(order: seq<Text>, t: Trace) {
    forall i, j :: 0 <= i < j < |order| ==> InsertedAt(t, order[i]) < InsertedAt(t, order[j])
  }

  ghost predicate ByTouch(order: seq<Text>, t: Trace) {
    forall i, j :: 0 <= i < j < |order| ==> TouchedAt(t, order[i]) < TouchedAt(t, order[j])
  }

  lemma WithoutStaysOrdered(order: seq<Text>, k: Text, t: Trace)
    requires k in order
    ensures ByInsertion(order, t) ==> ByInsertion(Without(order, k), t)
    ensures ByTouch(order, t) ==> ByTouch(Without(order, k), t)
    ensures NoDuplicates(order) ==> k !in Without(order, k)
  {
    var n := IndexOf(order, k);
    var w := Without(order, k);
    forall i | 0 <= i < |w| ensures w[i] == order[if i < n then i else i + 1] {
    }
  }

  /** Any event except inserting one of the listed keys leaves the insertion order alone. */
  lemma ByInsertionKept(order: seq<Text>, t: Trace, e: Event)
    requires ByInsertion(order, t)
    requires e.Insert? ==> e.key !in order
    ensures ByInsertion(order, Then(t, e))
    ensures e.Insert? ==> ByInsertion(order + [e.key], Then(t, e))
  {
    forall k ensures InsertedAt(t, k) <= Length(t) { PositionsBounded(t, k); }
    assert forall i :: 0 <= i < |order| ==> InsertedAt(Then(t, e), order[i]) == InsertedAt(t, order[i]);
  }

  /** An event that touches no listed key keeps the recency order; the touched key goes last. */
  lemma ByTouchKept(order: seq<Text>, t: Trace, e: Event)
    requires ByTouch(order, t)
    requires e.Hit? || e.Peek? || e.Insert? || e.Reput? ==> e.key !in order
    ensures ByTouch(order, Then(t, e))
    ensures e.Hit? || e.Peek? || e.Insert? || e.Reput? ==> ByTouch(order + [e.key], Then(t, e))
  {
    forall k ensures TouchedAt(t, k) <= Length(t) { PositionsBounded(t, k); }
    assert forall i :: 0 <= i < |order| ==> TouchedAt(Then(t, e), order[i]) == TouchedAt(t, order[i]);
  }

  /** `move_to_end` on a listed key, when the same event touches it. */
  lemma MovedToEnd(order: seq<Text>, k: Text, keys: set<Text>, t: Trace, e: Event)
    requires Lists(order, keys) && k in keys && ByTouch(order, t)
    requires e == Hit(k) || e == Peek(k) || e == Reput(k)
    ensures Lists(Without(order, k) + [k], keys)
    ensures ByTouch(Without(order, k) + [k], Then(t, e))
  {
    WithoutLists(order, k, keys);
    WithoutStaysOrdered(order, k, t);
    ByTouchKept(Without(order, k), t, e);
    AppendLists(Without(order, k), k, keys - {k});
    assert keys - {k} + {k} == keys;
  }

  lemma RemovedSize<V>(m: map<Text, V>, k: Text)
    requires k in m
    ensures (m - {k}).Keys == m.Keys - {k} && |m - {k}| == |m| - 1
  {
    assert (m - {k}).Keys == m.Keys - {k};
    assert |m.Keys - {k}| == |m.Keys| - 1;
  }

  lemma SameKeysSameSize<V>(a: map<Text, V>, b: map<Text, V>)
    requires a.Keys == b.Keys
    ensures |a| == |b|
  {
    assert |a| == |a.Keys| == |b.Keys| == |b|;
  }

  /** The first key, in insertion order, whose frequency is minimal. */
  method MinFrequencyKey(order: seq<Text>, freq: map<Text, int>) returns (victim: Text, at: nat)
    requires order != [] && forall i :: 0 <= i < |order| ==> order[i] in freq
    ensures at < |order| && order[at] == victim
    ensures forall i :: 0 <= i < |order| ==> freq[victim] <= freq[order[i]]
    ensures forall i :: 0 <= i < at ==> freq[victim] < freq[order[i]]
  {
    victim, at := order[0], 0;
    for i := 1 to |order|
      invariant at < i && order[at] == victim
      invariant forall j :: 0 <= j < i ==> freq[victim] <= freq[order[j]]
      invariant forall j :: 0 <= j < at ==> freq[victim] < freq[order[j]]
    {
      if freq[order[i]] < freq[victim] {
        victim, at := order[i], i;
      }
    }
  }

  // ---- what the LFU dictionaries hold after a trace, event by event ----

  ghost predicate LfuHolds(freq: map<Text, int>, order: seq<Text>, hits: int, misses: int, t: Trace) {
    && freq.Keys == Resident(t)
    && Lists(order, freq.Keys)
    && ByInsertion(order, t)
    && (forall k :: k in freq ==> freq[k] == UsesSinceInsert(t, k))
    && hits == HitCount(t) && misses == MissCount(t)
  }

  lemma LfuMiss(freq: map<Text, int>, order: seq<Text>, hits: int, misses: int, t: Trace)
    requires LfuHolds(freq, order, hits, misses, t)
    ensures LfuHolds(freq, order, hits, misses + 1, Then(t, Miss))
  {
    ByInsertionKept(order, t, Miss);
  }

  lemma LfuUse(freq: map<Text, int>, order: seq<Text>, hits: int, misses: int, t: Trace, k: Text)
    requires LfuHolds(freq, order, hits, misses, t) && k in freq
    ensures LfuHolds(freq[k := freq[k] + 1], order, hits + 1, misses, Then(t, Hit(k)))
    ensures LfuHolds(freq[k := freq[k] + 1], order, hits, misses, Then(t, Reput(k)))
  {
    assert freq[k := freq[k] + 1].Keys == freq.Keys;
    ByInsertionKept(order, t, Hit(k));
    ByInsertionKept(order, t, Reput(k));
  }

  lemma LfuInsert(freq: map<Text, int>, order: seq<Text>, hits: int, misses: int, t: Trace, k: Text)
    requires LfuHolds(freq, order, hits, misses, t) && k !in freq
    ensures LfuHolds(freq[k := 0], order + [k], hits, misses, Then(t, Insert(k)))
  {
    assert freq[k := 0].Keys == freq.Keys + {k};
    AppendLists(order, k, freq.Keys);
    ByInsertionKept(order, t, Insert(k));
  }

  lemma LfuRemove(freq: map<Text, int>, order: seq<Text>, hits: int, misses: int, t: Trace, k: Text, e: Event)
    requires LfuHolds(freq, order, hits, misses, t) && k in freq && (e == Evict(k) || e == Drop(k))
    ensures LfuHolds(freq - {k}, Without(order, k), hits, misses, Then(t, e))
  {
    assert (freq - {k}).Keys == freq.Keys - {k};
    WithoutLists(order, k, freq.Keys);
    WithoutStaysOrdered(order, k, t);
    ByInsertionKept(Without(order, k), t, e);
  }

  /** `v` may be evicted: no resident key is used less, and equally used ones were inserted later. */
  ghost predicate IsLfuVictim(freq: map<Text, int>, t: Trace, v: Text) {
    && v in freq
    && (forall k :: k in freq ==> freq[v] <= freq[k])
    && (forall k :: k in freq && k != v && freq[k] == freq[v] ==> InsertedAt(t, v) < InsertedAt(t, k))
  }

  lemma FirstMinimumIsVictim(freq: map<Text, int>, order: seq<Text>, t: Trace, v: Text, at: nat)
    requires Lists(order, freq.Keys) && ByInsertion(order, t)
    requires forall i :: 0 <= i < |order| ==> order[i] in freq
    requires at < |order| && order[at] == v
    requires forall i :: 0 <= i < |order| ==> freq[v] <= freq[order[i]]
    requires forall i :: 0 <= i < at ==> freq[v] < freq[order[i]]
    ensures IsLfuVictim(freq, t, v)
  {
    forall k | k in freq
      ensures freq[v] <= freq[k]
      ensures k != v && freq[k] == freq[v] ==> InsertedAt(t, v) < InsertedAt(t, k)
    {
      assert k in order;
      var i :| 0 <= i < |order| && order[i] == k;
    }
  }

  class LfuCache<V> {
    const capacity: nat
    var entries: map<Text, V>
    var freq: map<Text, int>
    var order: seq<Text>        // iteration order of `freq`
    var hits: int
    var misses: int
    ghost var trace: Trace

    /** Value keys equal frequency keys, frequencies and counters are what the trace says,
        and the size stays within the capacity. */
    ghost predicate Valid()
      reads this
    {
      && capacity >= 1
      && |entries| <= capacity
      && entries.Keys == freq.Keys
      && LfuHolds(freq, order, hits, misses, trace)
    }

    constructor (capacity: nat)
      requires capacity >= 1
      ensures Valid() && this.capacity == capacity && trace == Start && entries == map[]
    {
      this.capacity := capacity;
      entries, freq, order, hits, misses, trace := map[], map[], [], 0, 0, Start;
    }

    method Get(key: Text, countStats: bool) returns (value: Option<V>)
      requires Valid()
      modifies this
      ensures Valid()
      ensures value == if key in old(entries) then Some(old(entries)[key]) else None
      ensures entries == old(entries) && order == old(order)
      ensures trace == if countStats then
                         Then(old(trace), if key in old(entries) then Hit(key) else Miss)
                       else old(trace)
    {
      if key !in entries {
        if countStats {
          LfuMiss(freq, order, hits, misses, trace);
          misses := misses + 1;
          trace := Then(trace, Miss);
        }
        return None;
      }
      if countStats {
        LfuUse(freq, order, hits, misses, trace, key);
        hits := hits + 1;
        freq := freq[key := freq[key] + 1];
        trace := Then(trace, Hit(key));
      }
      value := Some(entries[key]);
    }

    method Put(key: Text, value: V) returns (evicted: Option<Text>)
      requires Valid()
      modifies this
      ensures Valid()
      ensures evicted.Some? <==> key !in old(entries) && |old(entries)| == capacity
      ensures evicted.Some? ==> IsLfuVictim(old(freq), old(trace), evicted.value) && evicted.value != key
      ensures entries == (if evicted.Some? then old(entries) - {evicted.value} else old(entries))[key := value]
      ensures trace == if key in old(entries) then Then(old(trace), Reput(key))
                       else Then(if evicted.Some? then Then(old(trace), Evict(evicted.value)) else old(trace),
                           Insert(key))
    {
      evicted := None;
      if key in entries {
        Overwrite(key, value);
      } else {
        if |entries| >= capacity {
          var victim := EvictOne();
          evicted := Some(victim);
        }
        InsertNew(key, value);
      }
    }

    method Overwrite(key: Text, value: V)
      requires Valid() && key in entries
      modifies this
      ensures Valid()
      ensures entries == old(entries)[key := value]
      ensures trace == Then(old(trace), Reput(key))
    {
      LfuUse(freq, order, hits, misses, trace, key);
      SameKeysSameSize(entries[key := value], entries);
      entries := entries[key := value];
      freq := freq[key := freq[key] + 1];
      trace := Then(trace, Reput(key));
    }

    method InsertNew(key: Text, value: V)
      requires Valid() && key !in entries && |entries| < capacity
      modifies this
      ensures Valid()
      ensures entries == old(entries)[key := value]
      ensures trace == Then(old(trace), Insert(key))
    {
      LfuInsert(freq, order, hits, misses, trace, key);
      assert entries[key := value].Keys == entries.Keys + {key};
      assert freq[key := 0].Keys == freq.Keys + {key};
      entries := entries[key := value];
      freq := freq[key := 0];
      order := order + [key];
      trace := Then(trace, Insert(key));
    }

    method Delete(key: Text)
      requires Valid()
      modifies this
      ensures Valid()
      ensures entries == old(entries) - {key}
      ensures trace == if key in old(entries) then Then(old(trace), Drop(key)) else old(trace)
    {
      if key in entries {
        Remove(key, Drop(key));
      } else {
        assert entries - {key} == entries;
      }
    }

    method EvictOne() returns (victim: Text)
      requires Valid() && |entries| == capacity
      modifies this
      ensures Valid()
      ensures IsLfuVictim(old(freq), old(trace), victim)
      ensures entries == old(entries) - {victim} && |entries| == capacity - 1
      ensures trace == Then(old(trace), Evict(victim))
    {
      ListedSize(order, freq.Keys);
      assert |entries| == |entries.Keys|;
      forall i | 0 <= i < |order| ensures order[i] in freq { assert order[i] in order; }
      var at;
      victim, at := MinFrequencyKey(order, freq);
      FirstMinimumIsVictim(freq, order, trace, victim, at);
      Remove(victim, Evict(victim));
    }

    /** `del` on both dicts. */
    method Remove(key: Text, ghost event: Event)
      requires Valid() && key in entries
      requires event == Evict(key) || event == Drop(key)
      modifies this
      ensures Valid()
      ensures entries == old(entries) - {key} && |entries| == |old(entries)| - 1
      ensures hits == old(hits) && misses == old(misses)
      ensures trace == Then(old(trace), event)
    {
      LfuRemove(freq, order, hits, misses, trace, key, event);
      RemovedSize(entries, key);
      RemovedSize(freq, key);
      order := Without(order, key);
      entries := entries - {key};
      freq := freq - {key};
      trace := Then(trace, event);
    }

    method Flush()
      requires capacity >= 1
      modifies this
      ensures Valid()
      ensures entries == map[] && hits == 0 && misses == 0
      ensures trace == Then(old(trace), Clear)
    {
      entries, freq, order, hits, misses := map[], map[], [], 0, 0;
      trace := Then(trace, Clear);
    }
  }

  // ---- what the LRU dictionaries hold after a trace, event by event ----

  ghost predicate LruHolds(keys: set<Text>, order: seq<Text>, hits: int, misses: int,
                                    t: Trace) {
    && keys == Resident(t)
    && Lists(order, keys)
    && ByTouch(order, t)
    && hits == HitCount(t) && misses == MissCount(t)
  }

  lemma LruMiss(keys: set<Text>, order: seq<Text>, hits: int, misses: int, t: Trace)
    requires LruHolds(keys, order, hits, misses, t)
    ensures LruHolds(keys, order, hits, misses + 1, Then(t, Miss))
  {
    ByTouchKept(order, t, Miss);
  }

  lemma LruUse(keys: set<Text>, order: seq<Text>, hits: int, misses: int, t: Trace, e: Event)
    requires LruHolds(keys, order, hits, misses, t)
    requires (e.Peek? || e.Reput? || e.Hit?) && e.key in keys
    ensures LruHolds(keys, Without(order, e.key) + [e.key], hits + (if e.Hit? then 1 else 0), misses, Then(t, e))
  {
    MovedToEnd(order, e.key, keys, t, e);
  }

  lemma LruInsert(keys: set<Text>, order: seq<Text>, hits: int, misses: int, t: Trace, k: Text)
    requires LruHolds(keys, order, hits, misses, t) && k !in keys
    ensures LruHolds(keys + {k}, order + [k], hits, misses, Then(t, Insert(k)))
  {
    AppendLists(order, k, keys);
    ByTouchKept(order, t, Insert(k));
  }

  lemma LruRemove(keys: set<Text>, order: seq<Text>, hits: int, misses: int, t: Trace,
                           k: Text, e: Event)
    requires LruHolds(keys, order, hits, misses, t) && k in keys && (e == Evict(k) || e == Drop(k))
    ensures LruHolds(keys - {k}, Without(order, k), hits, misses, Then(t, e))
  {
    WithoutLists(order, k, keys);
    WithoutStaysOrdered(order, k, t);
    ByTouchKept(Without(order, k), t, e);
  }

  /** The front of the recency order is touched strictly before every other resident key. */
  lemma FrontIsLeastRecent(order: seq<Text>, keys: set<Text>, t: Trace)
    requires Lists(order, keys) && ByTouch(order, t) && order != []
    ensures forall k :: k in keys && k != order[0] ==> TouchedAt(t, order[0]) < TouchedAt(t, k)
    ensures Without(order, order[0]) == order[1..]
  {
    forall k | k in keys && k != order[0] ensures TouchedAt(t, order[0]) < TouchedAt(t, k) {
      assert k in order;
      var i :| 0 <= i < |order| && order[i] == k;
    }
  }

  class LruCache<V> {
    const capacity: nat
    var entries: map<Text, V>
    var order: seq<Text>        // least recently touched first
    var hits: int
    var misses: int
    ghost var trace: Trace

    ghost predicate Valid()
      reads this
    {
      && |entries| <= capacity
      && LruHolds(entries.Keys, order, hits, misses, trace)
    }

    constructor (capacity: nat)
      ensures Valid() && this.capacity == capacity && trace == Start && entries == map[]
    {
      this.capacity := capacity;
      entries, order, hits, misses, trace := map[], [], 0, 0, Start;
    }

    /** Even an uncounted hit moves the key to the recent end. */
    method Get(key: Text, countStats: bool) returns (value: Option<V>)
      requires Valid()
      modifies this
      ensures Valid()
      ensures value == if key in old(entries) then Some(old(entries)[key]) else None
      ensures entries == old(entries)
      ensures trace == if key in old(entries) then Then(old(trace), if countStats then Hit(key) else Peek(key))
                       else if countStats then Then(old(trace), Miss) else old(trace)
    {
      if key !in entries {
        if countStats {
          LruMiss(entries.Keys, order, hits, misses, trace);
          misses := misses + 1;
          trace := Then(trace, Miss);
        }
        return None;
      }
      ghost var event := if countStats then Hit(key) else Peek(key);
      LruUse(entries.Keys, order, hits, misses, trace, event);
      if countStats {
        hits := hits + 1;
      }
      order := Without(order, key) + [key];
      trace := Then(trace, event);
      value := Some(entries[key]);
    }

    /** With capacity 0 the new key itself is evicted; otherwise the least recently touched one. */
    method Put(key: Text, value: V) returns (evicted: Option<Text>)
      requires Valid()
      modifies this
      ensures Valid()
      ensures evicted.Some? <==> key !in old(entries) && |old(entries)| == capacity
      ensures evicted.None? ==> entries == old(entries)[key := value]
      ensures evicted.Some? ==>
                && entries == old(entries)[key := value] - {evicted.value}
                && (evicted.value == key <==> capacity == 0)
                && forall k :: k in entries && k != key ==>
                     TouchedAt(old(trace), evicted.value) < TouchedAt(old(trace), k)
      ensures var stored := Then(old(trace), if key in old(entries) then Reput(key) else Insert(key));
              trace == if evicted.Some? then Then(stored, Evict(evicted.value)) else stored
    {
      ListedSize(order, entries.Keys);
      Store(key, value);
      evicted := None;
      if |entries| > capacity {
        var victim := PopOldest();
        evicted := Some(victim);
        if capacity == 0 {
          assert old(entries) == map[];
        } else {
          ghost var other := old(order)[0];
          assert other in old(order);
          PositionsBounded(old(trace), other);
          assert victim == key ==> other in entries;
        }
      }
    }

    /** `popitem(last=False)`. */
    method PopOldest() returns (victim: Text)
      requires LruHolds(entries.Keys, order, hits, misses, trace)
      requires |entries| == capacity + 1
      modifies this
      ensures Valid()
      ensures victim in old(entries) && entries == old(entries) - {victim}
      ensures forall k :: k in entries ==> TouchedAt(old(trace), victim) < TouchedAt(old(trace), k)
      ensures trace == Then(old(trace), Evict(victim))
    {
      ListedSize(order, entries.Keys);
      victim := order[0];
      assert victim in order;
      FrontIsLeastRecent(order, entries.Keys, trace);
      Remove(victim, Evict(victim));
    }

    /** Assignment plus `move_to_end`; may leave the cache one over capacity. */
    method Store(key: Text, value: V)
      requires Valid()
      modifies this
      ensures LruHolds(entries.Keys, order, hits, misses, trace)
      ensures entries == old(entries)[key := value]
      ensures |entries| == |old(entries)| + if key in old(entries) then 0 else 1
      ensures |order| == |entries| && order != [] && order[|order| - 1] == key
      ensures trace == Then(old(trace), if key in old(entries) then Reput(key) else Insert(key))
    {
      var all := entries[key := value];
      if key in entries {
        LruUse(entries.Keys, order, hits, misses, trace, Reput(key));
        SameKeysSameSize(all, entries);
        order := Without(order, key) + [key];
        trace := Then(trace, Reput(key));
      } else {
        LruInsert(entries.Keys, order, hits, misses, trace, key);
        assert all.Keys == entries.Keys + {key};
        order := order + [key];
        trace := Then(trace, Insert(key));
      }
      entries := all;
      ListedSize(order, entries.Keys);
    }

    method Delete(key: Text)
      requires Valid()
      modifies this
      ensures Valid()
      ensures entries == old(entries) - {key}
      ensures trace == if key in old(entries) then Then(old(trace), Drop(key)) else old(trace)
    {
      if key in entries {
        Remove(key, Drop(key));
      } else {
        assert entries - {key} == entries;
      }
    }

    method Remove(key: Text, ghost event: Event)
      requires LruHolds(entries.Keys, order, hits, misses, trace) && |entries| <= capacity + 1
      requires key in entries && (event == Evict(key) || event == Drop(key))
      modifies this
      ensures Valid()
      ensures entries == old(entries) - {key}
      ensures trace == Then(old(trace), event)
    {
      LruRemove(entries.Keys, order, hits, misses, trace, key, event);
      RemovedSize(entries, key);
      order := Without(order, key);
      entries := entries - {key};
      trace := Then(trace, event);
    }

    method Flush()
      modifies this
      ensures Valid()
      ensures entries == map[] && hits == 0 && misses == 0
      ensures trace == Then(old(trace), Clear)
    {
      entries, order, hits, misses := map[], [], 0, 0;
      trace := Then(trace, Clear);
    }
  }
}
