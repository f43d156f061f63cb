/** `functools.lru_cache(maxsize=N)` as the services use it: a bounded map
    from the call's arguments to the value it returned, with the least
    recently used entry evicted when a new one does not fit. A call that
    raises stores nothing. */
module Memo {
  import opened Base

  predicate Distinct<K(==)>(s: seq<K>)
  {
    forall i, j :: 0 <= i < j < |s| ==> s[i] != s[j]
  }

  /** `s` without its element `k`. */
  function Without<K(==)>(s: seq<K>, k: K): (r: seq<K>)
    ensures |r| <= |s|
  {
    if s == [] then []
    else if s[0] == k then Without(s[1..], k)
    else [s[0]] + Without(s[1..], k)
  }

  lemma {:induction false} WithoutMembers<K>(s: seq<K>, k: K)
    ensures forall x :: x in Without(s, k) <==> x in s && x != k
    ensures Distinct(s) ==> Distinct(Without(s, k))
    ensures Distinct(s) && k in s ==> |Without(s, k)| == |s| - 1
    ensures k !in s ==> Without(s, k) == s
  {
    if s != [] {
      WithoutMembers(s[1..], k);
      var r := Without(s, k);
      if s[0] != k {
        assert r == [s[0]] + Without(s[1..], k);
        if Distinct(s) {
          assert s[0] !in s[1..];
          assert s[0] !in Without(s[1..], k);
          forall i, j | 0 <= i < j < |r| ensures r[i] != r[j] {
            if i == 0 {
              assert r[j] in Without(s[1..], k);
            } else {
              assert r[i] == Without(s[1..], k)[i - 1];
            }
          }
        }
      } else if Distinct(s) {
        assert s[0] !in s[1..];
      }
    }
  }

  class LruCache<K(==,!new), V> {
    const capacity: nat
    /** The cached calls. */
    var entries: map<K, V>
    /** The cached keys, least recently used first. */
    var recency: seq<K>

    ghost predicate Valid()
      reads this
    {
      0 < capacity
      && Distinct(recency)
      && entries.Keys == (set k | k in recency)
      && |recency| <= capacity
    }

    constructor (capacity: nat)
      requires capacity > 0
      ensures Valid() && this.capacity == capacity
      ensures entries == map[] && recency == []
    {
      this.capacity := capacity;
      entries := map[];
      recency := [];
    }

    /** `cache_info().currsize`. */
    function Size(): (n: nat)
      reads this
      requires Valid()
      ensures n == |entries.Keys| && n <= capacity
      ensures n == 0 <==> entries == map[]
    {
      KeysMatchRecency();
      |recency|
    }

    lemma KeysMatchRecency()
      requires Valid()
      ensures |entries.Keys| == |recency|
    {
      DistinctCard(recency);
    }

    static lemma {:induction false} DistinctCard(s: seq<K>)
      requires Distinct(s)
      ensures |set x | x in s| == |s|
    {
      if s != [] {
        DistinctCard(s[1..]);
        assert (set x | x in s) == (set x | x in s[1..]) + {s[0]};
        assert s[0] !in s[1..];
      }
    }

    /** A lookup: on a hit, return the stored value and mark the key most
        recently used; on a miss, change nothing. */
    method Lookup(key: K) returns (found: Option<V>)
      requires Valid()
      modifies this
      ensures Valid()
      ensures found.Some? <==> key in old(entries)
      ensures found.Some? ==> found.value == old(entries)[key] && recency == Without(old(recency), key) + [key]
      ensures found.None? ==> recency == old(recency)
      ensures entries == old(entries)
    {
      if key in entries {
        found := Some(entries[key]);
        WithoutMembers(recency, key);
        recency := Without(recency, key) + [key];
      } else {
        found := None;
      }
    }

    /** The keys that survive making room for `key`. */
    function Room(key: K): (r: seq<K>)
      reads this
      requires Valid()
      ensures |r| < capacity
      ensures Distinct(r) && key !in r
      ensures forall k :: k in r ==> k in recency
      ensures |recency| < capacity ==> forall k :: k in recency && k != key ==> k in r
    {
      WithoutMembers(recency, key);
      var kept := Without(recency, key);
      if |kept| == capacity then kept[1..] else kept
    }

    /** Store what a successful call returned: the key becomes most recently
        used and, when the cache is full, the least recently used key is
        evicted. */
    method Store(key: K, value: V)
      requires Valid()
      modifies this
      ensures Valid()
      ensures recency == old(Room(key)) + [key]
      ensures entries == map k | k in recency :: if k == key then value else old(entries)[k]
      ensures key in entries && entries[key] == value
      ensures forall k :: k in entries && k != key ==> k in old(entries) && entries[k] == old(entries)[k]
      ensures |old(recency)| < capacity ==> forall k :: k in old(entries) ==> k in entries
    {
      var room := Room(key);
      assert forall k :: k in room ==> k in entries;
      entries := map k | k in room + [key] :: if k == key then value else entries[k];
      recency := room + [key];
    }
  }
}
