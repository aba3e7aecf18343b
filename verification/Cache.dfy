/**
 * A bounded cache with expiry, against a plain map with expiry that forgets nothing early.
 *
 * Among entries that expire at the same time, which is evicted first is left open.
 */
module Cache {
  import opened Common

  type Bytes = seq<bv8>
  datatype Entry = Entry(expiresAt: real, value: Bytes)

  predicate Expired(e: Entry, now: real) { e.expiresAt < now }

  function Live(store: map<string, Entry>, now: real): map<string, Entry> {
    map k | k in store && now <= store[k].expiresAt :: store[k]
  }

  // What is evicted expires no later than what is kept.
  ghost predicate OldestGone(before: map<string, Entry>, after: map<string, Entry>) {
    && (forall k :: k in after ==> k in before && after[k] == before[k])
    && (forall gone, kept :: gone in before && gone !in after && kept in after ==>
          before[gone].expiresAt <= before[kept].expiresAt)
  }

  // Expired entries go first; if the store is then still full, a quarter of its capacity goes.
  ghost predicate Evicts(before: map<string, Entry>, after: map<string, Entry>, now: real, capacity: nat) {
    var live := Live(before, now);
    if |live| < capacity then after == live
    else OldestGone(live, after) && |after| == |live| - capacity / 4
  }

  ghost predicate MakesRoom(before: map<string, Entry>, after: map<string, Entry>, now: real, capacity: nat) {
    if |before| < capacity then after == before else Evicts(before, after, now, capacity)
  }

  lemma RemoveOne(store: map<string, Entry>, k: string)
    requires k in store
    ensures |store - {k}| == |store| - 1
  {
    assert (store - {k}).Keys == store.Keys - {k};
  }

  ghost predicate Soonest(store: map<string, Entry>, k: string) {
    k in store && forall j :: j in store ==> store[k].expiresAt <= store[j].expiresAt
  }

  lemma {:induction false} SoonestExists(store: map<string, Entry>) returns (k: string)
    requires store != map[]
    ensures Soonest(store, k)
    decreases store.Keys
  {
    k :| k in store;
    var others := store - {k};
    assert forall i :: i in store && i != k ==> i in others;
    if others != map[] {
      var j := SoonestExists(others);
      assert forall i :: i in store ==> i == k || (i in others && others[j].expiresAt <= store[i].expiresAt);
      if others[j].expiresAt < store[k].expiresAt {
        k := j;
      }
    }
  }

  function ExpiredKeys(store: map<string, Entry>, now: real): set<string> {
    set k | k in store && Expired(store[k], now)
  }

  lemma WithoutExpired(store: map<string, Entry>, now: real)
    ensures store - ExpiredKeys(store, now) == Live(store, now)
  {
  }

  lemma DropSoonest(live: map<string, Entry>, store: map<string, Entry>, k: string)
    requires OldestGone(live, store) && Soonest(store, k)
    ensures OldestGone(live, store - {k}) && |store - {k}| == |store| - 1
  {
    RemoveOne(store, k);
    var after := store - {k};
    forall gone, kept | gone in live && gone !in after && kept in after
      ensures live[gone].expiresAt <= live[kept].expiresAt
    {
      assert kept in store && (gone == k || gone !in store);
    }
  }

  method SoonestKey(store: map<string, Entry>) returns (k: string)
    requires store != map[]
    ensures Soonest(store, k)
  {
    ghost var some := SoonestExists(store);
    k :| k in store && forall j :: j in store ==> store[k].expiresAt <= store[j].expiresAt;
  }

  // These keys are the soonest to expire and the rest is what remains without them.
  ghost predicate Splits(store: map<string, Entry>, keys: set<string>, rest: map<string, Entry>) {
    keys <= store.Keys && rest == store - keys && OldestGone(store, rest)
  }

  lemma SplitNext(store: map<string, Entry>, keys: set<string>, rest: map<string, Entry>, k: string)
    requires Splits(store, keys, rest) && Soonest(rest, k)
    ensures Splits(store, keys + {k}, rest - {k}) && |rest - {k}| == |rest| - 1
  {
    DropSoonest(store, rest, k);
    assert rest - {k} == store - (keys + {k});
  }

  // The keys of the n entries that expire soonest.
  method SoonestKeys(store: map<string, Entry>, n: nat) returns (keys: set<string>)
    requires n <= |store|
    ensures keys <= store.Keys && |store - keys| == |store| - n && OldestGone(store, store - keys)
  {
    keys := {};
    var rest := store;
    assert store - {} == store;
    for i := 0 to n
      invariant Splits(store, keys, rest) && |rest| == |store| - i
    {
      var k := SoonestKey(rest);
      SplitNext(store, keys, rest, k);
      keys, rest := keys + {k}, rest - {k};
    }
  }

  // The live entries a step took away, other than the one it wrote.
  function Taken(before: map<string, Entry>, after: map<string, Entry>, now: real): set<string> {
    set k | k in before && k !in after && !Expired(before[k], now)
  }

  // What the store holds is what the plain map holds; what it lacks was taken or has expired.
  ghost predicate Agrees(store: map<string, Entry>, plain: map<string, Entry>, lost: set<string>, now: real) {
    && (forall k :: k in store ==> k in plain && store[k] == plain[k] && k !in lost)
    && (forall k :: k in plain && k !in store && k !in lost ==> Expired(plain[k], now))
  }

  lemma SetAgrees(store: map<string, Entry>, plain: map<string, Entry>, lost: set<string>, clock: real,
                     room: map<string, Entry>, now: real, capacity: nat, key: string, e: Entry)
    requires Agrees(store, plain, lost, clock) && MakesRoom(store, room, now, capacity)
    ensures Agrees(room[key := e], plain[key := e], lost + Taken(store, room[key := e], now) - {key}, Max(clock, now))
  {
  }

  class InMemoryCache {
    const capacity: nat
    var store: map<string, Entry>
    // The plain map, the latest time seen, and the live entries eviction has taken from it.
    ghost var plain: map<string, Entry>
    ghost var clock: real
    ghost var lost: set<string>

    ghost predicate Valid()
      reads this
    {
      Agrees(store, plain, lost, clock) && (capacity >= 4 ==> |store| <= capacity)
    }

    constructor (capacity: nat)
      ensures Valid() && this.capacity == capacity && plain == map[] && lost == {} && store == map[]
    {
      this.capacity := capacity;
      store, plain, lost, clock := map[], map[], {}, 0.0;
    }

    // The plain map's answer, except for what eviction took; after a clock that ran back an entry
    // may also be missing that had expired at the latest time seen.
    method Get(now: real, key: string) returns (value: Option<Bytes>)
      requires Valid()
      modifies this
      ensures Valid() && clock == Max(old(clock), now) && plain == old(plain) && lost == old(lost)
      ensures store == if key in old(store) && old(store)[key].expiresAt < now then old(store) - {key} else old(store)
      ensures value.Some? ==>
                key !in lost && key in plain && now <= plain[key].expiresAt && value.value == plain[key].value
      ensures value.None? ==> key in lost || key !in plain || plain[key].expiresAt < clock
      ensures now >= old(clock) && key !in lost ==>
                value == if key in plain && now <= plain[key].expiresAt then Some(plain[key].value) else None
    {
      clock := Max(clock, now);
      if key !in store {
        return None;
      }
      var entry := store[key];
      if Expired(entry, now) {
        RemoveOne(store, key);
        store := store - {key};
        return None;
      }
      return Some(entry.value);
    }

    method Set(now: real, key: string, value: Bytes, ttl: int)
      requires Valid()
      modifies this
      ensures Valid() && clock == Max(old(clock), now) && plain == old(plain)[key := Entry(now + ttl as real, value)]
      ensures exists room :: MakesRoom(old(store), room, now, capacity) && store == room[key := plain[key]]
      ensures lost == old(lost) + Taken(old(store), store, now) - {key}
    {
      clock := Max(clock, now);
      if |store| >= capacity {
        Evict(now);
      }
      ghost var room := store;
      assert MakesRoom(old(store), room, now, capacity);
      ghost var entry := Entry(now + ttl as real, value);
      SetAgrees(old(store), plain, lost, old(clock), room, now, capacity, key, entry);
      SizeAfterSet(old(store), room, now, capacity, key, entry);
      plain := plain[key := Entry(now + ttl as real, value)];
      store := store[key := Entry(now + ttl as real, value)];
      lost := lost + Taken(old(store), store, now) - {key};
    }

    method Delete(key: string)
      requires Valid()
      modifies this
      ensures Valid() && clock == old(clock) && lost == old(lost) - {key}
      ensures plain == old(plain) - {key} && store == old(store) - {key}
    {
      if key in store {
        RemoveOne(store, key);
      } else {
        assert store - {key} == store;
      }
      store := store - {key};
      plain := plain - {key};
      lost := lost - {key};
    }

    method PopAll(keys: set<string>)
      modifies this`store
      ensures store == old(store) - keys
    {
      var rest := keys;
      assert keys - keys == {};
      while rest != {}
        invariant rest <= keys && store == old(store) - (keys - rest)
        decreases rest
      {
        var k :| k in rest;
        assert keys - (rest - {k}) == (keys - rest) + {k};
        store := store - {k};
        rest := rest - {k};
      }
      assert keys - {} == keys;
    }

    method Evict(now: real)
      modifies this`store
      ensures Evicts(old(store), store, now, capacity)
    {
      WithoutExpired(store, now);
      PopAll(ExpiredKeys(store, now));
      if |store| >= capacity {
        var oldest := SoonestKeys(store, capacity / 4);
        PopAll(oldest);
      }
    }
  }

  // ---- the bound ----

  lemma SizeAfterSet(before: map<string, Entry>, room: map<string, Entry>, now: real, capacity: nat,
                        key: string, e: Entry)
    requires MakesRoom(before, room, now, capacity)
    ensures capacity >= 4 && |before| <= capacity ==> |room[key := e]| <= capacity
  {
    LiveIsSmaller(before, now);
    PutOne(room, key, e);
  }

  lemma LiveIsSmaller(store: map<string, Entry>, now: real)
    ensures |Live(store, now)| <= |store|
  {
    Fewer(Live(store, now).Keys, store.Keys);
  }

  lemma PutOne(store: map<string, Entry>, key: string, e: Entry)
    ensures |store[key := e]| == |store| + if key in store then 0 else 1
  {
    assert store[key := e].Keys == store.Keys + {key};
  }

  ghost predicate Sets(before: map<string, Entry>, after: map<string, Entry>, now: real, capacity: nat,
                          key: string, e: Entry)
  {
    exists room :: MakesRoom(before, room, now, capacity) && after == room[key := e]
  }

  // A write takes a live entry only from a store full of live entries, then no more than a quarter
  // of the capacity, and none that would have outlived one it leaves.
  lemma TakenExpireFirst(before: map<string, Entry>, after: map<string, Entry>, now: real, capacity: nat,
                         key: string, e: Entry)
    requires Sets(before, after, now, capacity, key, e)
    ensures var taken := Taken(before, after, now);
            && (taken != {} ==> |Live(before, now)| >= capacity)
            && |taken| <= capacity / 4
            && (forall gone, kept :: gone in taken && kept in after && kept != key ==>
                  before[gone].expiresAt <= before[kept].expiresAt)
  {
    var room :| MakesRoom(before, room, now, capacity) && after == room[key := e];
    var taken, live := Taken(before, after, now), Live(before, now);
    assert forall k :: k in room ==> k in after;
    if |before| >= capacity {
      FewerThanGone(taken, live.Keys, room.Keys);
    }
  }

  lemma FewerThanGone(some: set<string>, all: set<string>, kept: set<string>)
    requires kept <= all && some <= all - kept
    ensures |some| <= |all| - |kept|
  {
    Fewer(some, all - kept);
    assert all == kept + (all - kept);
  }

  // A full store of live entries, keyed by length.
  function Full(n: nat, e: Entry): (store: map<string, Entry>)
    ensures |store| == n && forall k :: k in store ==> |k| < n && store[k] == e
  {
    if n == 0 then map[] else
      var smaller, key := Full(n - 1, e), seq(n - 1, _ => 'k');
      PutOne(smaller, key, e);
      smaller[key := e]
  }

  lemma SmallCapacityOverflows(capacity: nat, now: real, e: Entry)
    requires capacity < 4 && !Expired(e, now)
    ensures var before, key := Full(capacity, e), seq(capacity, _ => 'k');
            |before| == capacity && Sets(before, before[key := e], now, capacity, key, e)
            && |before[key := e]| == capacity + 1
  {
    var before, key := Full(capacity, e), seq(capacity, _ => 'k');
    assert Live(before, now) == before;
    assert MakesRoom(before, before, now, capacity);
    PutOne(before, key, e);
  }

  // Writing keeps the store within its capacity, whatever it holds, exactly for capacities of four
  // and more: a quarter of anything smaller is nothing.
  lemma BoundKeptIff(capacity: nat, e: Entry)
    ensures (forall before: map<string, Entry>, after, now, key ::
               |before| <= capacity && Sets(before, after, now, capacity, key, e) ==> |after| <= capacity)
       <==> capacity >= 4
  {
    if capacity >= 4 {
      forall before: map<string, Entry>, after, now, key
        | |before| <= capacity && Sets(before, after, now, capacity, key, e)
        ensures |after| <= capacity
      {
        var room :| MakesRoom(before, room, now, capacity) && after == room[key := e];
        SizeAfterSet(before, room, now, capacity, key, e);
      }
    } else {
      SmallCapacityOverflows(capacity, e.expiresAt, e);
    }
  }
}
