/** The Redis search cache: `infra/search_cache.py`. Entries and index sets carry their own expiry;
    an expired key reads as absent. */
module SearchCache {
  import opened Wrappers

  datatype Payload = Payload(query: string, kbIds: seq<string>, response: string, queryEmbedding: Option<seq<real>>)

  datatype Entry = Entry(payload: Payload, expiresAt: nat)

  /** A Redis set with an expiry. */
  datatype TimedSet<T(==)> = TimedSet(members: set<T>, expiresAt: nat)

  /** (bucket hash, query hash). */
  type Key = (string, string)

  /** The keys under `rag:cache:` and the clock. `order` maps each key to the time of its last store. */
  datatype State = State(
    now: nat,
    entries: map<Key, Entry>,
    buckets: map<string, TimedSet<string>>,
    kbIndex: map<string, TimedSet<Key>>,
    order: map<Key, nat>)

  const EMPTY: State := State(0, map[], map[], map[], map[])

  // ---------------------------------------------------------------- Redis primitives

  predicate IsLive(s: State, k: Key) {
    k in s.entries && s.now < s.entries[k].expiresAt
  }

  function Members<T>(index: map<string, TimedSet<T>>, now: nat, name: string): set<T> {
    if name in index && now < index[name].expiresAt then index[name].members else {}
  }

  /** SADD then EXPIRE. */
  function AddMember<T>(index: map<string, TimedSet<T>>, now: nat, name: string, x: T, expiresAt: nat): map<string, TimedSet<T>> {
    index[name := TimedSet(Members(index, now, name) + {x}, expiresAt)]
  }

  /** SREM of several members; an expired set is left as it is. */
  function RemoveMembers<T>(index: map<string, TimedSet<T>>, now: nat, name: string, xs: set<T>): map<string, TimedSet<T>> {
    if name in index && now < index[name].expiresAt
    then index[name := TimedSet(index[name].members - xs, index[name].expiresAt)]
    else index
  }

  /** `get_entry`. */
  function GetEntry(s: State, bucketHash: string, queryHash: string): Option<Payload> {
    if IsLive(s, (bucketHash, queryHash)) then Some(s.entries[(bucketHash, queryHash)].payload) else None
  }

  /** `get_bucket_query_hashes`. */
  function BucketQueries(s: State, bucketHash: string): set<string> {
    Members(s.buckets, s.now, bucketHash)
  }

  // ---------------------------------------------------------------- operations on the state

  function IndexKbs(index: map<string, TimedSet<Key>>, now: nat, kbIds: seq<string>, k: Key, expiresAt: nat): map<string, TimedSet<Key>> {
    if kbIds == [] then index
    else AddMember(IndexKbs(index, now, kbIds[..|kbIds| - 1], k, expiresAt), now, kbIds[|kbIds| - 1], k, expiresAt)
  }

  /** `set_entry` up to the call of `evict_if_needed`. */
  function Insert(s: State, k: Key, payload: Payload, kbIds: seq<string>, ttl: nat): State {
    s.(entries := s.entries[k := Entry(payload, s.now + ttl)],
       buckets := AddMember(s.buckets, s.now, k.0, k.1, s.now + ttl),
       kbIndex := IndexKbs(s.kbIndex, s.now, kbIds, k, s.now + ttl),
       order := s.order[k := s.now])
  }

  function UnindexKbs(index: map<string, TimedSet<Key>>, now: nat, kbIds: seq<string>, k: Key): map<string, TimedSet<Key>> {
    if kbIds == [] then index
    else RemoveMembers(UnindexKbs(index, now, kbIds[..|kbIds| - 1], k), now, kbIds[|kbIds| - 1], {k})
  }

  /** One turn of the eviction loop: an expired victim only leaves the order. */
  function Drop(s: State, k: Key): State {
    var s' := s.(order := s.order - {k});
    if IsLive(s, k) then
      s'.(entries := s.entries - {k},
          buckets := RemoveMembers(s.buckets, s.now, k.0, {k.1}),
          kbIndex := UnindexKbs(s.kbIndex, s.now, s.entries[k].payload.kbIds, k))
    else s'
  }

  function DropAll(s: State, ks: seq<Key>): State {
    if ks == [] then s else Drop(DropAll(s, ks[..|ks| - 1]), ks[|ks| - 1])
  }

  ghost predicate IsOldest(order: map<Key, nat>, k: Key) {
    k in order && forall j :: j in order ==> order[k] <= order[j]
  }

  ghost predicate EachOldest(s: State, maxEntries: nat, ks: seq<Key>) {
    forall i :: 0 <= i < |ks| ==> |DropAll(s, ks[..i]).order| > maxEntries && IsOldest(DropAll(s, ks[..i]).order, ks[i])
  }

  /** The keys `ks` are what the eviction loop removes: always an oldest key, while too many remain,
      until at most `maxEntries` do. */
  ghost predicate IsEviction(s: State, maxEntries: nat, ks: seq<Key>) {
    && EachOldest(s, maxEntries, ks)
    && |DropAll(s, ks).order| <= maxEntries
  }

  lemma DropNone(s: State)
    ensures DropAll(s, []) == s
  {
  }

  lemma DropOneMore(s: State, maxEntries: nat, ks: seq<Key>, k: Key)
    requires EachOldest(s, maxEntries, ks)
    requires |DropAll(s, ks).order| > maxEntries && IsOldest(DropAll(s, ks).order, k)
    ensures EachOldest(s, maxEntries, ks + [k]) && DropAll(s, ks + [k]) == Drop(DropAll(s, ks), k)
  {
    hide Drop, IsOldest, DropAll;
    DropAllAppend(s, ks, k);
    forall i | 0 <= i < |ks + [k]|
      ensures |DropAll(s, (ks + [k])[..i]).order| > maxEntries && IsOldest(DropAll(s, (ks + [k])[..i]).order, (ks + [k])[i])
    {
      assert (ks + [k])[..i] == if i < |ks| then ks[..i] else ks;
    }
  }

  lemma DropAllAppend(s: State, ks: seq<Key>, k: Key)
    ensures DropAll(s, ks + [k]) == Drop(DropAll(s, ks), k)
  {
    hide Drop;
    assert (ks + [k])[..|ks|] == ks;
  }

  /** The entries, bucket members and order keys named by `keys` are gone. */
  function Purge(s: State, keys: set<Key>): State {
    s.(entries := s.entries - keys,
       buckets := map b | b in s.buckets ::
         if s.now < s.buckets[b].expiresAt then TimedSet((set q | q in s.buckets[b].members && (b, q) !in keys), s.buckets[b].expiresAt)
         else s.buckets[b],
       order := s.order - keys)
  }

  /** `invalidate_kb`. */
  function Invalidate(s: State, kbId: string): State {
    Purge(s, Members(s.kbIndex, s.now, kbId)).(kbIndex := s.kbIndex - {kbId})
  }

  /** The live entries an invalidation of `kbId` finds: its return value. */
  function Cleared(s: State, kbId: string): set<Key> {
    set k | k in Members(s.kbIndex, s.now, kbId) && IsLive(s, k)
  }

  // ---------------------------------------------------------------- the operations as they run

  /** A key under `rag:cache:`. */
  datatype RedisKey = EntryKey(k: Key) | BucketKey(name: string) | KbIndexKey(kbId: string) | OrderKey

  /** The keys Redis holds: expired keys and empty sets do not exist. */
  function KeysIn(s: State): set<RedisKey> {
    (set k | k in s.entries && IsLive(s, k) :: EntryKey(k))
    + (set b | b in s.buckets && Members(s.buckets, s.now, b) != {} :: BucketKey(b))
    + (set kb | kb in s.kbIndex && Members(s.kbIndex, s.now, kb) != {} :: KbIndexKey(kb))
    + (if s.order == map[] then {} else {OrderKey})
  }

  class Cache {
    var now: nat
    var entries: map<Key, Entry>
    var buckets: map<string, TimedSet<string>>
    var kbIndex: map<string, TimedSet<Key>>
    var order: map<Key, nat>

    ghost function View(): State
      reads this
    {
      State(now, entries, buckets, kbIndex, order)
    }

    constructor ()
      ensures View() == EMPTY
    {
      now, entries, buckets, kbIndex, order := 0, map[], map[], map[], map[];
    }

    method SetEntry(bucketHash: string, queryHash: string, payload: Payload, kbIds: seq<string>, ttl: nat, maxEntries: nat)
      returns (ghost evicted: seq<Key>)
      modifies this
      ensures var stored := Insert(old(View()), (bucketHash, queryHash), payload, kbIds, ttl);
        IsEviction(stored, maxEntries, evicted) && View() == DropAll(stored, evicted)
    {
      hide IsEviction, DropAll, AddMember;
      var k := (bucketHash, queryHash);
      entries := entries[k := Entry(payload, now + ttl)];
      buckets := AddMember(buckets, now, bucketHash, queryHash, now + ttl);
      for i := 0 to |kbIds|
        invariant kbIndex == IndexKbs(old(kbIndex), now, kbIds[..i], k, now + ttl)
        invariant now == old(now) && order == old(order)
        invariant entries == old(entries)[k := Entry(payload, now + ttl)]
        invariant buckets == AddMember(old(buckets), now, bucketHash, queryHash, now + ttl)
      {
        assert kbIds[..i + 1][..i] == kbIds[..i];
        kbIndex := AddMember(kbIndex, now, kbIds[i], k, now + ttl);
      }
      assert kbIds[..|kbIds|] == kbIds;
      order := order[k := now];
      evicted := EvictIfNeeded(maxEntries);
    }

    method Oldest() returns (k: Key)
      requires order != map[]
      ensures IsOldest(order, k)
    {
      k :| k in order;
      var todo := order.Keys;
      while todo != {}
        invariant todo <= order.Keys && k in order
        invariant forall j :: j in order.Keys - todo ==> order[k] <= order[j]
        decreases todo
      {
        var j :| j in todo;
        if order[j] < order[k] {
          k := j;
        }
        todo := todo - {j};
      }
    }

    method EvictIfNeeded(maxEntries: nat) returns (ghost evicted: seq<Key>)
      modifies this
      ensures IsEviction(old(View()), maxEntries, evicted) && View() == DropAll(old(View()), evicted)
    {
      hide DropAll, Drop, IsOldest;
      ghost var start := View();
      evicted := [];
      DropNone(start);
      while |order| > maxEntries
        invariant View() == DropAll(start, evicted)
        invariant EachOldest(start, maxEntries, evicted)
        decreases |order|
      {
        var k := Oldest();
        ghost var before := evicted;
        DropOne(k);
        evicted := evicted + [k];
        DropOneMore(start, maxEntries, before, k);
      }
    }

    method DropOne(k: Key)
      requires k in order
      modifies this
      ensures View() == Drop(old(View()), k)
      ensures |order| < |old(order)|
    {
      hide AddMember, UnindexKbs, RemoveMembers;
      assert order.Keys == (order - {k}).Keys + {k};
      order := order - {k};
      if k in entries && now < entries[k].expiresAt {
        var kbIds := entries[k].payload.kbIds;
        entries := entries - {k};
        buckets := RemoveMembers(buckets, now, k.0, {k.1});
        Unindex(kbIds, k);
      }
    }

    /** Takes an entry out of the index of every KB it covers. */
    method Unindex(kbIds: seq<string>, k: Key)
      modifies this`kbIndex
      ensures kbIndex == UnindexKbs(old(kbIndex), now, kbIds, k)
    {
      for i := 0 to |kbIds|
        invariant kbIndex == UnindexKbs(old(kbIndex), now, kbIds[..i], k)
      {
        assert kbIds[..i + 1][..i] == kbIds[..i];
        kbIndex := RemoveMembers(kbIndex, now, kbIds[i], {k});
      }
      assert kbIds[..|kbIds|] == kbIds;
    }

    method InvalidateKb(kbId: string) returns (count: nat)
      modifies this
      ensures View() == Invalidate(old(View()), kbId)
      ensures count == |Cleared(old(View()), kbId)|
    {
      ghost var start := View();
      var fullKeys := Members(kbIndex, now, kbId);
      var todo := fullKeys;
      count := 0;
      ghost var done: set<Key> := {};
      PurgeNone(start);
      while todo != {}
        invariant done == fullKeys - todo && todo <= fullKeys
        invariant View() == Purge(start, done)
        invariant count == |LiveAmong(start, done)|
        decreases todo
      {
        var k :| k in todo;
        PurgeOneMore(start, done, k);
        if k in entries && now < entries[k].expiresAt {
          count := count + 1;
        }
        entries := entries - {k};
        buckets := RemoveMembers(buckets, now, k.0, {k.1});
        order := order - {k};
        done, todo := done + {k}, todo - {k};
      }
      assert done == fullKeys;
      assert LiveAmong(start, fullKeys) == Cleared(start, kbId);
      kbIndex := kbIndex - {kbId};
    }

    /** Deletes every key under the prefix and returns how many there were. */
    method InvalidateAll() returns (count: nat)
      modifies this
      ensures View() == EMPTY.(now := old(now))
      ensures count == |KeysIn(old(View()))|
    {
      hide KeysIn;
      var keys := KeysIn(State(now, entries, buckets, kbIndex, order));
      count := |keys|;
      entries, buckets, kbIndex, order := map[], map[], map[], map[];
    }
  }

  function LiveAmong(s: State, keys: set<Key>): set<Key> {
    set k | k in keys && IsLive(s, k)
  }

  lemma PurgeNone(s: State)
    ensures Purge(s, {}) == s
    ensures LiveAmong(s, {}) == {}
  {
    var p := Purge(s, {});
    assert p.buckets.Keys == s.buckets.Keys;
    forall b | b in s.buckets
      ensures p.buckets[b] == s.buckets[b]
    {
      if s.now < s.buckets[b].expiresAt {
        assert (set q | q in s.buckets[b].members && (b, q) !in {}) == s.buckets[b].members;
      }
    }
    assert p.buckets == s.buckets && p.entries == s.entries && p.order == s.order;
  }

  lemma PurgeOneMoreBucket(s: State, done: set<Key>, k: Key)
    ensures RemoveMembers(Purge(s, done).buckets, s.now, k.0, {k.1}) == Purge(s, done + {k}).buckets
  {
    var some, all := RemoveMembers(Purge(s, done).buckets, s.now, k.0, {k.1}), Purge(s, done + {k}).buckets;
    assert some.Keys == s.buckets.Keys == all.Keys;
    forall b | b in s.buckets
      ensures some[b] == all[b]
    {
      if s.now < s.buckets[b].expiresAt {
        assert some[b].members == all[b].members;
      }
    }
  }

  lemma PurgeOneMore(s: State, done: set<Key>, k: Key)
    requires k !in done
    ensures var p := Purge(s, done);
      Purge(s, done + {k}) == p.(entries := p.entries - {k}, buckets := RemoveMembers(p.buckets, s.now, k.0, {k.1}), order := p.order - {k})
      && (IsLive(p, k) <==> IsLive(s, k))
    ensures |LiveAmong(s, done + {k})| == |LiveAmong(s, done)| + (if IsLive(s, k) then 1 else 0)
  {
    PurgeOneMoreBucket(s, done, k);
    assert (s.entries - done) - {k} == s.entries - (done + {k});
    assert (s.order - done) - {k} == s.order - (done + {k});
    assert LiveAmong(s, done + {k}) == LiveAmong(s, done) + (if IsLive(s, k) then {k} else {});
  }
}
