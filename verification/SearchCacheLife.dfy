/** How long the search cache answers: an entry reads from its store until its TTL has passed, unless it is
    overwritten, evicted or invalidated before. */
module SearchCacheLife {
  import opened SearchCache
  import opened SearchCacheLaws
  import opened Wrappers

  /** A stored entry, its place in its bucket and in the index of each of its KBs last exactly for the TTL. */
  lemma StoredForItsTtl(s: State, k: Key, payload: Payload, kbIds: seq<string>, ttl: nat, elapsed: nat)
    requires ttl > 0
    ensures var later := Insert(s, k, payload, kbIds, ttl).(now := s.now + elapsed);
      && GetEntry(later, k.0, k.1) == (if elapsed < ttl then Some(payload) else None)
      && (k.1 in BucketQueries(later, k.0) <==> elapsed < ttl)
      && (forall kb :: kb in kbIds ==> (k in Members(later.kbIndex, later.now, kb) <==> elapsed < ttl))
  {
    hide IndexKbs;
    forall kb | kb in kbIds
      ensures var later := Insert(s, k, payload, kbIds, ttl).(now := s.now + elapsed);
        k in Members(later.kbIndex, later.now, kb) <==> elapsed < ttl
    {
      IndexKbsRows(s.kbIndex, s.now, kbIds, k, s.now + ttl, kb);
    }
  }

  /** The entry is there while its key is in the order, and cannot be read once it is not. */
  ghost predicate Holds(s: State, k: Key, entry: Entry) {
    if k in s.order then k in s.entries && s.entries[k] == entry else !IsLive(s, k)
  }

  lemma {:induction false} EvictionKeepsHolding(s: State, ks: seq<Key>, k: Key, entry: Entry)
    requires Holds(s, k, entry)
    ensures Holds(DropAll(s, ks), k, entry)
  {
    if ks != [] {
      hide UnindexKbs;
      EvictionKeepsHolding(s, ks[..|ks| - 1], k, entry);
    }
  }

  /** Only another store under the same key changes what is held. */
  lemma NextKeepsHolding(s: State, s': State, step: Step, hash: BucketHash, ttl: nat, k: Key, entry: Entry)
    requires Holds(s, k, entry) && Next(s, s', step, hash, ttl)
    requires step.Store? ==> k != (hash(multiset(step.kbIds), step.options), step.queryHash)
    ensures Holds(s', k, entry)
  {
    if step.Store? {
      hide IsEviction, DropAll, Holds, Insert;
      var j := (hash(multiset(step.kbIds), step.options), step.queryHash);
      var stored := Insert(s, j, step.payload, step.kbIds, ttl);
      var evicted :| IsEviction(stored, step.maxEntries, evicted) && s' == DropAll(stored, evicted);
      InsertHolds(s, j, step.payload, step.kbIds, ttl);
      EvictionKeepsHolding(stored, evicted, k, entry);
    }
  }

  lemma StoringHolds(s: State, s': State, step: Step, hash: BucketHash, ttl: nat)
    requires step.Store? && Next(s, s', step, hash, ttl)
    ensures Holds(s', (hash(multiset(step.kbIds), step.options), step.queryHash), Entry(step.payload, s.now + ttl))
  {
    hide IsEviction, DropAll, Holds, Insert;
    var k := (hash(multiset(step.kbIds), step.options), step.queryHash);
    var stored := Insert(s, k, step.payload, step.kbIds, ttl);
    var evicted :| IsEviction(stored, step.maxEntries, evicted) && s' == DropAll(stored, evicted);
    InsertHolds(s, k, step.payload, step.kbIds, ttl);
    EvictionKeepsHolding(stored, evicted, k, Entry(step.payload, s.now + ttl));
  }

  lemma InsertHolds(s: State, k: Key, payload: Payload, kbIds: seq<string>, ttl: nat)
    ensures Holds(Insert(s, k, payload, kbIds, ttl), k, Entry(payload, s.now + ttl))
    ensures forall j, entry :: j != k && Holds(s, j, entry) ==> Holds(Insert(s, k, payload, kbIds, ttl), j, entry)
  {
    hide IndexKbs, AddMember;
  }

  /** In every run, after a store and until the next store under its key, the key reads the stored payload
      exactly while it has not left the order (by eviction or invalidation) and the TTL has not passed. */
  lemma {:induction false} ReadsUntilTtl(states: seq<State>, steps: seq<Step>, hash: BucketHash, ttl: nat, m: nat, n: nat, k: Key)
    requires IsRun(states, steps, hash, ttl) && m < n <= |steps| && steps[m].Store?
    requires k == (hash(multiset(steps[m].kbIds), steps[m].options), steps[m].queryHash)
    requires forall i :: m < i < n && steps[i].Store? ==> k != (hash(multiset(steps[i].kbIds), steps[i].options), steps[i].queryHash)
    ensures GetEntry(states[n], k.0, k.1) ==
      if k in states[n].order && states[n].now < states[m].now + ttl then Some(steps[m].payload) else None
    ensures Holds(states[n], k, Entry(steps[m].payload, states[m].now + ttl))
  {
    hide Next;
    if n == m + 1 {
      StoringHolds(states[m], states[n], steps[m], hash, ttl);
    } else {
      ReadsUntilTtl(states, steps, hash, ttl, m, n - 1, k);
      NextKeepsHolding(states[n - 1], states[n], steps[n - 1], hash, ttl, k, Entry(steps[m].payload, states[m].now + ttl));
    }
  }

  /** What takes a live key out of the order: an eviction that reaches it, the invalidation of a KB it
      covers, or of everything. Time alone does not. */
  lemma LeavesTheOrderIff(s: State, s': State, step: Step, hash: BucketHash, ttl: nat, k: Key)
    requires Injective(hash) && Inv(s, hash, ttl) && IsLive(s, k) && Next(s, s', step, hash, ttl)
    requires step.Store? ==> k != (hash(multiset(step.kbIds), step.options), step.queryHash)
    ensures !step.Store? ==>
      (k !in s'.order <==> step.InvalidateEverything? || (step.InvalidateOne? && step.kbId in s.entries[k].payload.kbIds))
    ensures step.Store? ==> (k !in s'.order ==> |s.order| >= step.maxEntries)
  {
    match step
    case Store(kbIds, options, queryHash, payload, maxEntries) =>
      var stored := Insert(s, (hash(multiset(kbIds), options), queryHash), payload, kbIds, ttl);
      var evicted :| IsEviction(stored, maxEntries, evicted) && s' == DropAll(stored, evicted);
      DropAllOrder(stored, evicted, k);
      if evicted != [] {
        DropNone(stored);
        assert evicted[..0] == [];
      }
    case Tick(elapsed) =>
    case InvalidateOne(kbId) => InvalidationIsExact(s, hash, ttl, kbId, k);
    case InvalidateEverything =>
  }

  /** Redis holds a key exactly when something can be read through it. */
  lemma KeysAreWhatCanBeRead(s: State)
    ensures forall k: Key :: EntryKey(k) in KeysIn(s) <==> GetEntry(s, k.0, k.1).Some?
    ensures forall b :: BucketKey(b) in KeysIn(s) <==> BucketQueries(s, b) != {}
    ensures forall kb :: KbIndexKey(kb) in KeysIn(s) <==> Members(s.kbIndex, s.now, kb) != {}
    ensures OrderKey in KeysIn(s) <==> s.order != map[]
  {
  }
}
