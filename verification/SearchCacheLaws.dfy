/** What every run of the search cache keeps: complete indexes, complete invalidation, the size
    bound, and FIFO eviction. */
module SearchCacheLaws {
  import opened SearchCache
  import opened Sets
  import opened Wrappers

  // ---------------------------------------------------------------- index upkeep

  lemma {:induction false} IndexKbsRows(index: map<string, TimedSet<Key>>, now: nat, kbIds: seq<string>, k: Key, expiresAt: nat, kb: string)
    requires now < expiresAt
    ensures kb in kbIds ==>
      kb in IndexKbs(index, now, kbIds, k, expiresAt)
      && IndexKbs(index, now, kbIds, k, expiresAt)[kb] == TimedSet(Members(index, now, kb) + {k}, expiresAt)
    ensures kb !in kbIds ==>
      (kb in index <==> kb in IndexKbs(index, now, kbIds, k, expiresAt))
      && (kb in index ==> IndexKbs(index, now, kbIds, k, expiresAt)[kb] == index[kb])
  {
    if kbIds != [] {
      IndexKbsRows(index, now, kbIds[..|kbIds| - 1], k, expiresAt, kb);
      assert kb in kbIds <==> kb in kbIds[..|kbIds| - 1] || kb == kbIds[|kbIds| - 1];
      assert (Members(index, now, kb) + {k}) + {k} == Members(index, now, kb) + {k};
    }
  }

  lemma {:induction false} UnindexKbsRows(index: map<string, TimedSet<Key>>, now: nat, kbIds: seq<string>, k: Key, kb: string)
    ensures kb in UnindexKbs(index, now, kbIds, k) <==> kb in index
    ensures kb in index ==>
      && UnindexKbs(index, now, kbIds, k)[kb].expiresAt == index[kb].expiresAt
      && index[kb].members - {k} <= UnindexKbs(index, now, kbIds, k)[kb].members <= index[kb].members
  {
    if kbIds != [] {
      UnindexKbsRows(index, now, kbIds[..|kbIds| - 1], k, kb);
    }
  }

  /** The entry is in its bucket, in the index of every KB it covers and in the order, and neither
      index expires before it. */
  ghost predicate IsIndexed(s: State, k: Key)
    requires k in s.entries
  {
    var e := s.entries[k];
    && k.0 in s.buckets && k.1 in s.buckets[k.0].members && e.expiresAt <= s.buckets[k.0].expiresAt
    && (forall kb :: kb in e.payload.kbIds ==>
          kb in s.kbIndex && k in s.kbIndex[kb].members && e.expiresAt <= s.kbIndex[kb].expiresAt)
    && k in s.order
  }

  ghost predicate AllIndexed(s: State) {
    forall k :: IsLive(s, k) ==> IsIndexed(s, k)
  }

  /** `j` sits in the bucket of `k`, or covers one of `kbIds`. */
  ghost predicate SharesIndex(s: State, j: Key, k: Key, kbIds: seq<string>)
    requires j in s.entries
  {
    j.0 == k.0 || exists kb :: kb in kbIds && kb in s.entries[j].payload.kbIds
  }

  lemma InsertKeepsOne(s: State, k: Key, payload: Payload, kbIds: seq<string>, ttl: nat, j: Key)
    requires ttl > 0 && j != k && IsLive(s, j) && IsIndexed(s, j)
    ensures IsLive(Insert(s, k, payload, kbIds, ttl), j)
    ensures IsIndexed(Insert(s, k, payload, kbIds, ttl), j)
       <==> SharesIndex(s, j, k, kbIds) ==> s.entries[j].expiresAt <= s.now + ttl
  {
    hide IndexKbs;
    var s' := Insert(s, k, payload, kbIds, ttl);
    forall kb
      ensures kb in kbIds ==> kb in s'.kbIndex && s'.kbIndex[kb] == TimedSet(Members(s.kbIndex, s.now, kb) + {k}, s.now + ttl)
      ensures kb !in kbIds ==>
        (kb in s.kbIndex <==> kb in s'.kbIndex) && (kb in s.kbIndex ==> s'.kbIndex[kb] == s.kbIndex[kb])
    {
      IndexKbsRows(s.kbIndex, s.now, kbIds, k, s.now + ttl, kb);
    }
  }

  /** A store keeps the indexes complete exactly when its TTL does not cut short a live entry that
      shares its bucket or one of its KBs. With one fixed TTL that is always so. */
  lemma InsertKeepsIndexedIff(s: State, k: Key, payload: Payload, kbIds: seq<string>, ttl: nat)
    requires ttl > 0 && AllIndexed(s) && forall kb :: kb in payload.kbIds <==> kb in kbIds
    ensures AllIndexed(Insert(s, k, payload, kbIds, ttl)) <==>
      forall j :: j != k && IsLive(s, j) && SharesIndex(s, j, k, kbIds) ==> s.entries[j].expiresAt <= s.now + ttl
  {
    hide IndexKbs;
    var s' := Insert(s, k, payload, kbIds, ttl);
    forall j | j != k
      ensures IsLive(s', j) <==> IsLive(s, j)
      ensures IsLive(s, j) ==> (IsIndexed(s', j) <==> (SharesIndex(s, j, k, kbIds) ==> s.entries[j].expiresAt <= s.now + ttl))
    {
      if IsLive(s, j) {
        InsertKeepsOne(s, k, payload, kbIds, ttl, j);
      }
    }
    assert IsIndexed(s', k) by {
      forall kb | kb in payload.kbIds
        ensures kb in s'.kbIndex && k in s'.kbIndex[kb].members && s.now + ttl <= s'.kbIndex[kb].expiresAt
      {
        IndexKbsRows(s.kbIndex, s.now, kbIds, k, s.now + ttl, kb);
      }
    }
  }

  lemma DropKeepsIndexed(s: State, k: Key)
    requires AllIndexed(s)
    ensures AllIndexed(Drop(s, k))
    ensures forall j :: IsLive(Drop(s, k), j) <==> j != k && IsLive(s, j)
  {
    hide UnindexKbs;
    var s' := Drop(s, k);
    forall j | IsLive(s', j)
      ensures j != k && IsLive(s, j)
    {
    }
    forall j | IsLive(s, j) && j != k
      ensures IsLive(s', j) && IsIndexed(s', j)
    {
      if IsLive(s, k) {
        forall kb | kb in s.entries[j].payload.kbIds
          ensures kb in s'.kbIndex && j in s'.kbIndex[kb].members && s.entries[j].expiresAt <= s'.kbIndex[kb].expiresAt
        {
          UnindexKbsRows(s.kbIndex, s.now, s.entries[k].payload.kbIds, k, kb);
        }
      }
    }
  }

  lemma InvalidateKeepsIndexed(s: State, kbId: string)
    requires AllIndexed(s)
    ensures AllIndexed(Invalidate(s, kbId))
    ensures forall j :: IsLive(Invalidate(s, kbId), j) ==> IsLive(s, j) && kbId !in s.entries[j].payload.kbIds
  {
    var s' := Invalidate(s, kbId);
    forall j | IsLive(s', j)
      ensures IsLive(s, j) && kbId !in s.entries[j].payload.kbIds && IsIndexed(s', j)
    {
      assert IsLive(s, j) && IsIndexed(s, j);
      assert kbId in s.entries[j].payload.kbIds ==> j in Members(s.kbIndex, s.now, kbId);
    }
  }

  // ---------------------------------------------------------------- hashes

  /** sha256 over the KB ids, in any order, and the remaining search options. */
  type BucketHash = (multiset<string>, string) -> string

  ghost predicate Injective(hash: BucketHash) {
    forall a, o, b, p :: hash(a, o) == hash(b, p) ==> a == b && o == p
  }

  ghost predicate HashOf(hash: BucketHash, name: string, kbs: multiset<string>) {
    exists options :: name == hash(kbs, options)
  }

  ghost predicate NamesKb(hash: BucketHash, name: string, kb: string) {
    exists kbs :: HashOf(hash, name, kbs) && kb in kbs
  }

  /** Every entry sits in the bucket of its KBs, and a KB's index lists only buckets covering it. */
  ghost predicate HashSound(s: State, hash: BucketHash) {
    && (forall k :: k in s.entries ==> HashOf(hash, k.0, multiset(s.entries[k].payload.kbIds)))
    && (forall kb, k :: kb in s.kbIndex && k in s.kbIndex[kb].members ==> NamesKb(hash, k.0, kb))
  }

  /** No live entry outlives the fixed TTL. */
  ghost predicate Bounded(s: State, ttl: nat) {
    forall k :: IsLive(s, k) ==> s.entries[k].expiresAt <= s.now + ttl
  }

  ghost predicate Inv(s: State, hash: BucketHash, ttl: nat) {
    AllIndexed(s) && HashSound(s, hash) && Bounded(s, ttl)
  }

  // ---------------------------------------------------------------- runs

  datatype Step =
    | Store(kbIds: seq<string>, options: string, queryHash: string, payload: Payload, maxEntries: nat)
    | Tick(elapsed: nat)
    | InvalidateOne(kbId: string)
    | InvalidateEverything

  ghost predicate Next(s: State, s': State, step: Step, hash: BucketHash, ttl: nat) {
    match step
    case Store(kbIds, options, queryHash, payload, maxEntries) =>
      && multiset(payload.kbIds) == multiset(kbIds)
      && exists evicted ::
           var stored := Insert(s, (hash(multiset(kbIds), options), queryHash), payload, kbIds, ttl);
           IsEviction(stored, maxEntries, evicted) && s' == DropAll(stored, evicted)
    case Tick(elapsed) => s' == s.(now := s.now + elapsed)
    case InvalidateOne(kbId) => s' == Invalidate(s, kbId)
    case InvalidateEverything => s' == EMPTY.(now := s.now)
  }

  ghost predicate IsRun(states: seq<State>, steps: seq<Step>, hash: BucketHash, ttl: nat) {
    && |states| == |steps| + 1 && states[0] == EMPTY
    && forall i :: 0 <= i < |steps| ==> Next(states[i], states[i + 1], steps[i], hash, ttl)
  }

  lemma InsertKeepsInv(s: State, k: Key, payload: Payload, kbIds: seq<string>, ttl: nat, hash: BucketHash)
    requires ttl > 0 && Inv(s, hash, ttl)
    requires multiset(payload.kbIds) == multiset(kbIds) && HashOf(hash, k.0, multiset(kbIds))
    ensures Inv(Insert(s, k, payload, kbIds, ttl), hash, ttl)
  {
    hide IndexKbs;
    var s' := Insert(s, k, payload, kbIds, ttl);
    forall kb
      ensures kb in payload.kbIds <==> kb in kbIds
    {
      assert kb in multiset(payload.kbIds) <==> kb in multiset(kbIds);
    }
    InsertKeepsIndexedIff(s, k, payload, kbIds, ttl);
    forall kb, j | kb in s'.kbIndex && j in s'.kbIndex[kb].members
      ensures NamesKb(hash, j.0, kb)
    {
      IndexKbsRows(s.kbIndex, s.now, kbIds, k, s.now + ttl, kb);
      if kb in kbIds && j == k {
        assert kb in multiset(kbIds);
      }
    }
  }

  lemma DropKeepsInv(s: State, k: Key, hash: BucketHash, ttl: nat)
    requires Inv(s, hash, ttl)
    ensures Inv(Drop(s, k), hash, ttl)
  {
    hide UnindexKbs;
    var s' := Drop(s, k);
    DropKeepsIndexed(s, k);
    forall kb, j | kb in s'.kbIndex && j in s'.kbIndex[kb].members
      ensures NamesKb(hash, j.0, kb)
    {
      if IsLive(s, k) {
        UnindexKbsRows(s.kbIndex, s.now, s.entries[k].payload.kbIds, k, kb);
      }
    }
  }

  lemma {:induction false} DropAllKeepsInv(s: State, ks: seq<Key>, hash: BucketHash, ttl: nat)
    requires Inv(s, hash, ttl)
    ensures Inv(DropAll(s, ks), hash, ttl)
  {
    hide Inv, Drop;
    if ks != [] {
      DropAllKeepsInv(s, ks[..|ks| - 1], hash, ttl);
      DropKeepsInv(DropAll(s, ks[..|ks| - 1]), ks[|ks| - 1], hash, ttl);
    }
  }

  lemma InvalidateKeepsInv(s: State, kbId: string, hash: BucketHash, ttl: nat)
    requires Inv(s, hash, ttl)
    ensures Inv(Invalidate(s, kbId), hash, ttl)
  {
    InvalidateKeepsIndexed(s, kbId);
  }

  lemma NextKeepsInv(s: State, s': State, step: Step, hash: BucketHash, ttl: nat)
    requires ttl > 0 && Inv(s, hash, ttl) && Next(s, s', step, hash, ttl)
    ensures Inv(s', hash, ttl)
  {
    match step
    case Store(kbIds, options, queryHash, payload, maxEntries) =>
      var k := (hash(multiset(kbIds), options), queryHash);
      var stored := Insert(s, k, payload, kbIds, ttl);
      var evicted :| IsEviction(stored, maxEntries, evicted) && s' == DropAll(stored, evicted);
      InsertKeepsInv(s, k, payload, kbIds, ttl, hash);
      DropAllKeepsInv(stored, evicted, hash, ttl);
    case Tick(elapsed) =>
      assert forall k :: IsLive(s', k) ==> IsLive(s, k) && IsIndexed(s, k);
    case InvalidateOne(kbId) =>
      InvalidateKeepsInv(s, kbId, hash, ttl);
    case InvalidateEverything =>
  }

  /** Every state of every run keeps its indexes complete and its buckets honest. */
  lemma {:induction false} RunKeepsInv(states: seq<State>, steps: seq<Step>, hash: BucketHash, ttl: nat, n: nat)
    requires ttl > 0 && IsRun(states, steps, hash, ttl) && n <= |steps|
    ensures Inv(states[n], hash, ttl)
  {
    if n > 0 {
      RunKeepsInv(states, steps, hash, ttl, n - 1);
      NextKeepsInv(states[n - 1], states[n], steps[n - 1], hash, ttl);
    }
  }

  // ---------------------------------------------------------------- invalidation is complete

  /** An invalidation clears exactly the live entries that cover the KB. */
  lemma InvalidationIsExact(s: State, hash: BucketHash, ttl: nat, kbId: string, k: Key)
    requires Injective(hash) && Inv(s, hash, ttl)
    ensures k in Cleared(s, kbId) <==> IsLive(s, k) && kbId in s.entries[k].payload.kbIds
    ensures IsLive(Invalidate(s, kbId), k) <==> IsLive(s, k) && kbId !in s.entries[k].payload.kbIds
  {
    InvalidateKeepsIndexed(s, kbId);
    if IsLive(s, k) && k in Members(s.kbIndex, s.now, kbId) {
      assert HashOf(hash, k.0, multiset(s.entries[k].payload.kbIds));
      assert NamesKb(hash, k.0, kbId);
      var kbs :| HashOf(hash, k.0, kbs) && kbId in kbs;
      assert kbs == multiset(s.entries[k].payload.kbIds);
    }
  }

  /** No live entry covers the KB. */
  ghost predicate NoneCovers(s: State, kbId: string) {
    forall k :: IsLive(s, k) ==> kbId !in s.entries[k].payload.kbIds
  }

  /** A live entry in the bucket of some searched KBs covers each of them. */
  lemma LiveCovers(s: State, hash: BucketHash, ttl: nat, kbIds: seq<string>, options: string, k: Key)
    requires Injective(hash) && Inv(s, hash, ttl) && IsLive(s, k) && k.0 == hash(multiset(kbIds), options)
    ensures forall kb :: kb in kbIds ==> kb in s.entries[k].payload.kbIds
  {
    assert HashOf(hash, k.0, multiset(s.entries[k].payload.kbIds));
    assert multiset(s.entries[k].payload.kbIds) == multiset(kbIds);
    assert forall kb :: kb in kbIds <==> kb in multiset(kbIds);
  }

  /** Then no bucket of a search covering the KB can answer. */
  lemma UncoveredBucket(s: State, hash: BucketHash, ttl: nat, kbId: string, kbIds: seq<string>, options: string, queryHash: string)
    requires Injective(hash) && Inv(s, hash, ttl) && NoneCovers(s, kbId) && kbId in kbIds
    ensures GetEntry(s, hash(multiset(kbIds), options), queryHash) == None
  {
    var k := (hash(multiset(kbIds), options), queryHash);
    if IsLive(s, k) {
      LiveCovers(s, hash, ttl, kbIds, options, k);
    }
  }

  lemma InvalidationClears(s: State, hash: BucketHash, ttl: nat, kbId: string)
    requires Injective(hash) && Inv(s, hash, ttl)
    ensures NoneCovers(Invalidate(s, kbId), kbId)
  {
    forall k | IsLive(Invalidate(s, kbId), k)
      ensures kbId !in Invalidate(s, kbId).entries[k].payload.kbIds
    {
      InvalidationIsExact(s, hash, ttl, kbId, k);
    }
  }

  /** Right after invalidating a KB in any run, no bucket of a search covering it can answer: neither
      its exact entry nor any entry a semantic scan of the bucket would read. */
  lemma InvalidationIsComplete(states: seq<State>, steps: seq<Step>, hash: BucketHash, ttl: nat, n: nat, kbId: string,
                               kbIds: seq<string>, options: string, queryHash: string)
    requires ttl > 0 && Injective(hash) && IsRun(states, steps, hash, ttl) && n <= |steps|
    requires kbId in kbIds
    ensures GetEntry(Invalidate(states[n], kbId), hash(multiset(kbIds), options), queryHash) == None
  {
    RunKeepsInv(states, steps, hash, ttl, n);
    InvalidationClears(states[n], hash, ttl, kbId);
    InvalidateKeepsInv(states[n], kbId, hash, ttl);
    UncoveredBucket(Invalidate(states[n], kbId), hash, ttl, kbId, kbIds, options, queryHash);
  }

  lemma {:induction false} DroppingKeepsNone(s: State, ks: seq<Key>, kbId: string)
    requires NoneCovers(s, kbId)
    ensures NoneCovers(DropAll(s, ks), kbId)
  {
    if ks != [] {
      DroppingKeepsNone(s, ks[..|ks| - 1], kbId);
    }
  }

  /** Only a store for searches covering the KB brings a covering entry. */
  lemma NextKeepsNone(s: State, s': State, step: Step, hash: BucketHash, ttl: nat, kbId: string)
    requires NoneCovers(s, kbId) && Next(s, s', step, hash, ttl)
    requires step.Store? ==> kbId !in step.kbIds
    ensures NoneCovers(s', kbId)
  {
    match step
    case Store(kbIds, options, queryHash, payload, maxEntries) =>
      var stored := Insert(s, (hash(multiset(kbIds), options), queryHash), payload, kbIds, ttl);
      var evicted :| IsEviction(stored, maxEntries, evicted) && s' == DropAll(stored, evicted);
      assert kbId in multiset(payload.kbIds) <==> kbId in multiset(kbIds);
      assert NoneCovers(stored, kbId);
      DroppingKeepsNone(stored, evicted, kbId);
    case Tick(elapsed) =>
      assert forall k :: IsLive(s', k) ==> IsLive(s, k);
    case InvalidateOne(other) =>
      assert forall k :: IsLive(s', k) ==> IsLive(s, k) && s'.entries[k] == s.entries[k];
    case InvalidateEverything =>
  }

  /** From the invalidation of a KB until the next store covering it, no live entry covers it. */
  lemma {:induction false} StaysInvalidated(states: seq<State>, steps: seq<Step>, hash: BucketHash, ttl: nat, m: nat, n: nat, kbId: string)
    requires ttl > 0 && Injective(hash) && IsRun(states, steps, hash, ttl) && m < n <= |steps| && steps[m] == InvalidateOne(kbId)
    requires forall i :: m < i < n && steps[i].Store? ==> kbId !in steps[i].kbIds
    ensures NoneCovers(states[n], kbId)
  {
    if n == m + 1 {
      RunKeepsInv(states, steps, hash, ttl, m);
      InvalidationClears(states[m], hash, ttl, kbId);
    } else {
      StaysInvalidated(states, steps, hash, ttl, m, n - 1, kbId);
      NextKeepsNone(states[n - 1], states[n], steps[n - 1], hash, ttl, kbId);
    }
  }

  // ---------------------------------------------------------------- eviction

  lemma {:induction false} DropAllOrder(s: State, ks: seq<Key>, k: Key)
    ensures k in DropAll(s, ks).order <==> k in s.order && k !in ks
    ensures k in DropAll(s, ks).order ==> DropAll(s, ks).order[k] == s.order[k]
    ensures DropAll(s, ks).now == s.now
  {
    if ks != [] {
      DropAllOrder(s, ks[..|ks| - 1], k);
      assert k in ks <==> k in ks[..|ks| - 1] || k == ks[|ks| - 1];
    }
  }

  /** After eviction a key answers exactly as before if it was not evicted, and not at all if it was. */
  lemma {:induction false} DropAllEntries(s: State, ks: seq<Key>, k: Key)
    ensures GetEntry(DropAll(s, ks), k.0, k.1) == if k in ks then None else GetEntry(s, k.0, k.1)
    ensures DropAll(s, ks).now == s.now
  {
    if ks != [] {
      DropAllEntries(s, ks[..|ks| - 1], k);
      assert k in ks <==> k in ks[..|ks| - 1] || k == ks[|ks| - 1];
    }
  }

  /** Eviction is first-in first-out: no survivor was stored before a victim. */
  lemma EvictionIsFifo(s: State, maxEntries: nat, ks: seq<Key>, victim: Key, survivor: Key)
    requires IsEviction(s, maxEntries, ks)
    requires victim in ks && survivor in s.order && survivor !in ks
    ensures victim in s.order && s.order[victim] <= s.order[survivor]
  {
    var i :| 0 <= i < |ks| && ks[i] == victim;
    DropAllOrder(s, ks[..i], victim);
    DropAllOrder(s, ks[..i], survivor);
  }

  /** With at least one slot, a key stamped after all others is never evicted. */
  lemma LatestSurvives(s: State, maxEntries: nat, ks: seq<Key>, latest: Key)
    requires IsEviction(s, maxEntries, ks) && maxEntries >= 1
    requires latest in s.order && forall j :: j in s.order && j != latest ==> s.order[j] < s.order[latest]
    ensures latest !in ks
  {
    if i :| 0 <= i < |ks| && ks[i] == latest {
      LatestIsOldestAlone(s, ks[..i], latest);
      assert false;
    }
  }

  lemma LatestIsOldestAlone(s: State, ks: seq<Key>, latest: Key)
    requires latest in s.order && forall j :: j in s.order && j != latest ==> s.order[j] < s.order[latest]
    requires IsOldest(DropAll(s, ks).order, latest)
    ensures |DropAll(s, ks).order| == 1
  {
    var order := DropAll(s, ks).order;
    forall j
      ensures j in order.Keys <==> j == latest
    {
      DropAllOrder(s, ks, j);
      DropAllOrder(s, ks, latest);
    }
    assert order.Keys == {latest};
    assert |order| == |order.Keys|;
  }

  /** A store refines a bounded map: the new entry is readable (given a fresh stamp, a slot and a
      TTL), a victim is not, and every other key reads as before. */
  lemma StoreRefinesMap(s: State, k: Key, payload: Payload, kbIds: seq<string>, ttl: nat, maxEntries: nat, evicted: seq<Key>, j: Key)
    requires ttl > 0 && maxEntries >= 1 && forall x :: x in s.order ==> s.order[x] < s.now
    requires IsEviction(Insert(s, k, payload, kbIds, ttl), maxEntries, evicted)
    ensures GetEntry(DropAll(Insert(s, k, payload, kbIds, ttl), evicted), j.0, j.1) ==
      if j == k then Some(payload) else if j in evicted then None else GetEntry(s, j.0, j.1)
  {
    var stored := Insert(s, k, payload, kbIds, ttl);
    LatestSurvives(stored, maxEntries, evicted, k);
    DropAllEntries(stored, evicted, j);
  }

  function LiveKeys(s: State): set<Key> {
    set k | k in s.entries && IsLive(s, k)
  }

  /** After every store, at most `maxEntries` entries are live. */
  lemma StoreBoundsSize(s: State, s': State, step: Step, hash: BucketHash, ttl: nat)
    requires ttl > 0 && Inv(s, hash, ttl) && step.Store? && Next(s, s', step, hash, ttl)
    ensures |LiveKeys(s')| <= step.maxEntries
  {
    NextKeepsInv(s, s', step, hash, ttl);
    assert LiveKeys(s') <= s'.order.Keys;
    SubsetSize(LiveKeys(s'), s'.order.Keys);
  }

  // ---------------------------------------------------------------- why the TTL must not shrink

  /** Two stores into one bucket, the second with a shorter TTL: once the index has expired, the
      first entry is still served, and invalidating its KB does not remove it. */
  lemma ShrinkingTtlLeavesStaleAnswer(p: Payload)
    requires p.kbIds == ["kb"]
    ensures var first := Insert(EMPTY, ("b", "q1"), p, ["kb"], 10);
      var second := Insert(first, ("b", "q2"), p, ["kb"], 1).(now := 5);
      GetEntry(Invalidate(second, "kb"), "b", "q1") == Some(p)
  {
    var first := Insert(EMPTY, ("b", "q1"), p, ["kb"], 10);
    var second := Insert(first, ("b", "q2"), p, ["kb"], 1).(now := 5);
    IndexKbsRows(first.kbIndex, first.now, ["kb"], ("b", "q2"), 1, "kb");
    assert Members(second.kbIndex, 5, "kb") == {};
    assert ("b", "q1") in second.entries;
  }
}
