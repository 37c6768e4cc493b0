/** For which shapes the two auto-merge loops always agree: the coded loop and the documented one give
    the same multiset, whatever the child counts, threshold and depth, exactly when below every stored
    ancestor the hits wait at one level. */
module AutoMergeShapes {
  import opened AutoMerge
  import opened AutoMergeLaws
  import opened AutoMergeSettling
  import opened Wrappers

  // ---------------------------------------------------------------- trees of ancestors

  function StoredParent(t: Table, id: string): Option<string> {
    if id in t && NonEmpty(t[id].parentId) && t[id].parentId.value in t then t[id].parentId else None
  }

  /** The ancestor `n` steps above `id`. */
  function Up(t: Table, id: string, n: nat): Option<string>
    decreases n
  {
    if id !in t then None
    else if n == 0 then Some(id)
    else match StoredParent(t, id)
      case None => None
      case Some(p) => Up(t, p, n - 1)
  }

  lemma {:induction false} UpMore(t: Table, id: string, m: nat, n: nat)
    requires Up(t, id, m).Some?
    ensures Up(t, id, m + n) == Up(t, Up(t, id, m).value, n)
    decreases m
  {
    if m > 0 {
      UpMore(t, StoredParent(t, id).value, m - 1, n);
    }
  }

  lemma {:induction false} UpLevel(t: Table, id: string, n: nat)
    requires Levelled(t) && Up(t, id, n).Some?
    ensures id in t && Up(t, id, n).value in t && t[id].level == t[Up(t, id, n).value].level + n
    decreases n
  {
    if n > 0 {
      UpLevel(t, StoredParent(t, id).value, n - 1);
    }
  }

  /** Some stored ancestor is above both, or is one of them. */
  ghost predicate SameTree(t: Table, x: string, y: string) {
    exists m: nat, n: nat :: Up(t, x, m).Some? && Up(t, x, m) == Up(t, y, n)
  }

  lemma SameTreeTransitive(t: Table, x: string, y: string, z: string)
    requires SameTree(t, x, y) && SameTree(t, y, z)
    ensures SameTree(t, x, z)
  {
    var m: nat, n: nat :| Up(t, x, m).Some? && Up(t, x, m) == Up(t, y, n);
    var k: nat, l: nat :| Up(t, y, k).Some? && Up(t, y, k) == Up(t, z, l);
    if n <= k {
      UpMore(t, y, n, k - n);
      UpMore(t, x, m, k - n);
      assert Up(t, x, m + (k - n)) == Up(t, z, l);
    } else {
      UpMore(t, y, k, n - k);
      UpMore(t, z, l, n - k);
      assert Up(t, x, m) == Up(t, z, l + (n - k));
    }
  }

  lemma SameTreeSymmetric(t: Table, x: string, y: string)
    requires SameTree(t, x, y)
    ensures SameTree(t, y, x)
  {
    var m: nat, n: nat :| Up(t, x, m).Some? && Up(t, x, m) == Up(t, y, n);
    assert Up(t, y, n) == Up(t, x, m);
  }

  lemma SameTreeAsParent(t: Table, id: string)
    requires StoredParent(t, id).Some?
    ensures SameTree(t, id, StoredParent(t, id).value)
  {
    assert Up(t, id, 1) == Up(t, StoredParent(t, id).value, 0);
  }

  /** Where a grouped hit waits. */
  function Place(t: Table, h: Hit): string
    requires Grouped(t, h)
  {
    ParentOf(t, h).value
  }

  /** Hits below a common stored ancestor wait at one level. */
  ghost predicate OneLevelPerTree(t: Table, hs: seq<Hit>) {
    forall g, h :: g in hs && h in hs && Grouped(t, g) && Grouped(t, h) && SameTree(t, Place(t, g), Place(t, h)) ==>
      t[Place(t, g)].level == t[Place(t, h)].level
  }

  // ---------------------------------------------------------------- one level per tree suffices

  ghost predicate WaitsIn(t: Table, hs: seq<Hit>, id: string, h: Hit) {
    h in hs && Grouped(t, h) && SameTree(t, id, Place(t, h))
  }

  /** The level of the hits in the tree of `id`. */
  ghost function LevelIn(t: Table, hs: seq<Hit>, id: string): int {
    if exists h :: WaitsIn(t, hs, id, h) then
      var h :| WaitsIn(t, hs, id, h);
      t[Place(t, h)].level
    else 0
  }

  lemma LevelInIs(t: Table, hs: seq<Hit>, id: string, h: Hit)
    requires OneLevelPerTree(t, hs) && WaitsIn(t, hs, id, h)
    ensures LevelIn(t, hs, id) == t[Place(t, h)].level
  {
    forall g | WaitsIn(t, hs, id, g)
      ensures t[Place(t, g)].level == t[Place(t, h)].level
    {
      SameTreeSymmetric(t, id, Place(t, g));
      SameTreeTransitive(t, Place(t, g), id, Place(t, h));
    }
  }

  ghost function LevelClock(t: Table, hs: seq<Hit>): Clock {
    (id: string) => LevelIn(t, hs, id)
  }

  lemma LevelClockIsSteady(t: Table, hs: seq<Hit>)
    requires OneLevelPerTree(t, hs)
    ensures Steady(t, LevelClock(t, hs)) && WaitsAt(t, LevelClock(t, hs), hs)
  {
    forall id | id in t && NonEmpty(t[id].parentId) && t[id].parentId.value in t
      ensures LevelIn(t, hs, t[id].parentId.value) == LevelIn(t, hs, id)
    {
      var p := t[id].parentId.value;
      SameTreeAsParent(t, id);
      SameTreeSymmetric(t, id, p);
      forall h
        ensures WaitsIn(t, hs, id, h) <==> WaitsIn(t, hs, p, h)
      {
        if WaitsIn(t, hs, id, h) {
          SameTreeTransitive(t, p, id, Place(t, h));
        }
        if WaitsIn(t, hs, p, h) {
          SameTreeTransitive(t, id, p, Place(t, h));
        }
      }
      if h :| WaitsIn(t, hs, id, h) {
        LevelInIs(t, hs, id, h);
        LevelInIs(t, hs, p, h);
      }
    }
    forall h | h in hs && Grouped(t, h)
      ensures t[Place(t, h)].level == LevelIn(t, hs, Place(t, h))
    {
      assert Up(t, Place(t, h), 0) == Up(t, Place(t, h), 0);
      LevelInIs(t, hs, Place(t, h), h);
    }
  }

  /** When the hits below every common ancestor wait at one level, the loop as coded gives the same
      multiset of results as the documented loop. */
  lemma CodedMatchesDocumented(t: Table, threshold: real, rs: seq<QueryResult>, maxDepth: nat)
    requires Levelled(t) && OneLevelPerTree(t, Leaves(rs))
    ensures multiset(Merge(t, threshold, rs, maxDepth)) == multiset(Settle(t, threshold, Leaves(rs), [], maxDepth))
  {
    LevelClockIsSteady(t, Leaves(rs));
    LoopsAgreeByClock(t, threshold, LevelClock(t, Leaves(rs)), rs, maxDepth);
  }
}
