/** The converse: hits at two levels below one ancestor admit child counts, a threshold and a depth for
    which the two loops differ. Hence the exact shapes on which they always agree. */
module AutoMergeRigging {
  import opened AutoMerge
  import opened AutoMergeLaws
  import opened AutoMergeRetry
  import opened AutoMergeSettling
  import opened AutoMergeShapes
  import opened Wrappers

  // ---------------------------------------------------------------- shapes

  /** The same ancestors, parents and levels; child counts and texts may differ. */
  ghost predicate SameShape(t: Table, t': Table) {
    t'.Keys == t.Keys && forall id :: id in t ==> t'[id].parentId == t[id].parentId && t'[id].level == t[id].level
  }

  lemma {:induction false} ShapeKeepsUp(t: Table, t': Table, id: string, n: nat)
    requires SameShape(t, t')
    ensures Up(t', id, n) == Up(t, id, n)
    decreases n
  {
    if id in t && n > 0 && StoredParent(t, id).Some? {
      ShapeKeepsUp(t, t', StoredParent(t, id).value, n - 1);
    }
  }

  lemma ShapeKeepsTrees(t: Table, t': Table, x: string, y: string)
    requires SameShape(t, t')
    ensures SameTree(t', x, y) <==> SameTree(t, x, y)
  {
    forall id, n: nat
      ensures Up(t', id, n) == Up(t, id, n)
    {
      ShapeKeepsUp(t, t', id, n);
    }
  }

  lemma ShapeKeepsLevels(t: Table, t': Table, rs: seq<QueryResult>)
    requires SameShape(t, t') && Levelled(t)
    ensures Levelled(t') && (OneLevelPerTree(t', Leaves(rs)) <==> OneLevelPerTree(t, Leaves(rs)))
  {
    LeavesAreLeaves(rs);
    forall x, y
      ensures SameTree(t', x, y) <==> SameTree(t, x, y)
    {
      ShapeKeepsTrees(t, t', x, y);
    }
    assert forall h :: h in Leaves(rs) ==> (Grouped(t', h) <==> Grouped(t, h)) && (Grouped(t, h) ==> Place(t', h) == Place(t, h));
  }

  lemma {:induction false} ShapeKeepsGroups(t: Table, t': Table, hs: seq<Hit>, id: string)
    requires SameShape(t, t') && forall h :: h in hs ==> h.Leaf?
    ensures Children(t', hs, id) == Children(t, hs, id)
  {
    if hs != [] {
      ShapeKeepsGroups(t, t', hs[..|hs| - 1], id);
      assert hs[|hs| - 1] in hs;
    }
  }

  // ---------------------------------------------------------------- hits at two distances

  /** Hit `h` waits `n` steps below `top`. */
  ghost predicate Below(t: Table, hs: seq<Hit>, h: Hit, top: string, n: nat) {
    h in hs && Grouped(t, h) && Up(t, Place(t, h), n) == Some(top)
  }

  ghost predicate SomeBelow(t: Table, hs: seq<Hit>, top: string, n: nat) {
    exists h :: Below(t, hs, h, top, n)
  }

  ghost predicate Mixed(t: Table, hs: seq<Hit>, top: string) {
    top in t && exists m: nat, n: nat :: m < n && SomeBelow(t, hs, top, m) && SomeBelow(t, hs, top, n)
  }

  lemma BelowLevel(t: Table, hs: seq<Hit>, h: Hit, top: string, n: nat)
    requires Levelled(t) && Below(t, hs, h, top, n)
    ensures top in t && t[Place(t, h)].level == t[top].level + n
  {
    UpLevel(t, Place(t, h), n);
  }

  lemma SomeIsMixed(t: Table, hs: seq<Hit>) returns (top: string)
    requires Levelled(t) && !OneLevelPerTree(t, hs)
    ensures Mixed(t, hs, top)
  {
    var g, h :| g in hs && h in hs && Grouped(t, g) && Grouped(t, h) && SameTree(t, Place(t, g), Place(t, h))
                && t[Place(t, g)].level != t[Place(t, h)].level;
    var m: nat, n: nat :| Up(t, Place(t, g), m).Some? && Up(t, Place(t, g), m) == Up(t, Place(t, h), n);
    top := Up(t, Place(t, g), m).value;
    assert Below(t, hs, g, top, m) && Below(t, hs, h, top, n);
    BelowLevel(t, hs, g, top, m);
    BelowLevel(t, hs, h, top, n);
    assert SomeBelow(t, hs, top, m) && SomeBelow(t, hs, top, n);
  }

  lemma {:induction false} DeepestOf(t: Table, ids: set<string>) returns (deepest: string)
    requires ids != {} && ids <= t.Keys
    ensures deepest in ids && forall id :: id in ids ==> t[id].level <= t[deepest].level
    decreases |ids|
  {
    deepest :| deepest in ids;
    var rest := ids - {deepest};
    if rest != {} {
      var other := DeepestOf(t, rest);
      if t[other].level > t[deepest].level {
        deepest := other;
      }
    }
  }

  /** A deepest ancestor with hits at two distances. */
  lemma DeepestMixed(t: Table, hs: seq<Hit>) returns (top: string)
    requires Levelled(t) && !OneLevelPerTree(t, hs)
    ensures Mixed(t, hs, top) && forall id :: Mixed(t, hs, id) ==> t[id].level <= t[top].level
  {
    var some := SomeIsMixed(t, hs);
    var ids := set id | id in t && Mixed(t, hs, id);
    assert some in ids;
    top := DeepestOf(t, ids);
  }

  lemma {:induction false} LeastBelow(t: Table, hs: seq<Hit>, top: string, n: nat) returns (m: nat)
    requires SomeBelow(t, hs, top, n)
    ensures m <= n && SomeBelow(t, hs, top, m) && forall k: nat :: k < m ==> !SomeBelow(t, hs, top, k)
    decreases n
  {
    if k: nat :| k < n && SomeBelow(t, hs, top, k) {
      m := LeastBelow(t, hs, top, k);
    } else {
      m := n;
    }
  }

  // ---------------------------------------------------------------- the ladders

  function Rungs(t: Table, id: string, n: nat): seq<string> {
    seq(n, i requires 0 <= i < n => if Up(t, id, i).Some? then Up(t, id, i).value else "")
  }

  lemma RungsClimb(t: Table, id: string, top: string, n: nat, i: nat)
    requires Levelled(t) && Up(t, id, n) == Some(top) && i < n
    ensures Up(t, id, i) == Some(Rungs(t, id, n)[i]) && Rungs(t, id, n)[i] in t
    ensures StoredParent(t, Rungs(t, id, n)[i]) == Some(Next(Rungs(t, id, n), i, top))
    ensures top in t && t[Rungs(t, id, n)[i]].level == t[top].level + (n - i)
  {
    UpPrefix(t, id, i, n - i);
    UpPrefix(t, id, i + 1, n - i - 1);
    UpMore(t, id, i, 1);
    UpMore(t, id, i, n - i);
    UpLevel(t, Rungs(t, id, n)[i], n - i);
  }

  lemma {:induction false} UpPrefix(t: Table, id: string, m: nat, n: nat)
    requires Up(t, id, m + n).Some?
    ensures Up(t, id, m).Some?
    decreases m
  {
    if m > 0 {
      UpPrefix(t, StoredParent(t, id).value, m - 1, n);
    }
  }

  /** The child counts that set the loops against each other. */
  function Reshape(t: Table, size: nat, top: string, long: seq<string>, short: seq<string>, few: nat): Table {
    map id | id in t :: t[id].(childCount := if id == top then few + 1 else if id in long || id in short then 1 else size + 1)
  }

  lemma RungsAreLadder(t: Table, size: nat, top: string, id: string, n: nat, long: seq<string>, short: seq<string>, few: nat)
    requires Levelled(t) && Up(t, id, n) == Some(top) && (Rungs(t, id, n) == long || Rungs(t, id, n) == short)
    ensures IsLadder(Reshape(t, size, top, long, short, few), Rungs(t, id, n), top)
  {
    hide Up, StoredParent;
    var ladder, t' := Rungs(t, id, n), Reshape(t, size, top, long, short, few);
    UpLevel(t, id, n);
    forall i | 0 <= i < n
      ensures ladder[i] in t && t[ladder[i]].level == t[top].level + (n - i) && ladder[i] != top
      ensures StoredParent(t', ladder[i]) == Some(Next(ladder, i, top))
    {
      RungsClimb(t, id, top, n, i);
      ReshapeKeepsParent(t, size, top, long, short, few, ladder[i]);
    }
  }

  lemma ReshapeKeepsParent(t: Table, size: nat, top: string, long: seq<string>, short: seq<string>, few: nat, id: string)
    ensures StoredParent(Reshape(t, size, top, long, short, few), id) == StoredParent(t, id)
  {
  }

  /** What makes `top` a deepest mixed ancestor: hit `g` nearest, hit `h` farther. */
  ghost predicate IsRace(t: Table, hs: seq<Hit>, top: string, g: Hit, m: nat, h: Hit, n: nat) {
    && Levelled(t) && (forall id :: Mixed(t, hs, id) ==> id in t && top in t && t[id].level <= t[top].level)
    && m < n && Below(t, hs, g, top, m) && Below(t, hs, h, top, n)
    && forall k: nat :: k < m ==> !SomeBelow(t, hs, top, k)
  }

  /** No ancestor deeper than the top has hits at two distances. */
  lemma NoneDeeper(t: Table, hs: seq<Hit>, top: string, g: Hit, m: nat, h: Hit, n: nat, a: Hit, i: nat, b: Hit, k: nat, x: string)
    requires IsRace(t, hs, top, g, m, h, n) && Below(t, hs, a, x, i) && Below(t, hs, b, x, k) && i != k
    requires x in t && top in t
    ensures t[x].level <= t[top].level
  {
    assert SomeBelow(t, hs, x, i) && SomeBelow(t, hs, x, k);
    assert Mixed(t, hs, x);
  }

  /** Only the first rung of a hit's ladder has hits. */
  lemma LadderStarts(t: Table, hs: seq<Hit>, top: string, g: Hit, m: nat, h: Hit, n: nat, a: Hit, d: nat, i: nat)
    requires IsRace(t, hs, top, g, m, h, n) && Below(t, hs, a, top, d) && i < d
    ensures Children(t, hs, Rungs(t, Place(t, a), d)[i]) != [] <==> i == 0
  {
    var x := Rungs(t, Place(t, a), d)[i];
    RungsClimb(t, Place(t, a), top, d, i);
    if i == 0 {
      GroupHas(t, hs, a);
    } else if Children(t, hs, x) != [] {
      var kid := Children(t, hs, x)[0];
      assert Below(t, hs, kid, x, 0) && Below(t, hs, a, x, i);
      NoneDeeper(t, hs, top, g, m, h, n, kid, 0, a, i, x);
    }
  }

  lemma {:induction false} GroupHas(t: Table, hs: seq<Hit>, h: Hit)
    requires h in hs && Grouped(t, h)
    ensures h in Children(t, hs, Place(t, h))
  {
    var front, last := hs[..|hs| - 1], hs[|hs| - 1];
    assert hs == front + [last];
    if h in front {
      GroupHas(t, front, h);
    }
  }

  /** The two ladders share no rung. */
  lemma LaddersApart(t: Table, hs: seq<Hit>, top: string, g: Hit, m: nat, h: Hit, n: nat, i: nat, k: nat)
    requires IsRace(t, hs, top, g, m, h, n) && i < n && k < m
    ensures Rungs(t, Place(t, h), n)[i] != Rungs(t, Place(t, g), m)[k]
  {
    var x, y := Rungs(t, Place(t, h), n)[i], Rungs(t, Place(t, g), m)[k];
    RungsClimb(t, Place(t, h), top, n, i);
    RungsClimb(t, Place(t, g), top, m, k);
    if x == y {
      assert Below(t, hs, h, x, i) && Below(t, hs, g, x, k);
      NoneDeeper(t, hs, top, g, m, h, n, h, i, g, k, x);
    }
  }

  lemma RaceIsScene(t: Table, hs: seq<Hit>, top: string, g: Hit, m: nat, h: Hit, n: nat)
    returns (t': Table, long: seq<string>, short: seq<string>, few: nat)
    requires IsRace(t, hs, top, g, m, h, n) && forall x :: x in hs ==> x.Leaf?
    ensures SameShape(t, t') && |long| == n && |short| == m && Scene(t', |hs|, top, long, short, few, hs, 0)
    ensures |Children(t', hs, top)| == (if |short| == 0 then few else 0) && (|short| > 0 ==> few == 1)
  {
    hide Children, Up, StoredParent, Grouped, IsLadder, Below, SomeBelow, Mixed, Levelled, Rungs;
    RaceFacts(t, hs, top, g, m, h, n);
    long, short := Rungs(t, Place(t, h), n), Rungs(t, Place(t, g), m);
    few := if m == 0 then |Children(t, hs, top)| else 1;
    t' := Reshape(t, |hs|, top, long, short, few);
    RungsAreLadder(t, |hs|, top, Place(t, h), n, long, short, few);
    RungsAreLadder(t, |hs|, top, Place(t, g), m, long, short, few);
    forall x | x in long
      ensures x !in short
    {
      var i :| 0 <= i < |long| && long[i] == x;
      forall k | 0 <= k < |short|
        ensures short[k] != x
      {
        LaddersApart(t, hs, top, g, m, h, n, i, k);
      }
    }
    forall i | 0 <= i < n
      ensures Children(t', hs, long[i]) != [] <==> i == 0
    {
      LadderStarts(t, hs, top, g, m, h, n, h, n, i);
      ShapeKeepsGroups(t, t', hs, long[i]);
    }
    forall i | 0 <= i < m
      ensures Children(t', hs, short[i]) != [] <==> i == 0
    {
      LadderStarts(t, hs, top, g, m, h, n, g, m, i);
      ShapeKeepsGroups(t, t', hs, short[i]);
    }
    ShapeKeepsGroups(t, t', hs, top);
  }

  lemma RaceFacts(t: Table, hs: seq<Hit>, top: string, g: Hit, m: nat, h: Hit, n: nat)
    requires IsRace(t, hs, top, g, m, h, n)
    ensures top in t && Grouped(t, g) && Grouped(t, h) && Levelled(t)
    ensures Below(t, hs, g, top, m) && Below(t, hs, h, top, n) && m < n
    ensures Up(t, Place(t, g), m) == Some(top) && Up(t, Place(t, h), n) == Some(top)
    ensures |Rungs(t, Place(t, h), n)| == n && |Rungs(t, Place(t, g), m)| == m
    ensures m == 0 <==> Children(t, hs, top) != []
  {
    BelowLevel(t, hs, g, top, m);
    if m == 0 {
      GroupHas(t, hs, g);
    } else if Children(t, hs, top) != [] {
      var kid := Children(t, hs, top)[0];
      assert Below(t, hs, kid, top, 0);
      assert SomeBelow(t, hs, top, 0);
    }
  }

  // ---------------------------------------------------------------- the exact shapes

  /** Hits at two levels below one ancestor: with these child counts, threshold 1 and this depth, the
      coded loop merges an ancestor that the documented loop leaves apart. */
  lemma LoopsDifferOnMixedTrees(t: Table, rs: seq<QueryResult>) returns (t': Table, depth: nat)
    requires Levelled(t) && !OneLevelPerTree(t, Leaves(rs))
    ensures SameShape(t, t')
    ensures multiset(Merge(t', 1.0, rs, depth)) != multiset(Settle(t', 1.0, Leaves(rs), [], depth))
  {
    hide Children, Up, Climb, Settle, OneLevelPerTree, Levelled, SameShape, Scene, Grouped;
    var hs := Leaves(rs);
    LeavesAreLeaves(rs);
    var top, g, m, h, n := FindRace(t, hs);
    var long, short, few;
    t', long, short, few := RaceIsScene(t, hs, top, g, m, h, n);
    depth := |long| + 1;
    CodedMergesTop(t', |hs|, top, long, short, few, hs, [], 0);
    DocumentedLeavesTop(t', |hs|, top, long, short, few, hs, [], 0, depth);
    var coded, documented := Merge(t', 1.0, rs, depth), Settle(t', 1.0, hs, [], depth);
    var node :| node in coded && node.Node? && node.id == top;
    assert node in multiset(coded) && node !in multiset(documented);
  }

  lemma FindRace(t: Table, hs: seq<Hit>) returns (top: string, g: Hit, m: nat, h: Hit, n: nat)
    requires Levelled(t) && !OneLevelPerTree(t, hs)
    ensures IsRace(t, hs, top, g, m, h, n)
  {
    top := DeepestMixed(t, hs);
    var near: nat, far: nat :| near < far && SomeBelow(t, hs, top, near) && SomeBelow(t, hs, top, far);
    m := LeastBelow(t, hs, top, near);
    n := far;
    g :| Below(t, hs, g, top, m);
    h :| Below(t, hs, h, top, n);
  }

  /** Whatever the child counts, threshold and depth, the two loops agree. */
  ghost predicate LoopsAlwaysAgree(t: Table, rs: seq<QueryResult>) {
    forall t', threshold, depth: nat :: SameShape(t, t') ==>
      multiset(Merge(t', threshold, rs, depth)) == multiset(Settle(t', threshold, Leaves(rs), [], depth))
  }

  /** The loop as coded gives the documented results on a forest, for all child counts, thresholds and
      depths, if and only if the hits below every common ancestor wait at one level. */
  lemma LoopsAgreeIff(t: Table, rs: seq<QueryResult>)
    requires Levelled(t)
    ensures LoopsAlwaysAgree(t, rs) <==> OneLevelPerTree(t, Leaves(rs))
  {
    hide Merge, Settle, OneLevelPerTree, Levelled, SameShape;
    if OneLevelPerTree(t, Leaves(rs)) {
      forall t', threshold, depth: nat | SameShape(t, t')
        ensures multiset(Merge(t', threshold, rs, depth)) == multiset(Settle(t', threshold, Leaves(rs), [], depth))
      {
        ShapeKeepsLevels(t, t', rs);
        CodedMatchesDocumented(t', threshold, rs, depth);
      }
    } else {
      var t', depth := LoopsDifferOnMixedTrees(t, rs);
    }
  }
}
