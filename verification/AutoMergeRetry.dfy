/** Why hits at two levels under one ancestor matter: child counts under which the coded loop, which
    retries a failed group when later arrivals join it, merges an ancestor the documented loop never does. */
module AutoMergeRetry {
  import opened AutoMerge
  import opened AutoMergeLaws
  import opened AutoMergeSettling
  import opened AutoMergeShapes
  import opened Wrappers

  // ---------------------------------------------------------------- group sizes over one round

  /** How many of the ancestors `ids` merge and then wait under `id`. */
  function Arrivals(t: Table, hs: seq<Hit>, ids: seq<string>, id: string): nat
    requires forall x :: x in ids ==> x in t
  {
    if ids == [] then 0
    else Arrivals(t, hs, ids[..|ids| - 1], id) + (if Arrives(t, hs, ids[|ids| - 1], id) then 1 else 0)
  }

  /** With threshold 1, `x` merges, and its parent is the stored `id`. */
  predicate Arrives(t: Table, hs: seq<Hit>, x: string, id: string)
    requires x in t
  {
    Full(t, hs, x) && StoredParent(t, x) == Some(id)
  }

  predicate Full(t: Table, hs: seq<Hit>, x: string)
    requires x in t
  {
    |Children(t, hs, x)| >= t[x].childCount
  }

  lemma MeetsOne(t: Table, x: string, count: nat)
    requires x in t
    ensures Meets(t, 1.0, x, count) <==> count >= t[x].childCount
  {
    var c := t[x].childCount as real;
    assert count as real / c * c == count as real;
    if count as real / c >= 1.0 {
      assert (count as real / c - 1.0) * c >= 0.0;
    } else {
      assert (1.0 - count as real / c) * c > 0.0;
    }
  }

  /** The group of `id` after a coded round: what failed, and what arrives; after a documented round,
      only what arrives. */
  lemma {:induction false} GroupAfter(t: Table, hs: seq<Hit>, ids: seq<string>, id: string)
    requires Distinct(ids) && id in t && forall x :: x in ids ==> x in t
    ensures |Children(t, MergeGroups(t, 1.0, hs, ids), id)|
         == (if id in ids && !Full(t, hs, id) then |Children(t, hs, id)| else 0) + Arrivals(t, hs, ids, id)
    ensures |Children(t, NewNodes(t, 1.0, hs, ids), id)| == Arrivals(t, hs, ids, id)
  {
    hide Children, StoredParent, Meets, Grouped;
    if ids == [] {
      ChildrenOfOthers(t, [], id);
    } else {
      var front, x := ids[..|ids| - 1], ids[|ids| - 1];
      var kids := Children(t, hs, x);
      GroupAfter(t, hs, front, id);
      MeetsOne(t, x, |kids|);
      ChildrenConcat(t, MergeGroups(t, 1.0, hs, front), MergeGroup(t, 1.0, x, kids), id);
      if Full(t, hs, x) {
        ChildrenConcat(t, NewNodes(t, 1.0, hs, front), [Node(x, kids)], id);
        NodeGroup(t, x, kids, id);
      } else if x == id {
        ChildrenOfOwn(t, kids, id);
      } else {
        ChildrenOfOthers(t, kids, id);
      }
    }
  }

  lemma NodeGroup(t: Table, x: string, kids: seq<Hit>, id: string)
    requires x in t && id in t
    ensures |Children(t, [Node(x, kids)], id)| == if StoredParent(t, x) == Some(id) then 1 else 0
  {
    assert [Node(x, kids)][..0] == [];
  }

  lemma {:induction false} NoArrivals(t: Table, hs: seq<Hit>, ids: seq<string>, id: string)
    requires forall x :: x in ids ==> x in t && !Arrives(t, hs, x, id)
    ensures Arrivals(t, hs, ids, id) == 0
  {
    hide Arrives;
    if ids != [] {
      NoArrivals(t, hs, ids[..|ids| - 1], id);
    }
  }

  lemma {:induction false} OneArrival(t: Table, hs: seq<Hit>, ids: seq<string>, id: string, only: string)
    requires Distinct(ids) && (forall x :: x in ids ==> x in t) && only in ids && Arrives(t, hs, only, id)
    requires forall x :: x in ids && x != only ==> !Arrives(t, hs, x, id)
    ensures Arrivals(t, hs, ids, id) == 1
  {
    hide Arrives;
    var front, last := ids[..|ids| - 1], ids[|ids| - 1];
    if last == only {
      assert only !in front;
      NoArrivals(t, hs, front, id);
    } else {
      assert ids == front + [last];
      OneArrival(t, hs, front, id, only);
    }
  }

  // ---------------------------------------------------------------- sizes

  lemma {:induction false} GroupFits(t: Table, hs: seq<Hit>, id: string)
    ensures |Children(t, hs, id)| <= |hs|
  {
    if hs != [] {
      GroupFits(t, hs[..|hs| - 1], id);
    }
  }

  lemma {:induction false} RoundShrinks(t: Table, hs: seq<Hit>, ids: seq<string>)
    requires forall x :: x in ids ==> x in t && Children(t, hs, x) != []
    ensures |NewNodes(t, 1.0, hs, ids)| <= |MergeGroups(t, 1.0, hs, ids)| <= |Regroup(t, hs, ids)|
  {
    hide Children;
    if ids != [] {
      RoundShrinks(t, hs, ids[..|ids| - 1]);
    }
  }

  lemma ActiveShrinks(t: Table, hs: seq<Hit>)
    ensures var ids := GroupIds(t, hs);
      |NewNodes(t, 1.0, hs, ids)| <= |hs| && |MergeGroups(t, 1.0, hs, ids)| <= |hs|
  {
    hide Children, GroupIds, NewNodes, MergeGroups, Regroup, Passthrough;
    GroupIdsSound(t, hs);
    RoundShrinks(t, hs, GroupIds(t, hs));
    RegroupPermutes(t, hs);
    assert |multiset(Passthrough(t, hs))| + |multiset(Regroup(t, hs, GroupIds(t, hs)))| == |multiset(hs)|;
  }

  // ---------------------------------------------------------------- two ladders

  function Next(ladder: seq<string>, i: nat, top: string): string
    requires i < |ladder|
  {
    if i + 1 < |ladder| then ladder[i + 1] else top
  }

  /** Ancestors one above the other up to just below `top`, each with child count 1. */
  ghost predicate IsLadder(t: Table, ladder: seq<string>, top: string) {
    && Distinct(ladder) && top !in ladder
    && forall i :: 0 <= i < |ladder| ==>
         ladder[i] in t && t[ladder[i]].childCount == 1 && StoredParent(t, ladder[i]) == Some(Next(ladder, i, top))
  }

  /** A ladder leads only to its own rungs, and to the top from its last. */
  lemma NextStays(t: Table, ladder: seq<string>, top: string)
    requires IsLadder(t, ladder, top)
    ensures forall i :: 0 <= i < |ladder| ==> (Next(ladder, i, top) == top <==> i + 1 == |ladder|)
    ensures forall i :: 0 <= i < |ladder| ==> Next(ladder, i, top) == top || Next(ladder, i, top) in ladder
  {
  }

  /** Two ladders of different height below `top`, which merges with one more child than `few`; nothing
      else ever merges among at most `size` hits. */
  ghost predicate Rigged(t: Table, size: nat, top: string, long: seq<string>, short: seq<string>, few: nat) {
    && top in t && few >= 1 && t[top].childCount == few + 1 && |short| < |long|
    && IsLadder(t, long, top) && IsLadder(t, short, top) && (forall x :: x in long ==> x !in short)
    && forall id :: id in t && id != top && id !in long && id !in short ==> t[id].childCount > size
  }

  /** Of the ladder's groups, only that of rung `j` has members. */
  ghost predicate OnRung(t: Table, hs: seq<Hit>, ladder: seq<string>, j: nat) {
    forall i :: 0 <= i < |ladder| ==> (Children(t, hs, ladder[i]) != [] <==> i == j)
  }

  lemma FullIsRigged(t: Table, size: nat, top: string, long: seq<string>, short: seq<string>, few: nat, hs: seq<Hit>, x: string)
    requires Rigged(t, size, top, long, short, few) && |hs| <= size && x in t && Full(t, hs, x)
    ensures x == top || x in long || x in short
  {
    GroupFits(t, hs, x);
  }

  /** What the ladders look like in one state of either loop. */
  ghost predicate Scene(t: Table, size: nat, top: string, long: seq<string>, short: seq<string>, few: nat, hs: seq<Hit>, j: nat) {
    && Rigged(t, size, top, long, short, few) && |hs| <= size
    && OnRung(t, hs, long, j) && OnRung(t, hs, short, j)
  }

  lemma SenderIsBelow(t: Table, hs: seq<Hit>, ladder: seq<string>, top: string, x: string, i: nat, j: nat)
    requires IsLadder(t, ladder, top) && OnRung(t, hs, ladder, j) && i < |ladder|
    requires x in ladder && Children(t, hs, x) != [] && StoredParent(t, x) == Some(ladder[i])
    ensures i == j + 1 && x == ladder[j]
  {
    hide Children, StoredParent;
    var k :| 0 <= k < |ladder| && ladder[k] == x;
    assert Next(ladder, k, top) == ladder[i] != top;
  }

  lemma NotTop(t: Table, ladder: seq<string>, top: string, i: nat)
    requires IsLadder(t, ladder, top) && i < |ladder|
    ensures ladder[i] != top
  {
  }

  lemma RungSends(t: Table, hs: seq<Hit>, ladder: seq<string>, top: string, j: nat)
    requires IsLadder(t, ladder, top) && OnRung(t, hs, ladder, j) && j < |ladder|
    ensures ladder[j] in t && Children(t, hs, ladder[j]) != [] && Arrives(t, hs, ladder[j], Next(ladder, j, top))
  {
    hide Children, StoredParent;
  }

  lemma NotASender(t: Table, other: seq<string>, top: string, x: string, y: string)
    requires IsLadder(t, other, top) && x in other && y !in other && y != top
    ensures StoredParent(t, x) != Some(y)
  {
    hide StoredParent;
    var k :| 0 <= k < |other| && other[k] == x;
    assert Next(other, k, top) == top || Next(other, k, top) in other;
  }

  /** Only the rung below has anything to send to a rung, and only when it is its turn. */
  lemma RungArrivals(t: Table, size: nat, top: string, long: seq<string>, short: seq<string>, few: nat, hs: seq<Hit>, j: nat,
                     ladder: seq<string>, other: seq<string>, i: nat)
    requires Scene(t, size, top, long, short, few, hs, j) && !Full(t, hs, top)
    requires (ladder == long && other == short) || (ladder == short && other == long)
    requires i < |ladder|
    ensures Arrivals(t, hs, GroupIds(t, hs), ladder[i]) == if i == j + 1 then 1 else 0
  {
    hide Children, GroupIds, StoredParent, Rigged, IsLadder, OnRung, Arrivals;
    var ids, id := GroupIds(t, hs), ladder[i];
    GroupIdsSound(t, hs);
    RiggedLadders(t, size, top, long, short, few);
    assert id in ladder && id !in other && id != top by { NotTop(t, ladder, top, i); }
    forall x | x in ids && Arrives(t, hs, x, id)
      ensures i == j + 1 && x == ladder[j]
    {
      FullIsRigged(t, size, top, long, short, few, hs, x);
      if x in other {
        NotASender(t, other, top, x, id);
      } else {
        SenderIsBelow(t, hs, ladder, top, x, i, j);
      }
    }
    if i == j + 1 {
      RungSends(t, hs, ladder, top, j);
      OneArrival(t, hs, ids, id, ladder[j]);
    } else {
      NoArrivals(t, hs, ids, id);
    }
  }

  lemma RiggedLadders(t: Table, size: nat, top: string, long: seq<string>, short: seq<string>, few: nat)
    requires Rigged(t, size, top, long, short, few)
    ensures IsLadder(t, long, top) && IsLadder(t, short, top) && top in t && |short| < |long|
    ensures forall x :: x in long ==> x !in short
  {
  }

  /** The top gets one arrival when either ladder's last rung merges. */
  lemma TopArrivals(t: Table, size: nat, top: string, long: seq<string>, short: seq<string>, few: nat, hs: seq<Hit>, j: nat)
    requires Scene(t, size, top, long, short, few, hs, j) && !Full(t, hs, top)
    ensures Arrivals(t, hs, GroupIds(t, hs), top) == if j + 1 == |long| || j + 1 == |short| then 1 else 0
  {
    hide Children, GroupIds, StoredParent, Rigged;
    var ids := GroupIds(t, hs);
    GroupIdsSound(t, hs);
    RiggedLadders(t, size, top, long, short, few);
    NextStays(t, long, top);
    NextStays(t, short, top);
    forall x | x in ids && Arrives(t, hs, x, top)
      ensures (j + 1 == |long| && x == long[j]) || (j + 1 == |short| && x == short[j])
    {
      FullIsRigged(t, size, top, long, short, few, hs, x);
      var ladder := if x in long then long else short;
      var k :| 0 <= k < |ladder| && ladder[k] == x;
    }
    if j + 1 == |long| {
      assert long[j] in ids && Arrives(t, hs, long[j], top);
      OneArrival(t, hs, ids, top, long[j]);
    } else if j + 1 == |short| {
      assert short[j] in ids && Arrives(t, hs, short[j], top);
      OneArrival(t, hs, ids, top, short[j]);
    } else {
      NoArrivals(t, hs, ids, top);
    }
  }

  /** One round of either loop moves both ladders up one rung. */
  lemma LadderMoves(t: Table, size: nat, top: string, long: seq<string>, short: seq<string>, few: nat, hs: seq<Hit>, j: nat,
                    ladder: seq<string>, other: seq<string>)
    requires Scene(t, size, top, long, short, few, hs, j) && !Full(t, hs, top)
    requires (ladder == long && other == short) || (ladder == short && other == long)
    ensures OnRung(t, MergeGroups(t, 1.0, hs, GroupIds(t, hs)), ladder, j + 1)
    ensures OnRung(t, NewNodes(t, 1.0, hs, GroupIds(t, hs)), ladder, j + 1)
  {
    hide Children, GroupIds, MergeGroups, NewNodes, StoredParent, Rigged, Arrivals;
    var ids := GroupIds(t, hs);
    GroupIdsSound(t, hs);
    RiggedLadders(t, size, top, long, short, few);
    forall i | 0 <= i < |ladder|
      ensures Children(t, MergeGroups(t, 1.0, hs, ids), ladder[i]) != [] <==> i == j + 1
      ensures Children(t, NewNodes(t, 1.0, hs, ids), ladder[i]) != [] <==> i == j + 1
    {
      GroupAfter(t, hs, ids, ladder[i]);
      RungArrivals(t, size, top, long, short, few, hs, j, ladder, other, i);
    }
  }

  lemma SceneMoves(t: Table, size: nat, top: string, long: seq<string>, short: seq<string>, few: nat, hs: seq<Hit>, j: nat)
    requires Scene(t, size, top, long, short, few, hs, j) && !Full(t, hs, top)
    ensures Scene(t, size, top, long, short, few, MergeGroups(t, 1.0, hs, GroupIds(t, hs)), j + 1)
    ensures Scene(t, size, top, long, short, few, NewNodes(t, 1.0, hs, GroupIds(t, hs)), j + 1)
    ensures |Children(t, MergeGroups(t, 1.0, hs, GroupIds(t, hs)), top)|
         == |Children(t, hs, top)| + (if j + 1 == |long| || j + 1 == |short| then 1 else 0)
    ensures |Children(t, NewNodes(t, 1.0, hs, GroupIds(t, hs)), top)| <= 1
  {
    hide Children, GroupIds, MergeGroups, NewNodes, Rigged, OnRung, Arrivals;
    RiggedLadders(t, size, top, long, short, few);
    LadderMoves(t, size, top, long, short, few, hs, j, long, short);
    LadderMoves(t, size, top, long, short, few, hs, j, short, long);
    ActiveShrinks(t, hs);
    GroupIdsSound(t, hs);
    GroupAfter(t, hs, GroupIds(t, hs), top);
    TopArrivals(t, size, top, long, short, few, hs, j);
  }

  // ---------------------------------------------------------------- the two loops

  ghost predicate HasNode(hs: seq<Hit>, id: string) {
    exists h :: h in hs && h.Node? && h.id == id
  }

  /** The coded loop: what waits under the top grows to `few` and then by the long ladder's arrival,
      so the top merges. */
  lemma {:induction false} CodedMergesTop(t: Table, size: nat, top: string, long: seq<string>, short: seq<string>, few: nat,
                                          active: seq<Hit>, settled: seq<Hit>, j: nat)
    requires Scene(t, size, top, long, short, few, active, j) && j <= |long|
    requires |short| > 0 ==> few == 1
    requires |Children(t, active, top)| == (if j >= |short| then few else 0) + (if j >= |long| then 1 else 0)
    ensures HasNode(Climb(t, 1.0, active, settled, |long| - j + 1), top)
    decreases |long| - j
  {
    hide Children, GroupIds, MergeGroups, Passthrough, Promoted, StoredParent, IsLadder, OnRung;
    var ids := GroupIds(t, active);
    GroupIdsSound(t, active);
    if j == |long| {
      TopMergesNow(t, active, settled, top);
    } else {
      assert Children(t, active, long[j]) != [] && long[j] in t && t[long[j]].childCount == 1 by {
        SceneRung(t, size, top, long, short, few, active, j);
      }
      MeetsOne(t, long[j], |Children(t, active, long[j])|);
      SceneMoves(t, size, top, long, short, few, active, j);
      RoundGoesOn(t, active, settled, long[j], |long| - j + 1);
      CodedMergesTop(t, size, top, long, short, few, MergeGroups(t, 1.0, active, ids), settled + Passthrough(t, active), j + 1);
    }
  }

  lemma SceneRung(t: Table, size: nat, top: string, long: seq<string>, short: seq<string>, few: nat, hs: seq<Hit>, j: nat)
    requires Scene(t, size, top, long, short, few, hs, j) && j < |long|
    ensures Children(t, hs, long[j]) != [] && long[j] in t && t[long[j]].childCount == 1
  {
  }

  lemma MeetingIsParent(t: Table, hs: seq<Hit>, x: string)
    requires Children(t, hs, x) != []
    ensures AnyParent(t, hs)
  {
    var kid := Children(t, hs, x)[0];
    assert kid in hs && Grouped(t, kid);
    var i :| 0 <= i < |hs| && hs[i] == kid;
  }

  /** A round in which some group merges is followed by the next. */
  lemma RoundGoesOn(t: Table, active: seq<Hit>, settled: seq<Hit>, x: string, depth: nat)
    requires depth > 0 && x in t && Children(t, active, x) != [] && Meets(t, 1.0, x, |Children(t, active, x)|)
    ensures Climb(t, 1.0, active, settled, depth)
         == Climb(t, 1.0, MergeGroups(t, 1.0, active, GroupIds(t, active)), settled + Passthrough(t, active), depth - 1)
  {
    hide Children, GroupIds, MergeGroups, Passthrough, Promoted, AnyParent;
    GroupIdsSound(t, active);
    MeetingIsParent(t, active, x);
    PromotedMeet(t, 1.0, active, GroupIds(t, active));
  }

  lemma TopMergesNow(t: Table, active: seq<Hit>, settled: seq<Hit>, top: string)
    requires top in t && Full(t, active, top)
    ensures HasNode(Climb(t, 1.0, active, settled, 1), top)
  {
    hide Children, GroupIds, MergeGroups, Passthrough, AnyParent, Promoted;
    var ids, kids := GroupIds(t, active), Children(t, active, top);
    GroupIdsSound(t, active);
    MeetsOne(t, top, |kids|);
    RoundGoesOn(t, active, settled, top, 1);
    MergedIn(t, active, ids, top);
    var out := Climb(t, 1.0, MergeGroups(t, 1.0, active, ids), settled + Passthrough(t, active), 0);
    assert Node(top, kids) in out;
  }

  lemma {:induction false} MergedIn(t: Table, hs: seq<Hit>, ids: seq<string>, x: string)
    requires (forall y :: y in ids ==> y in t) && x in ids && Meets(t, 1.0, x, |Children(t, hs, x)|)
    ensures Node(x, Children(t, hs, x)) in MergeGroups(t, 1.0, hs, ids)
  {
    hide Children, Meets;
    var front, last := ids[..|ids| - 1], ids[|ids| - 1];
    assert ids == front + [last];
    if x != last {
      MergedIn(t, hs, front, x);
    }
  }

  /** The documented loop: the top never has more than `few` members at a time. */
  lemma {:induction false} DocumentedLeavesTop(t: Table, size: nat, top: string, long: seq<string>, short: seq<string>, few: nat,
                                               active: seq<Hit>, settled: seq<Hit>, j: nat, depth: nat)
    requires Scene(t, size, top, long, short, few, active, j) && |Children(t, active, top)| <= few
    requires !HasNode(active, top) && !HasNode(settled, top)
    ensures !HasNode(Settle(t, 1.0, active, settled, depth), top)
    decreases depth
  {
    hide Children, GroupIds, NewNodes, GroupsThat, Passthrough, OnRung, IsLadder, AnyParent, MergeGroups;
    if depth > 0 && AnyParent(t, active) {
      var ids := GroupIds(t, active);
      GroupIdsSound(t, active);
      SceneMoves(t, size, top, long, short, few, active, j);
      PassthroughIsPart(t, active);
      FailedArePart(t, active, ids);
      MeetsOne(t, top, |Children(t, active, top)|);
      NodesOf(t, active, ids, top);
      var settled' := settled + Passthrough(t, active) + GroupsThat(t, 1.0, active, ids, false);
      assert !HasNode(settled', top);
      DocumentedLeavesTop(t, size, top, long, short, few, NewNodes(t, 1.0, active, ids), settled', j + 1, depth - 1);
    }
  }

  lemma {:induction false} FailedArePart(t: Table, hs: seq<Hit>, ids: seq<string>)
    requires forall x :: x in ids ==> x in t
    ensures forall h :: h in GroupsThat(t, 1.0, hs, ids, false) ==> h in hs
  {
    hide Meets;
    if ids != [] {
      FailedArePart(t, hs, ids[..|ids| - 1]);
    }
  }

  lemma {:induction false} NodesOf(t: Table, hs: seq<Hit>, ids: seq<string>, x: string)
    requires (forall y :: y in ids ==> y in t) && (x in ids ==> !Meets(t, 1.0, x, |Children(t, hs, x)|))
    ensures !HasNode(NewNodes(t, 1.0, hs, ids), x)
  {
    hide Meets, Children;
    if ids != [] {
      NodesOf(t, hs, ids[..|ids| - 1], x);
    }
  }
}
