/** The documented auto-merge loop, which settles a group as soon as it fails, against the loop as
    coded, which keeps failed groups active and regroups them every round. */
module AutoMergeSettling {
  import opened AutoMerge
  import opened AutoMergeLaws
  import opened Wrappers

  /** The members of the groups that failed, or of those that merged. */
  function GroupsThat(t: Table, threshold: real, hs: seq<Hit>, ids: seq<string>, merged: bool): seq<Hit>
    requires forall id :: id in ids ==> id in t
  {
    if ids == [] then []
    else
      var rest, kids := GroupsThat(t, threshold, hs, ids[..|ids| - 1], merged), Children(t, hs, ids[|ids| - 1]);
      if Meets(t, threshold, ids[|ids| - 1], |kids|) == merged then rest + kids else rest
  }

  /** The ancestors that replace the groups that merged. */
  function NewNodes(t: Table, threshold: real, hs: seq<Hit>, ids: seq<string>): seq<Hit>
    requires forall id :: id in ids ==> id in t
  {
    if ids == [] then []
    else
      var rest, id := NewNodes(t, threshold, hs, ids[..|ids| - 1]), ids[|ids| - 1];
      var kids := Children(t, hs, id);
      if Meets(t, threshold, id, |kids|) then rest + [Node(id, kids)] else rest
  }

  /** The loop the docstring describes: a result that failed at some level is never retried. */
  function Settle(t: Table, threshold: real, active: seq<Hit>, settled: seq<Hit>, depth: nat): seq<Hit>
    decreases depth
  {
    if depth == 0 || !AnyParent(t, active) then settled + active
    else
      var ids := GroupIds(t, active);
      var settled' := settled + Passthrough(t, active) + GroupsThat(t, threshold, active, ids, false);
      var active' := NewNodes(t, threshold, active, ids);
      if active' == [] then settled' else Settle(t, threshold, active', settled', depth - 1)
  }

  // ---------------------------------------------------------------- one round

  lemma TradeOne(out: multiset<Hit>, gone: multiset<Hit>, all: multiset<Hit>, added: multiset<Hit>, kids: multiset<Hit>, node: multiset<Hit>)
    requires out + gone == all + added
    ensures (out + node) + (gone + kids) == (all + kids) + (added + node)
    ensures (out + kids) + gone == (all + kids) + added
  {
    forall h
      ensures out[h] + gone[h] == all[h] + added[h]
    {
      assert (out + gone)[h] == (all + added)[h];
    }
  }

  /** Merging replaces the members of the groups that met the threshold by their ancestors. */
  lemma {:induction false} MergeBalance(t: Table, threshold: real, hs: seq<Hit>, ids: seq<string>)
    requires forall id :: id in ids ==> id in t
    ensures multiset(MergeGroups(t, threshold, hs, ids)) + multiset(GroupsThat(t, threshold, hs, ids, true))
         == multiset(Regroup(t, hs, ids)) + multiset(NewNodes(t, threshold, hs, ids))
  {
    if ids != [] {
      var front, id := ids[..|ids| - 1], ids[|ids| - 1];
      var kids := Children(t, hs, id);
      MergeBalance(t, threshold, hs, front);
      TradeOne(multiset(MergeGroups(t, threshold, hs, front)), multiset(GroupsThat(t, threshold, hs, front, true)),
               multiset(Regroup(t, hs, front)), multiset(NewNodes(t, threshold, hs, front)), multiset(kids), multiset{Node(id, kids)});
    }
  }

  lemma {:induction false} SplitBalance(t: Table, threshold: real, hs: seq<Hit>, ids: seq<string>)
    requires forall id :: id in ids ==> id in t
    ensures multiset(GroupsThat(t, threshold, hs, ids, true)) + multiset(GroupsThat(t, threshold, hs, ids, false))
         == multiset(Regroup(t, hs, ids))
  {
    if ids != [] {
      var front, kids := ids[..|ids| - 1], Children(t, hs, ids[|ids| - 1]);
      SplitBalance(t, threshold, hs, front);
      var met, failed, all := GroupsThat(t, threshold, hs, front, true), GroupsThat(t, threshold, hs, front, false), Regroup(t, hs, front);
      assert multiset(all + kids) == multiset(all) + multiset(kids);
      assert multiset(met + kids) == multiset(met) + multiset(kids);
      assert multiset(failed + kids) == multiset(failed) + multiset(kids);
    }
  }

  lemma {:induction false} NodesArePromoted(t: Table, threshold: real, hs: seq<Hit>, ids: seq<string>)
    requires forall id :: id in ids ==> id in t
    ensures NewNodes(t, threshold, hs, ids) == [] <==> Promoted(t, threshold, hs, ids) == []
  {
    if ids != [] {
      NodesArePromoted(t, threshold, hs, ids[..|ids| - 1]);
    }
  }

  lemma TradeRound(s: multiset<Hit>, through: multiset<Hit>, out: multiset<Hit>, gone: multiset<Hit>, grouped: multiset<Hit>,
                   added: multiset<Hit>, all: multiset<Hit>)
    requires through + grouped == all && out + gone == grouped + added
    ensures (s + through + out) + gone == (s + all) + added
  {
    forall h
      ensures through[h] + grouped[h] == all[h] && out[h] + gone[h] == grouped[h] + added[h]
    {
      assert (through + grouped)[h] == all[h] && (out + gone)[h] == (grouped + added)[h];
    }
  }

  /** A coded round trades the merged members for the new ancestors. */
  lemma CodedRound(t: Table, threshold: real, hs: seq<Hit>, settled: seq<Hit>)
    ensures var ids := GroupIds(t, hs);
      multiset(settled + Passthrough(t, hs) + MergeGroups(t, threshold, hs, ids)) + multiset(GroupsThat(t, threshold, hs, ids, true))
      == multiset(settled + hs) + multiset(NewNodes(t, threshold, hs, ids))
  {
    var ids := GroupIds(t, hs);
    RegroupPermutes(t, hs);
    MergeBalance(t, threshold, hs, ids);
    TradeRound(multiset(settled), multiset(Passthrough(t, hs)), multiset(MergeGroups(t, threshold, hs, ids)),
               multiset(GroupsThat(t, threshold, hs, ids, true)), multiset(Regroup(t, hs, ids)),
               multiset(NewNodes(t, threshold, hs, ids)), multiset(hs));
  }

  /** So does a documented one. */
  lemma DocumentedRound(t: Table, threshold: real, hs: seq<Hit>, settled: seq<Hit>)
    ensures var ids := GroupIds(t, hs);
      multiset(settled + Passthrough(t, hs) + GroupsThat(t, threshold, hs, ids, false) + NewNodes(t, threshold, hs, ids))
        + multiset(GroupsThat(t, threshold, hs, ids, true))
      == multiset(settled + hs) + multiset(NewNodes(t, threshold, hs, ids))
  {
    var ids := GroupIds(t, hs);
    var failed, added := GroupsThat(t, threshold, hs, ids, false), NewNodes(t, threshold, hs, ids);
    RegroupPermutes(t, hs);
    SplitBalance(t, threshold, hs, ids);
    TradeRound(multiset(settled), multiset(Passthrough(t, hs)), multiset(failed) + multiset(added),
               multiset(GroupsThat(t, threshold, hs, ids, true)), multiset(Regroup(t, hs, ids)), multiset(added), multiset(hs));
  }

  // ---------------------------------------------------------------- failed groups

  /** For each tree of ancestors, named by any of its ids, the level its results have reached. */
  type Clock = string -> int

  function Down(clock: Clock): Clock {
    (id: string) => clock(id) - 1
  }

  /** A result waiting under an ancestor deeper than its tree's level: the loop has already failed it. */
  predicate Stale(t: Table, clock: Clock, h: Hit) {
    Grouped(t, h) && t[ParentOf(t, h).value].level > clock(ParentOf(t, h).value)
  }

  function Fresh(t: Table, clock: Clock, hs: seq<Hit>): seq<Hit> {
    if hs == [] then []
    else
      var rest, h := Fresh(t, clock, hs[..|hs| - 1]), hs[|hs| - 1];
      if Stale(t, clock, h) then rest else rest + [h]
  }

  function IdsAtMost(t: Table, clock: Clock, ids: seq<string>): (r: seq<string>)
    requires forall id :: id in ids ==> id in t
    ensures forall id :: id in r ==> id in t && id in ids
  {
    if ids == [] then []
    else
      var rest, id := IdsAtMost(t, clock, ids[..|ids| - 1]), ids[|ids| - 1];
      if t[id].level > clock(id) then rest else rest + [id]
  }

  lemma {:induction false} IdsAtMostMembers(t: Table, clock: Clock, ids: seq<string>)
    requires forall id :: id in ids ==> id in t
    ensures forall id :: id in IdsAtMost(t, clock, ids) <==> id in ids && t[id].level <= clock(id)
  {
    if ids != [] {
      IdsAtMostMembers(t, clock, ids[..|ids| - 1]);
    }
  }

  lemma {:induction false} FreshPassthrough(t: Table, clock: Clock, hs: seq<Hit>)
    ensures Passthrough(t, Fresh(t, clock, hs)) == Passthrough(t, hs)
  {
    if hs != [] {
      var front, h := hs[..|hs| - 1], hs[|hs| - 1];
      FreshPassthrough(t, clock, front);
      if !Stale(t, clock, h) {
        assert (Fresh(t, clock, front) + [h])[..|Fresh(t, clock, front)|] == Fresh(t, clock, front);
      }
    }
  }

  /** Dropping the stale results drops their groups and keeps the rest, in order. */
  lemma {:induction false} FreshGroups(t: Table, clock: Clock, hs: seq<Hit>)
    ensures GroupIds(t, Fresh(t, clock, hs)) == IdsAtMost(t, clock, GroupIds(t, hs))
    ensures forall id :: id in t && t[id].level <= clock(id) ==> Children(t, Fresh(t, clock, hs), id) == Children(t, hs, id)
    ensures Passthrough(t, Fresh(t, clock, hs)) == Passthrough(t, hs)
  {
    hide Passthrough;
    FreshPassthrough(t, clock, hs);
    if hs != [] {
      var front, h := hs[..|hs| - 1], hs[|hs| - 1];
      var rest := Fresh(t, clock, front);
      FreshGroups(t, clock, front);
      IdsAtMostMembers(t, clock, GroupIds(t, front));
      if !Stale(t, clock, h) {
        assert (rest + [h])[..|rest|] == rest;
        forall id | id in t && t[id].level <= clock(id)
          ensures Children(t, rest + [h], id) == Children(t, hs, id)
        {
          ChildrenOfAppend(t, rest, h, id);
        }
      }
      if Grouped(t, h) && ParentOf(t, h).value !in GroupIds(t, front) {
        assert GroupIds(t, hs)[..|GroupIds(t, hs)| - 1] == GroupIds(t, front);
      }
    }
  }

  /** Groups deeper than their tree's level promote nothing. */
  ghost predicate DeepFail(t: Table, threshold: real, clock: Clock, hs: seq<Hit>) {
    forall id :: id in t && t[id].level > clock(id) && Children(t, hs, id) != [] ==> !Meets(t, threshold, id, |Children(t, hs, id)|)
  }

  /** When the deep groups fail, both loops promote the same ancestors from the same members. */
  lemma {:induction false} SamePromotions(t: Table, threshold: real, clock: Clock, hs: seq<Hit>, gs: seq<Hit>, ids: seq<string>)
    requires forall id :: id in ids ==> id in t && Children(t, hs, id) != []
    requires DeepFail(t, threshold, clock, hs)
    requires forall id :: id in t && t[id].level <= clock(id) ==> Children(t, gs, id) == Children(t, hs, id)
    ensures NewNodes(t, threshold, hs, ids) == NewNodes(t, threshold, gs, IdsAtMost(t, clock, ids))
    ensures GroupsThat(t, threshold, hs, ids, true) == GroupsThat(t, threshold, gs, IdsAtMost(t, clock, ids), true)
  {
    if ids != [] {
      var front, id := ids[..|ids| - 1], ids[|ids| - 1];
      SamePromotions(t, threshold, clock, hs, gs, front);
      var kept := IdsAtMost(t, clock, front);
      if t[id].level <= clock(id) {
        assert (kept + [id])[..|kept|] == kept;
      }
    }
  }

  // ---------------------------------------------------------------- levels

  /** A stored ancestor sits one level above each stored child. */
  ghost predicate Levelled(t: Table) {
    forall id :: id in t && NonEmpty(t[id].parentId) && t[id].parentId.value in t ==>
      t[t[id].parentId.value].level == t[id].level - 1
  }

  /** The clock tells one level per tree. */
  ghost predicate Steady(t: Table, clock: Clock) {
    forall id :: id in t && NonEmpty(t[id].parentId) && t[id].parentId.value in t ==> clock(t[id].parentId.value) == clock(id)
  }

  lemma DownIsSteady(t: Table, clock: Clock)
    requires Steady(t, clock)
    ensures Steady(t, Down(clock))
  {
  }

  ghost predicate WaitsAt(t: Table, clock: Clock, hs: seq<Hit>) {
    forall h :: h in hs && Grouped(t, h) ==> t[ParentOf(t, h).value].level == clock(ParentOf(t, h).value)
  }

  lemma {:induction false} FreshConcat(t: Table, clock: Clock, a: seq<Hit>, b: seq<Hit>)
    ensures Fresh(t, clock, a + b) == Fresh(t, clock, a) + Fresh(t, clock, b)
  {
    if b == [] {
      assert a + b == a;
    } else {
      assert (a + b)[..|a + b| - 1] == a + b[..|b| - 1];
      FreshConcat(t, clock, a, b[..|b| - 1]);
    }
  }

  lemma {:induction false} FreshOfStale(t: Table, clock: Clock, hs: seq<Hit>)
    requires forall h :: h in hs ==> Stale(t, clock, h)
    ensures Fresh(t, clock, hs) == []
  {
    if hs != [] {
      FreshOfStale(t, clock, hs[..|hs| - 1]);
    }
  }

  /** A new ancestor waits one level up. */
  lemma NodeIsFresh(t: Table, clock: Clock, id: string, kids: seq<Hit>)
    requires Levelled(t) && Steady(t, clock) && id in t && t[id].level == clock(id)
    ensures Fresh(t, Down(clock), [Node(id, kids)]) == [Node(id, kids)]
    ensures WaitsAt(t, Down(clock), [Node(id, kids)])
  {
    assert [Node(id, kids)][..0] == [];
    assert !Stale(t, Down(clock), Node(id, kids));
  }

  lemma GroupIsStale(t: Table, clock: Clock, hs: seq<Hit>, id: string)
    requires id in t && t[id].level >= clock(id)
    ensures Fresh(t, Down(clock), Children(t, hs, id)) == []
  {
    FreshOfStale(t, Down(clock), Children(t, hs, id));
  }

  lemma WaitsAtConcat(t: Table, clock: Clock, a: seq<Hit>, b: seq<Hit>)
    requires WaitsAt(t, clock, a) && WaitsAt(t, clock, b)
    ensures WaitsAt(t, clock, a + b)
  {
  }

  /** After the round, what is not stale one level up is exactly the new ancestors. */
  lemma {:induction false} FreshAfterRound(t: Table, threshold: real, clock: Clock, hs: seq<Hit>, ids: seq<string>)
    requires Levelled(t) && Steady(t, clock) && forall id :: id in ids ==> id in t && t[id].level >= clock(id)
    requires forall id :: id in ids && t[id].level > clock(id) ==> !Meets(t, threshold, id, |Children(t, hs, id)|)
    ensures Fresh(t, Down(clock), MergeGroups(t, threshold, hs, ids)) == NewNodes(t, threshold, hs, ids)
    ensures WaitsAt(t, Down(clock), NewNodes(t, threshold, hs, ids))
  {
    if ids != [] {
      hide Children, Levelled, Steady, WaitsAt, Meets, Fresh;
      var front, id := ids[..|ids| - 1], ids[|ids| - 1];
      var kids := Children(t, hs, id);
      FreshAfterRound(t, threshold, clock, hs, front);
      FreshConcat(t, Down(clock), MergeGroups(t, threshold, hs, front), MergeGroup(t, threshold, id, kids));
      if Meets(t, threshold, id, |kids|) {
        NodeIsFresh(t, clock, id, kids);
        WaitsAtConcat(t, Down(clock), NewNodes(t, threshold, hs, front), [Node(id, kids)]);
      } else {
        GroupIsStale(t, clock, hs, id);
      }
    }
  }

  /** Every group still deeper than the next level keeps failing. */
  lemma DeepFailAfterRound(t: Table, threshold: real, clock: Clock, hs: seq<Hit>)
    requires Levelled(t) && Steady(t, clock) && DeepFail(t, threshold, clock, hs)
    requires forall id :: id in GroupIds(t, hs) ==> t[id].level >= clock(id)
    ensures DeepFail(t, threshold, Down(clock), MergeGroups(t, threshold, hs, GroupIds(t, hs)))
  {
    var ids := GroupIds(t, hs);
    GroupIdsSound(t, hs);
    forall id | id in t && t[id].level > Down(clock)(id) && Children(t, MergeGroups(t, threshold, hs, ids), id) != []
      ensures !Meets(t, threshold, id, |Children(t, MergeGroups(t, threshold, hs, ids), id)|)
    {
      assert id != "" by { assert NonEmpty(ParentOf(t, Children(t, MergeGroups(t, threshold, hs, ids), id)[0])); }
      GroupAfterRound(t, threshold, hs, ids, id);
    }
  }

  // ---------------------------------------------------------------- the two loops

  lemma {:induction false} FreshMembers(t: Table, clock: Clock, hs: seq<Hit>)
    ensures forall h :: h in Fresh(t, clock, hs) <==> h in hs && !Stale(t, clock, h)
  {
    if hs != [] {
      FreshMembers(t, clock, hs[..|hs| - 1]);
    }
  }

  lemma ParentsOfFresh(t: Table, clock: Clock, hs: seq<Hit>)
    ensures AnyParent(t, Fresh(t, clock, hs)) ==> AnyParent(t, hs)
  {
    var kept := Fresh(t, clock, hs);
    FreshMembers(t, clock, hs);
    if AnyParent(t, kept) {
      var i :| 0 <= i < |kept| && NonEmpty(ParentOf(t, kept[i]));
      assert kept[i] in hs;
      var j :| 0 <= j < |hs| && hs[j] == kept[i];
    }
  }

  /** One step of both loops leaves them with the same results overall. */
  lemma SameTotals(t: Table, threshold: real, clock: Clock, hs: seq<Hit>, settled: seq<Hit>, settledD: seq<Hit>)
    requires DeepFail(t, threshold, clock, hs)
    requires multiset(settled + hs) == multiset(settledD + Fresh(t, clock, hs))
    ensures var gs := Fresh(t, clock, hs);
      var ids, idsD := GroupIds(t, hs), GroupIds(t, gs);
      && NewNodes(t, threshold, hs, ids) == NewNodes(t, threshold, gs, idsD)
      && multiset(settled + Passthrough(t, hs) + MergeGroups(t, threshold, hs, ids))
         == multiset(settledD + Passthrough(t, gs) + GroupsThat(t, threshold, gs, idsD, false) + NewNodes(t, threshold, gs, idsD))
  {
    var gs := Fresh(t, clock, hs);
    var ids, idsD := GroupIds(t, hs), GroupIds(t, gs);
    GroupIdsSound(t, hs);
    FreshGroups(t, clock, hs);
    SamePromotions(t, threshold, clock, hs, gs, ids);
    CodedRound(t, threshold, hs, settled);
    DocumentedRound(t, threshold, gs, settledD);
    var moved := multiset(GroupsThat(t, threshold, hs, ids, true));
    var coded := multiset(settled + Passthrough(t, hs) + MergeGroups(t, threshold, hs, ids));
    var documented := multiset(settledD + Passthrough(t, gs) + GroupsThat(t, threshold, gs, idsD, false) + NewNodes(t, threshold, gs, idsD));
    CancelMoved(coded, documented, moved);
  }

  lemma CancelMoved(a: multiset<Hit>, b: multiset<Hit>, c: multiset<Hit>)
    requires a + c == b + c
    ensures a == b
  {
    assert a == (a + c) - c && b == (b + c) - c;
  }

  /** Run side by side from results that wait at one level per tree, the two loops end with the same multiset. */
  lemma {:induction false} LoopsAgree(t: Table, threshold: real, clock: Clock, active: seq<Hit>, settled: seq<Hit>,
                                      activeD: seq<Hit>, settledD: seq<Hit>, depth: nat)
    requires Levelled(t) && Steady(t, clock) && DeepFail(t, threshold, clock, active)
    requires activeD == Fresh(t, clock, active) && WaitsAt(t, clock, activeD)
    requires multiset(settled + active) == multiset(settledD + activeD)
    ensures multiset(Climb(t, threshold, active, settled, depth)) == multiset(Settle(t, threshold, activeD, settledD, depth))
    decreases depth
  {
    hide Children, GroupIds, MergeGroups, Passthrough, Promoted, NewNodes, GroupsThat, Fresh, AnyParent, Levelled, Steady, WaitsAt;
    FreshMembers(t, clock, active);
    if depth == 0 || !AnyParent(t, active) {
      ParentsOfFresh(t, clock, active);
    } else {
      var ids, idsD := GroupIds(t, active), GroupIds(t, activeD);
      var nodes := NewNodes(t, threshold, activeD, idsD);
      var active', settled' := MergeGroups(t, threshold, active, ids), settled + Passthrough(t, active);
      var settledD' := settledD + Passthrough(t, activeD) + GroupsThat(t, threshold, activeD, idsD, false);
      SameTotals(t, threshold, clock, active, settled, settledD);
      NodesArePromoted(t, threshold, active, ids);
      LevelsOfGroups(t, clock, active);
      if !AnyParent(t, activeD) {
        NothingToMerge(t, threshold, clock, active, settled, settledD);
      } else if nodes == [] {
        assert settledD' + nodes == settledD';
      } else {
        GroupIdsSound(t, active);
        DeepFailAfterRound(t, threshold, clock, active);
        FreshAfterRound(t, threshold, clock, active, ids);
        DownIsSteady(t, clock);
        LoopsAgree(t, threshold, Down(clock), active', settled', nodes, settledD', depth - 1);
      }
    }
  }

  lemma LevelsOfGroups(t: Table, clock: Clock, active: seq<Hit>)
    requires WaitsAt(t, clock, Fresh(t, clock, active))
    ensures forall id :: id in GroupIds(t, active) ==> t[id].level >= clock(id)
  {
    FreshMembers(t, clock, active);
    GroupIdsSound(t, active);
    forall id | id in GroupIds(t, active)
      ensures t[id].level >= clock(id)
    {
      var kid := Children(t, active, id)[0];
      assert kid in active && ParentOf(t, kid) == Some(id);
      assert Stale(t, clock, kid) || kid in Fresh(t, clock, active);
    }
  }

  /** The documented loop has stopped; the coded one takes a last round that merges nothing. */
  lemma NothingToMerge(t: Table, threshold: real, clock: Clock, active: seq<Hit>, settled: seq<Hit>, settledD: seq<Hit>)
    requires DeepFail(t, threshold, clock, active)
    requires !AnyParent(t, Fresh(t, clock, active))
    requires multiset(settled + active) == multiset(settledD + Fresh(t, clock, active))
    ensures var ids := GroupIds(t, active);
      Promoted(t, threshold, active, ids) == []
      && multiset(settled + Passthrough(t, active) + MergeGroups(t, threshold, active, ids)) == multiset(settledD + Fresh(t, clock, active))
  {
    var ids := GroupIds(t, active);
    GroupIdsSound(t, active);
    FreshMembers(t, clock, active);
    NoParentNoGroup(t, Fresh(t, clock, active));
    forall id | id in ids
      ensures !Meets(t, threshold, id, |Children(t, active, id)|)
    {
      var kid := Children(t, active, id)[0];
      assert kid in active && Stale(t, clock, kid);
    }
    NothingPromoted(t, threshold, active, ids);
    NoMergeMeansRegroup(t, threshold, active, ids);
    RegroupPermutes(t, active);
  }

  lemma LoopsAgreeByClock(t: Table, threshold: real, clock: Clock, rs: seq<QueryResult>, maxDepth: nat)
    requires Levelled(t) && Steady(t, clock) && WaitsAt(t, clock, Leaves(rs))
    ensures multiset(Merge(t, threshold, rs, maxDepth)) == multiset(Settle(t, threshold, Leaves(rs), [], maxDepth))
  {
    var hs := Leaves(rs);
    AllFresh(t, clock, hs);
    forall id | id in t && t[id].level > clock(id)
      ensures Children(t, hs, id) == []
    {
      ChildrenOfOthers(t, hs, id);
    }
    LoopsAgree(t, threshold, clock, hs, [], hs, [], maxDepth);
  }

  lemma {:induction false} AllFresh(t: Table, clock: Clock, hs: seq<Hit>)
    requires WaitsAt(t, clock, hs)
    ensures Fresh(t, clock, hs) == hs
  {
    if hs != [] {
      AllFresh(t, clock, hs[..|hs| - 1]);
    }
  }

  /** An ancestor over one direct hit and one lower ancestor that itself covers one hit. */
  function Uneven(): Table {
    map["low" := ParentRow(Some("top"), 1, 1, "", None, None), "top" := ParentRow(None, 0, 2, "", None, None)]
  }

  /** With hits at two levels the loops differ: "top" fails on its direct hit in the first round, and
      the coded loop retries it, together with the promoted "low", in the second. */
  lemma LoopsDifferOnUnevenTrees(near: QueryResult, far: QueryResult)
    requires near.parentChunkId == Some("top") && far.parentChunkId == Some("low")
    ensures Merge(Uneven(), 1.0, [near, far], 2) == [Node("top", [Leaf(near), Node("low", [Leaf(far)])])]
    ensures Settle(Uneven(), 1.0, Leaves([near, far]), [], 2) == [Leaf(near), Node("low", [Leaf(far)])]
  {
    hide Climb, Settle, Leaves, GroupIds, MergeGroups, Passthrough, Promoted, NewNodes, GroupsThat, Children;
    var t := Uneven();
    var a, b, low := Leaf(near), Leaf(far), Node("low", [Leaf(far)]);
    LeavesOfTwo(near, far);
    PairGroups(t, a, b, "top", "low");
    OneOfEach(t, a, b);
    FirstRound(t, a, b, low);
    PairGroups(t, a, low, "top", "top");
    TopMerges(t, a, low);
    PairGroups(t, low, low, "top", "top");
    TopFails(t, a, low);
  }

  lemma LeavesOfTwo(r: QueryResult, q: QueryResult)
    ensures Leaves([r, q]) == [Leaf(r), Leaf(q)]
  {
    assert [r, q][..1] == [r] && [r][..0] == [];
  }

  lemma FirstRound(t: Table, a: Hit, b: Hit, low: Hit)
    requires NonEmpty(ParentOf(t, a)) && GroupIds(t, [a, b]) == ["top", "low"] && Passthrough(t, [a, b]) == []
    requires "top" in t && "low" in t
    requires MergeGroups(t, 1.0, [a, b], ["top", "low"]) == [a, low] && NewNodes(t, 1.0, [a, b], ["top", "low"]) == [low]
    requires Promoted(t, 1.0, [a, b], ["top", "low"]) == ["low"] && GroupsThat(t, 1.0, [a, b], ["top", "low"], false) == [a]
    ensures Climb(t, 1.0, [a, b], [], 2) == Climb(t, 1.0, [a, low], [], 1)
    ensures Settle(t, 1.0, [a, b], [], 2) == Settle(t, 1.0, [low], [a], 1)
  {
    hide GroupIds, MergeGroups, Passthrough, Promoted, NewNodes, GroupsThat;
    assert AnyParent(t, [a, b]) by { assert NonEmpty(ParentOf(t, [a, b][0])); }
    assert [] + [] + [a] == [a];
  }

  /** What the groups of two hits are. */
  lemma PairGroups(t: Table, a: Hit, b: Hit, p: string, q: string)
    requires p != "" && q != "" && p in t && q in t && ParentOf(t, a) == Some(p) && ParentOf(t, b) == Some(q)
    ensures GroupIds(t, [a]) == [p] && Passthrough(t, [a]) == [] && forall id :: Children(t, [a], id) == if id == p then [a] else []
    ensures GroupIds(t, [a, b]) == if p == q then [p] else [p, q]
    ensures Passthrough(t, [a, b]) == []
    ensures forall id :: Children(t, [a, b], id) == (if id == p then [a] else []) + (if id == q then [b] else [])
  {
    assert [] + [a] == [a] && [a] + [b] == [a, b];
    GroupingParts(t, [], a);
    GroupingParts(t, [a], b);
    forall id
      ensures Children(t, [a], id) == if id == p then [a] else []
      ensures Children(t, [a, b], id) == (if id == p then [a] else []) + (if id == q then [b] else [])
    {
      ChildrenOfAppend(t, [], a, id);
      ChildrenOfAppend(t, [a], b, id);
    }
  }

  lemma OneOfEach(t: Table, a: Hit, b: Hit)
    requires t == Uneven() && Children(t, [a, b], "top") == [a] && Children(t, [a, b], "low") == [b]
    ensures MergeGroups(t, 1.0, [a, b], ["top", "low"]) == [a, Node("low", [b])]
    ensures NewNodes(t, 1.0, [a, b], ["top", "low"]) == [Node("low", [b])]
    ensures Promoted(t, 1.0, [a, b], ["top", "low"]) == ["low"]
    ensures GroupsThat(t, 1.0, [a, b], ["top", "low"], false) == [a]
  {
    hide Children, GroupIds, Passthrough;
    var hs := [a, b];
    assert ["top", "low"][..1] == ["top"] && ["top"][..0] == [];
    assert !Meets(t, 1.0, "top", 1) && Meets(t, 1.0, "low", 1);
    assert MergeGroups(t, 1.0, hs, ["top"]) == [a];
    assert NewNodes(t, 1.0, hs, ["top"]) == [];
    assert Promoted(t, 1.0, hs, ["top"]) == [];
    assert GroupsThat(t, 1.0, hs, ["top"], false) == [a];
  }

  lemma TopMerges(t: Table, a: Hit, low: Hit)
    requires t == Uneven() && ParentOf(t, a) == Some("top")
    requires GroupIds(t, [a, low]) == ["top"] && Passthrough(t, [a, low]) == [] && Children(t, [a, low], "top") == [a, low]
    ensures Climb(t, 1.0, [a, low], [], 1) == [Node("top", [a, low])]
  {
    hide Children, GroupIds, Passthrough;
    var hs, out := [a, low], [Node("top", [a, low])];
    assert ["top"][..0] == [];
    assert NonEmpty(ParentOf(t, hs[0]));
    assert Meets(t, 1.0, "top", 2);
    assert MergeGroups(t, 1.0, hs, ["top"]) == out;
    assert Promoted(t, 1.0, hs, ["top"]) == ["top"];
    assert Climb(t, 1.0, out, [], 0) == out;
  }

  lemma TopFails(t: Table, a: Hit, low: Hit)
    requires t == Uneven() && ParentOf(t, low) == Some("top")
    requires GroupIds(t, [low]) == ["top"] && Passthrough(t, [low]) == [] && Children(t, [low], "top") == [low]
    ensures Settle(t, 1.0, [low], [a], 1) == [a, low]
  {
    hide GroupIds, Passthrough, Children;
    var hs := [low];
    assert ["top"][..0] == [];
    assert !Meets(t, 1.0, "top", 1);
    assert NewNodes(t, 1.0, hs, ["top"]) == [];
    assert GroupsThat(t, 1.0, hs, ["top"], false) == hs;
    assert NonEmpty(ParentOf(t, hs[0]));
    assert [a] + [] + hs == [a, low];
  }
}
