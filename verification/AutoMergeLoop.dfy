/** The loop of `_auto_merge_parents` as it runs, on plain results. */
module AutoMergeLoop {
  import opened AutoMerge
  import opened AutoMergeLaws
  import opened Wrappers

  lemma ViewsOfAppend(t: Table, hs: seq<Hit>, h: Hit)
    requires AllBuilt(t, hs) && Built(t, h)
    ensures AllBuilt(t, hs + [h]) && Views(t, hs + [h]) == Views(t, hs) + [View(t, h)]
  {
    assert (hs + [h])[..|hs|] == hs;
  }

  lemma {:induction false} ViewsConcat(t: Table, a: seq<Hit>, b: seq<Hit>)
    requires AllBuilt(t, a) && AllBuilt(t, b)
    ensures AllBuilt(t, a + b) && Views(t, a + b) == Views(t, a) + Views(t, b)
  {
    if b == [] {
      assert a + b == a;
    } else {
      ViewsConcat(t, a, b[..|b| - 1]);
      ViewsOfAppend(t, a + b[..|b| - 1], b[|b| - 1]);
      assert a + b == (a + b[..|b| - 1]) + [b[|b| - 1]];
    }
  }

  lemma {:induction false} ViewsAt(t: Table, hs: seq<Hit>, i: nat)
    requires AllBuilt(t, hs) && i < |hs|
    ensures Views(t, hs)[i] == View(t, hs[i])
  {
    if i < |hs| - 1 {
      ViewsAt(t, hs[..|hs| - 1], i);
    }
  }

  lemma {:induction false} ViewsOfLeaves(t: Table, rs: seq<QueryResult>)
    ensures AllBuilt(t, Leaves(rs)) && Views(t, Leaves(rs)) == rs
  {
    LeavesAreLeaves(rs);
    if rs != [] {
      ViewsOfLeaves(t, rs[..|rs| - 1]);
    }
  }

  /** The groups collected from a list of hits: their order, their members, and the rest. */
  ghost predicate IsGrouping(t: Table, hs: seq<Hit>, order: seq<string>, groups: map<string, seq<QueryResult>>, through: seq<QueryResult>)
    requires AllBuilt(t, hs)
  {
    && order == GroupIds(t, hs)
    && groups.Keys == (set id | id in order)
    && AllBuilt(t, Passthrough(t, hs)) && through == Views(t, Passthrough(t, hs))
    && forall id :: id in order ==> AllBuilt(t, Children(t, hs, id)) && groups[id] == Views(t, Children(t, hs, id))
  }

  lemma OtherGroups(t: Table, hs: seq<Hit>, h: Hit, order: seq<string>, groups: map<string, seq<QueryResult>>, through: seq<QueryResult>)
    requires AllBuilt(t, hs) && IsGrouping(t, hs, order, groups, through)
    ensures forall id :: id in order && !(Grouped(t, h) && ParentOf(t, h).value == id) ==>
      AllBuilt(t, Children(t, hs + [h], id)) && groups[id] == Views(t, Children(t, hs + [h], id))
  {
    forall id | id in order && !(Grouped(t, h) && ParentOf(t, h).value == id)
      ensures Children(t, hs + [h], id) == Children(t, hs, id)
    {
      ChildrenOfAppend(t, hs, h, id);
    }
  }

  /** One more result joins its group. */
  lemma GroupingExtend(t: Table, hs: seq<Hit>, h: Hit, order: seq<string>, groups: map<string, seq<QueryResult>>, through: seq<QueryResult>)
    requires AllBuilt(t, hs) && Built(t, h) && AllBuilt(t, hs + [h]) && IsGrouping(t, hs, order, groups, through)
    requires Grouped(t, h) && ParentOf(t, h).value in order
    ensures IsGrouping(t, hs + [h], order, groups[ParentOf(t, h).value := groups[ParentOf(t, h).value] + [View(t, h)]], through)
  {
    hide Children, GroupIds, Passthrough, Views;
    var p := ParentOf(t, h).value;
    GroupingParts(t, hs, h);
    OtherGroups(t, hs, h, order, groups, through);
    ChildrenOfAppend(t, hs, h, p);
    ViewsOfAppend(t, Children(t, hs, p), h);
  }

  /** One more result opens its group. */
  lemma GroupingOpen(t: Table, hs: seq<Hit>, h: Hit, order: seq<string>, groups: map<string, seq<QueryResult>>, through: seq<QueryResult>)
    requires AllBuilt(t, hs) && Built(t, h) && AllBuilt(t, hs + [h]) && IsGrouping(t, hs, order, groups, through)
    requires Grouped(t, h) && ParentOf(t, h).value !in order
    ensures IsGrouping(t, hs + [h], order + [ParentOf(t, h).value], groups[ParentOf(t, h).value := [View(t, h)]], through)
  {
    hide Children, GroupIds, Passthrough;
    var p := ParentOf(t, h).value;
    GroupingParts(t, hs, h);
    GroupIdsSound(t, hs);
    OtherGroups(t, hs, h, order, groups, through);
    ChildrenOfAppend(t, hs, h, p);
    assert Children(t, hs + [h], p) == [h];
    ViewsOfAppend(t, [], h);
    assert [] + [h] == [h];
    var groups' := groups[p := [View(t, h)]];
    assert groups'.Keys == set id | id in order + [p];
  }

  /** One more result has no stored ancestor. */
  lemma GroupingPass(t: Table, hs: seq<Hit>, h: Hit, order: seq<string>, groups: map<string, seq<QueryResult>>, through: seq<QueryResult>)
    requires AllBuilt(t, hs) && Built(t, h) && AllBuilt(t, hs + [h]) && IsGrouping(t, hs, order, groups, through)
    requires !Grouped(t, h)
    ensures IsGrouping(t, hs + [h], order, groups, through + [View(t, h)])
  {
    GroupingParts(t, hs, h);
    OtherGroups(t, hs, h, order, groups, through);
    ViewsOfAppend(t, Passthrough(t, hs), h);
  }

  method GroupResults(t: Table, active: seq<QueryResult>, ghost hs: seq<Hit>)
    returns (order: seq<string>, groups: map<string, seq<QueryResult>>, through: seq<QueryResult>)
    requires AllBuilt(t, hs) && active == Views(t, hs)
    ensures IsGrouping(t, hs, order, groups, through)
  {
    order, groups, through := [], map[], [];
    for i := 0 to |active|
      invariant IsGrouping(t, hs[..i], order, groups, through)
    {
      var r := active[i];
      ViewsAt(t, hs, i);
      ParentOfView(t, hs[i]);
      assert hs[..i + 1] == hs[..i] + [hs[i]];
      if NonEmpty(r.parentChunkId) && r.parentChunkId.value in t {
        var p := r.parentChunkId.value;
        if p in groups {
          GroupingExtend(t, hs[..i], hs[i], order, groups, through);
          groups := groups[p := groups[p] + [r]];
        } else {
          GroupingOpen(t, hs[..i], hs[i], order, groups, through);
          order, groups := order + [p], groups[p := [r]];
        }
      } else {
        GroupingPass(t, hs[..i], hs[i], order, groups, through);
        through := through + [r];
      }
    }
    assert hs[..|active|] == hs;
  }

  lemma ParentOfView(t: Table, h: Hit)
    requires Built(t, h)
    ensures View(t, h).parentChunkId == ParentOf(t, h)
  {
  }

  /** The merged list and flag after the groups of `ids`. */
  ghost predicate IsMerged(t: Table, threshold: real, hs: seq<Hit>, ids: seq<string>, merged: seq<QueryResult>, anyMerged: bool)
    requires forall id :: id in ids ==> id in t
  {
    && AllBuilt(t, MergeGroups(t, threshold, hs, ids))
    && merged == Views(t, MergeGroups(t, threshold, hs, ids))
    && (anyMerged <==> Promoted(t, threshold, hs, ids) != [])
  }

  /** Replaces each group that meets the threshold by its ancestor and keeps the others. */
  method MergeResults(t: Table, threshold: real, order: seq<string>, groups: map<string, seq<QueryResult>>, ghost hs: seq<Hit>,
                      ghost through: seq<QueryResult>)
    returns (merged: seq<QueryResult>, anyMerged: bool)
    requires AllBuilt(t, hs) && IsGrouping(t, hs, order, groups, through)
    ensures IsMerged(t, threshold, hs, order, merged, anyMerged)
  {
    hide Children, GroupIds, MergeGroups, Promoted, Views, Passthrough;
    merged, anyMerged := [], false;
    MergedNone(t, threshold, hs);
    assert order[..0] == [];
    GroupIdsSound(t, hs);
    for i := 0 to |order|
      invariant IsMerged(t, threshold, hs, order[..i], merged, anyMerged)
    {
      var pid := order[i];
      var children := groups[pid];
      var a := t[pid];
      MergeOneMore(t, threshold, hs, order[..i], pid, merged, anyMerged);
      assert order[..i + 1] == order[..i] + [pid];
      if |children| as real / a.childCount as real >= threshold {
        var r := BuildMergedResult(pid, a, children).(parentChunkId := a.parentId);
        merged := merged + [r];
        anyMerged := true;
      } else {
        merged := merged + children;
      }
    }
    assert order[..|order|] == order;
  }

  lemma MergedNone(t: Table, threshold: real, hs: seq<Hit>)
    ensures IsMerged(t, threshold, hs, [], [], false)
  {
  }

  lemma MergeGroupBuilt(t: Table, threshold: real, id: string, kids: seq<Hit>)
    requires id in t && kids != [] && AllBuilt(t, kids)
    ensures AllBuilt(t, MergeGroup(t, threshold, id, kids))
    ensures Views(t, MergeGroup(t, threshold, id, kids)) ==
      if Meets(t, threshold, id, |kids|) then [BuildMergedResult(id, t[id], Views(t, kids)).(parentChunkId := t[id].parentId)]
      else Views(t, kids)
  {
    if Meets(t, threshold, id, |kids|) {
      var node := Node(id, kids);
      assert Built(t, node);
      ViewsOfAppend(t, [], node);
      assert [] + [node] == [node];
    }
  }

  /** One more group extends the list by its ancestor or by its members. */
  lemma MergeOneMore(t: Table, threshold: real, hs: seq<Hit>, front: seq<string>, id: string,
                     merged: seq<QueryResult>, anyMerged: bool)
    requires id in t && forall x :: x in front ==> x in t
    requires Children(t, hs, id) != [] && AllBuilt(t, Children(t, hs, id))
    requires IsMerged(t, threshold, hs, front, merged, anyMerged)
    ensures var children := Views(t, Children(t, hs, id));
      if Meets(t, threshold, id, |children|) then
        IsMerged(t, threshold, hs, front + [id], merged + [BuildMergedResult(id, t[id], children).(parentChunkId := t[id].parentId)], true)
      else IsMerged(t, threshold, hs, front + [id], merged + children, anyMerged)
  {
    var kids := Children(t, hs, id);
    assert (front + [id])[..|front|] == front;
    MergeGroupBuilt(t, threshold, id, kids);
    ViewsConcat(t, MergeGroups(t, threshold, hs, front), MergeGroup(t, threshold, id, kids));
  }

  predicate HasParents(rs: seq<QueryResult>) {
    exists r :: r in rs && NonEmpty(r.parentChunkId)
  }

  lemma ParentsSeen(t: Table, hs: seq<Hit>)
    requires AllBuilt(t, hs)
    ensures AnyParent(t, hs) <==> HasParents(Views(t, hs))
  {
    var vs := Views(t, hs);
    forall i | 0 <= i < |hs|
      ensures vs[i].parentChunkId == ParentOf(t, hs[i])
    {
      ViewsAt(t, hs, i);
      ParentOfView(t, hs[i]);
    }
    if AnyParent(t, hs) {
      var i :| 0 <= i < |hs| && NonEmpty(ParentOf(t, hs[i]));
      assert NonEmpty(vs[i].parentChunkId) && vs[i] in vs;
    }
    if HasParents(vs) {
      var i :| 0 <= i < |vs| && NonEmpty(vs[i].parentChunkId);
      assert NonEmpty(ParentOf(t, hs[i]));
    }
  }

  /** The results held by the loop are the views of `hs`. */
  ghost predicate Shows(t: Table, rs: seq<QueryResult>, hs: seq<Hit>) {
    AllBuilt(t, hs) && rs == Views(t, hs)
  }

  lemma ShowsConcat(t: Table, rs: seq<QueryResult>, hs: seq<Hit>, rs': seq<QueryResult>, hs': seq<Hit>)
    requires Shows(t, rs, hs) && Shows(t, rs', hs')
    ensures Shows(t, rs + rs', hs + hs')
  {
    ViewsConcat(t, hs, hs');
  }

  /** One level: group, look up, merge. */
  method Round(t: Table, threshold: real, active: seq<QueryResult>, ghost a: seq<Hit>)
    returns (through: seq<QueryResult>, merged: seq<QueryResult>, anyMerged: bool)
    requires Shows(t, active, a)
    ensures Shows(t, through, Passthrough(t, a))
    ensures Shows(t, merged, MergeGroups(t, threshold, a, GroupIds(t, a)))
    ensures anyMerged <==> Promoted(t, threshold, a, GroupIds(t, a)) != []
  {
    var order, groups;
    order, groups, through := GroupResults(t, active, a);
    merged, anyMerged := MergeResults(t, threshold, order, groups, a, through);
  }

  /** The whole pass. Its results are those of the specification, seen without their provenance. */
  method AutoMergeParents(results: seq<QueryResult>, threshold: real, maxDepth: nat, t: Table) returns (out: seq<QueryResult>)
    ensures Shows(t, out, Merge(t, threshold, results, maxDepth))
  {
    hide GroupIds, MergeGroups, Promoted, Views, Passthrough, AnyParent, HasParents;
    var active, settled: seq<QueryResult> := results, [];
    ghost var a, s: seq<Hit> := Leaves(results), [];
    ViewsOfLeaves(t, results);
    for round := 0 to maxDepth
      invariant Shows(t, active, a) && Shows(t, settled, s)
      invariant Climb(t, threshold, a, s, maxDepth - round) == Merge(t, threshold, results, maxDepth)
    {
      ParentsSeen(t, a);
      ShowsConcat(t, settled, s, active, a);
      if !HasParents(active) {
        return settled + active;
      }
      var through, merged, anyMerged := Round(t, threshold, active, a);
      ShowsConcat(t, settled, s, through, Passthrough(t, a));
      settled := settled + through;
      s := s + Passthrough(t, a);
      active, a := merged, MergeGroups(t, threshold, a, GroupIds(t, a));
      ShowsConcat(t, settled, s, active, a);
      if !anyMerged {
        return settled + active;
      }
    }
    ShowsConcat(t, settled, s, active, a);
    out := settled + active;
  }
}
