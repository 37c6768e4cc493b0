/** What the results of an auto-merge pass contain, and in which order they come. */
module AutoMergeOutputs {
  import opened AutoMerge
  import opened AutoMergeLaws
  import opened AutoMergeLoop
  import opened Wrappers

  // ---------------------------------------------------------------- scores

  /** The sum of the scores, whatever their order. */
  ghost function Total(rs: multiset<QueryResult>): real
    decreases |rs|
  {
    if rs == multiset{} then 0.0
    else
      var r :| r in rs;
      r.score + Total(rs - multiset{r})
  }

  lemma {:induction false} TotalWithout(rs: multiset<QueryResult>, x: QueryResult)
    requires x in rs
    ensures Total(rs) == x.score + Total(rs - multiset{x})
    decreases |rs|
  {
    var r :| r in rs && Total(rs) == r.score + Total(rs - multiset{r});
    if r != x {
      TotalWithout(rs - multiset{r}, x);
      TotalWithout(rs - multiset{x}, r);
      assert rs - multiset{r} - multiset{x} == rs - multiset{x} - multiset{r};
    }
  }

  /** The summing loop does not depend on the order of its group. */
  lemma {:induction false} SumIsTotal(rs: seq<QueryResult>)
    ensures SumScores(rs) == Total(multiset(rs))
  {
    if rs != [] {
      var front, last := rs[..|rs| - 1], rs[|rs| - 1];
      SumIsTotal(front);
      assert rs == front + [last];
      assert multiset(rs) - multiset{last} == multiset(front);
      TotalWithout(multiset(rs), last);
    }
  }

  // ---------------------------------------------------------------- contents

  /** `out` stands for the ancestor `id` in place of `group`: it carries the stored row, the mean score of
      the group and the fields its members share. */
  ghost predicate Replaces(t: Table, threshold: real, out: QueryResult, id: string, group: seq<QueryResult>) {
    && id in t && group != []
    && (forall r :: r in group ==> r.parentChunkId == Some(id))
    && |group| as real / t[id].childCount as real >= threshold
    && out.chunkId == id && out.text == t[id].text && out.pageNum == t[id].pageNum && out.pageLabel == t[id].pageLabel
    && out.parentChunkId == t[id].parentId
    && out.merged && out.rerankScore == None && out.chunkIndex == None
    && out.score * |group| as real == Total(multiset(group))
    && exists r :: r in group && out.origin == r.origin
  }

  /** What an output is: an input, unchanged, or the result of an ancestor in place of its group. */
  ghost predicate IsOutput(t: Table, threshold: real, rs: seq<QueryResult>, h: Hit, out: QueryResult) {
    match h
    case Leaf(r) => out == r && r in rs
    case Node(id, kids) => AllBuilt(t, kids) && Replaces(t, threshold, out, id, Views(t, kids))
  }

  lemma {:induction false} LeavesAreInputs(hs: seq<Hit>, h: Hit)
    requires h in hs && h.Leaf?
    ensures h.result in AllLeaves(hs)
  {
    var front, last := hs[..|hs| - 1], hs[|hs| - 1];
    assert hs == front + [last];
    if h != last {
      LeavesAreInputs(front, h);
    }
  }

  lemma MeanTimesCount(sum: real, n: nat)
    requires n > 0
    ensures sum / n as real * n as real == sum
  {
  }

  lemma NodeReplaces(t: Table, threshold: real, h: Hit)
    requires h.Node? && Earned(t, threshold, h) && Built(t, h)
    ensures AllBuilt(t, h.kids) && Replaces(t, threshold, View(t, h), h.id, Views(t, h.kids))
  {
    hide SumScores, Total, Views;
    var group := Views(t, h.kids);
    SumIsTotal(group);
    MeanTimesCount(SumScores(group), |group|);
    forall r | r in group
      ensures r.parentChunkId == Some(h.id)
    {
      var i :| 0 <= i < |group| && group[i] == r;
      ViewsAt(t, h.kids, i);
      ParentOfView(t, h.kids[i]);
    }
    assert group[0] in group;
  }

  /** Each output of the pass is an input or replaces a group that met the threshold. */
  lemma EachIsOutput(t: Table, threshold: real, rs: seq<QueryResult>, maxDepth: nat, i: nat)
    requires i < |Merge(t, threshold, rs, maxDepth)|
    ensures AllBuilt(t, Merge(t, threshold, rs, maxDepth))
    ensures var hs := Merge(t, threshold, rs, maxDepth);
      IsOutput(t, threshold, rs, hs[i], Views(t, hs)[i])
  {
    hide Merge, Replaces, Views, Meets;
    var hs := Merge(t, threshold, rs, maxDepth);
    MergeEarned(t, threshold, rs, maxDepth);
    forall h | h in hs
      ensures Built(t, h)
    {
      EarnedIsBuilt(t, threshold, h);
    }
    ViewsAt(t, hs, i);
    assert hs[i] in hs;
    if hs[i].Leaf? {
      LeavesAreInputs(hs, hs[i]);
      MergePartitionsInput(t, threshold, rs, maxDepth);
    } else {
      NodeReplaces(t, threshold, hs[i]);
    }
  }

  // ---------------------------------------------------------------- order

  /** The group of a hit that has a stored ancestor. */
  predicate InGroup(t: Table, h: Hit, id: string) {
    Grouped(t, h) && ParentOf(t, h) == Some(id)
  }

  /** Some hit of group `a` comes before every hit of group `b`. */
  ghost predicate Leads(t: Table, hs: seq<Hit>, a: string, b: string) {
    exists k: nat :: k < |hs| && InGroup(t, hs[k], a) && forall m :: 0 <= m <= k ==> !InGroup(t, hs[m], b)
  }

  lemma LeadsOnward(t: Table, front: seq<Hit>, h: Hit, a: string, b: string)
    requires Leads(t, front, a, b)
    ensures Leads(t, front + [h], a, b)
  {
    hide InGroup;
    var k: nat :| k < |front| && InGroup(t, front[k], a) && forall m :: 0 <= m <= k ==> !InGroup(t, front[m], b);
    assert (front + [h])[k] == front[k];
    assert forall m :: 0 <= m <= k ==> (front + [h])[m] == front[m];
  }

  /** Groups come in the order in which their first member does. */
  lemma {:induction false} GroupsInOrder(t: Table, hs: seq<Hit>)
    ensures forall i, j :: 0 <= i < j < |GroupIds(t, hs)| ==> Leads(t, hs, GroupIds(t, hs)[i], GroupIds(t, hs)[j])
  {
    hide Leads;
    if hs != [] {
      var front, h := hs[..|hs| - 1], hs[|hs| - 1];
      var rest := GroupIds(t, front);
      GroupsInOrder(t, front);
      assert hs == front + [h];
      forall i, j | 0 <= i < j < |GroupIds(t, hs)|
        ensures Leads(t, hs, GroupIds(t, hs)[i], GroupIds(t, hs)[j])
      {
        if j == |rest| {
          NewGroupFollows(t, front, rest[i], GroupIds(t, hs)[j]);
        }
        LeadsOnward(t, front, h, rest[i], GroupIds(t, hs)[j]);
      }
    }
  }

  lemma NewGroupFollows(t: Table, hs: seq<Hit>, a: string, b: string)
    requires a in GroupIds(t, hs) && b !in GroupIds(t, hs)
    ensures Leads(t, hs, a, b)
  {
    hide GroupIds;
    GroupNamed(t, hs, a);
    GroupListed(t, hs);
  }

  lemma {:induction false} GroupNamed(t: Table, hs: seq<Hit>, id: string)
    requires id in GroupIds(t, hs)
    ensures exists k: nat :: k < |hs| && InGroup(t, hs[k], id)
  {
    var front, h := hs[..|hs| - 1], hs[|hs| - 1];
    if id in GroupIds(t, front) {
      GroupNamed(t, front, id);
      var k: nat :| k < |front| && InGroup(t, front[k], id);
      assert hs[k] == front[k];
    } else {
      assert InGroup(t, hs[|hs| - 1], id);
    }
  }

  lemma {:induction false} GroupListed(t: Table, hs: seq<Hit>)
    ensures forall m, id :: 0 <= m < |hs| && InGroup(t, hs[m], id) ==> id in GroupIds(t, hs)
  {
    if hs != [] {
      GroupListed(t, hs[..|hs| - 1]);
    }
  }

  /** The hits of `hs` without a stored ancestor, or the plain ones of one ancestor, in their order. */
  ghost function Ungrouped(t: Table, hs: seq<Hit>): seq<Hit> {
    if hs == [] then []
    else if Grouped(t, hs[0]) then Ungrouped(t, hs[1..]) else [hs[0]] + Ungrouped(t, hs[1..])
  }

  ghost function LeavesUnder(t: Table, hs: seq<Hit>, id: string): seq<Hit> {
    if hs == [] then []
    else if hs[0].Leaf? && Grouped(t, hs[0]) && ParentOf(t, hs[0]) == Some(id) then [hs[0]] + LeavesUnder(t, hs[1..], id)
    else LeavesUnder(t, hs[1..], id)
  }

  lemma {:induction false} UngroupedConcat(t: Table, a: seq<Hit>, b: seq<Hit>)
    ensures Ungrouped(t, a + b) == Ungrouped(t, a) + Ungrouped(t, b)
  {
    if a == [] {
      assert a + b == b;
    } else {
      assert (a + b)[1..] == a[1..] + b;
      UngroupedConcat(t, a[1..], b);
    }
  }

  lemma {:induction false} LeavesUnderConcat(t: Table, a: seq<Hit>, b: seq<Hit>, id: string)
    ensures LeavesUnder(t, a + b, id) == LeavesUnder(t, a, id) + LeavesUnder(t, b, id)
  {
    if a == [] {
      assert a + b == b;
    } else {
      assert (a + b)[1..] == a[1..] + b;
      LeavesUnderConcat(t, a[1..], b, id);
    }
  }

  lemma {:induction false} PassthroughIsUngrouped(t: Table, hs: seq<Hit>)
    ensures Passthrough(t, hs) == Ungrouped(t, hs)
  {
    if hs != [] {
      var front, h := hs[..|hs| - 1], hs[|hs| - 1];
      PassthroughIsUngrouped(t, front);
      assert hs == front + [h];
      UngroupedConcat(t, front, [h]);
    }
  }

  /** The results without a stored ancestor lead the outputs, in their order. */
  lemma {:induction false} SettledLeads(t: Table, threshold: real, active: seq<Hit>, settled: seq<Hit>, depth: nat)
    ensures settled <= Climb(t, threshold, active, settled, depth)
    ensures depth > 0 && AnyParent(t, active) ==> settled + Ungrouped(t, active) <= Climb(t, threshold, active, settled, depth)
    decreases depth
  {
    hide Passthrough, Ungrouped, MergeGroups, GroupIds, Promoted, AnyParent;
    PassthroughIsUngrouped(t, active);
    if depth > 0 && AnyParent(t, active) && Promoted(t, threshold, active, GroupIds(t, active)) != [] {
      SettledLeads(t, threshold, MergeGroups(t, threshold, active, GroupIds(t, active)), settled + Passthrough(t, active), depth - 1);
    }
  }

  lemma UngroupedLead(t: Table, threshold: real, rs: seq<QueryResult>, maxDepth: nat)
    ensures if maxDepth == 0 || !AnyParent(t, Leaves(rs)) then Merge(t, threshold, rs, maxDepth) == Leaves(rs)
            else Ungrouped(t, Leaves(rs)) <= Merge(t, threshold, rs, maxDepth)
  {
    SettledLeads(t, threshold, Leaves(rs), [], maxDepth);
    assert [] + Leaves(rs) == Leaves(rs) && [] + Ungrouped(t, Leaves(rs)) == Ungrouped(t, Leaves(rs));
  }

  lemma {:induction false} ChildrenKeepLeaves(t: Table, hs: seq<Hit>, x: string, id: string)
    ensures LeavesUnder(t, Children(t, hs, x), id) == if x == id then LeavesUnder(t, hs, id) else []
  {
    if hs != [] {
      var front, h := hs[..|hs| - 1], hs[|hs| - 1];
      ChildrenKeepLeaves(t, front, x, id);
      assert hs == front + [h];
      LeavesUnderConcat(t, front, [h], id);
      LeavesUnderConcat(t, Children(t, front, x), [h], id);
    }
  }

  lemma {:induction false} RoundKeepsOrder(t: Table, threshold: real, hs: seq<Hit>, ids: seq<string>, id: string)
    requires Distinct(ids) && forall x :: x in ids ==> x in t
    ensures LeavesUnder(t, MergeGroups(t, threshold, hs, ids), id)
         == if id in ids && !Meets(t, threshold, id, |Children(t, hs, id)|) then LeavesUnder(t, hs, id) else []
  {
    hide Children, LeavesUnder, Meets;
    if ids == [] {
      NoLeaves(t, id);
    } else {
      var front, x := ids[..|ids| - 1], ids[|ids| - 1];
      RoundKeepsOrder(t, threshold, hs, front, id);
      LeavesUnderConcat(t, MergeGroups(t, threshold, hs, front), MergeGroup(t, threshold, x, Children(t, hs, x)), id);
      ChildrenKeepLeaves(t, hs, x, id);
      NoLeafInNode(t, x, Children(t, hs, x), id);
    }
  }

  lemma NoLeaves(t: Table, id: string)
    ensures LeavesUnder(t, [], id) == []
  {
  }

  lemma NoLeafInNode(t: Table, x: string, kids: seq<Hit>, id: string)
    ensures LeavesUnder(t, [Node(x, kids)], id) == []
  {
    assert [Node(x, kids)][1..] == [];
  }

  lemma {:induction false} UngroupedHaveNone(t: Table, hs: seq<Hit>, id: string)
    ensures LeavesUnder(t, Ungrouped(t, hs), id) == []
    ensures Children(t, hs, id) == [] ==> LeavesUnder(t, hs, id) == []
  {
    if hs != [] {
      UngroupedHaveNone(t, hs[1..], id);
      assert hs == [hs[0]] + hs[1..];
      ChildrenConcat(t, [hs[0]], hs[1..], id);
      ChildrenOfAppend(t, [], hs[0], id);
      assert [] + [hs[0]] == [hs[0]];
      assert Grouped(t, hs[0]) || Ungrouped(t, hs)[1..] == Ungrouped(t, hs[1..]);
    }
  }

  /** The plain results under one ancestor stay together in their order, or are all merged away. */
  lemma {:induction false} ClimbKeepsOrder(t: Table, threshold: real, active: seq<Hit>, settled: seq<Hit>, depth: nat, id: string)
    requires id in t && LeavesUnder(t, settled, id) == []
    ensures LeavesUnder(t, Climb(t, threshold, active, settled, depth), id) == LeavesUnder(t, active, id)
         || LeavesUnder(t, Climb(t, threshold, active, settled, depth), id) == []
    decreases depth
  {
    hide LeavesUnder, MergeGroups, Promoted, AnyParent, Passthrough, GroupIds;
    if depth == 0 || !AnyParent(t, active) {
      LeavesUnderConcat(t, settled, active, id);
    } else {
      var ids := GroupIds(t, active);
      var through, merged := Passthrough(t, active), MergeGroups(t, threshold, active, ids);
      GroupIdsSound(t, active);
      RoundKeepsOrder(t, threshold, active, ids, id);
      PassthroughIsUngrouped(t, active);
      UngroupedHaveNone(t, active, id);
      LeavesUnderConcat(t, settled, through, id);
      if Promoted(t, threshold, active, ids) == [] {
        LeavesUnderConcat(t, settled + through, merged, id);
      } else {
        ClimbKeepsOrder(t, threshold, merged, settled + through, depth - 1, id);
      }
    }
  }

  lemma GroupsStayInOrder(t: Table, threshold: real, rs: seq<QueryResult>, maxDepth: nat, id: string)
    requires id in t
    ensures LeavesUnder(t, Merge(t, threshold, rs, maxDepth), id) == LeavesUnder(t, Leaves(rs), id)
         || LeavesUnder(t, Merge(t, threshold, rs, maxDepth), id) == []
  {
    NoLeaves(t, id);
    ClimbKeepsOrder(t, threshold, Leaves(rs), [], maxDepth, id);
  }
}
