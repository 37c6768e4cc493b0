/** What one auto-merge pass keeps: its leaves, its threshold, its score bounds, and the fixpoint. */
module AutoMergeLaws {
  import opened AutoMerge
  import opened Wrappers

  // ---------------------------------------------------------------- grouping

  ghost predicate Distinct(ids: seq<string>) {
    forall i, j :: 0 <= i < j < |ids| ==> ids[i] != ids[j]
  }

  lemma {:induction false} GroupIdsSound(t: Table, hs: seq<Hit>)
    ensures Distinct(GroupIds(t, hs))
    ensures forall id :: id in GroupIds(t, hs) <==> Children(t, hs, id) != []
  {
    if hs != [] {
      GroupIdsSound(t, hs[..|hs| - 1]);
    }
  }

  lemma GroupingParts(t: Table, hs: seq<Hit>, h: Hit)
    ensures GroupIds(t, hs + [h]) ==
      if Grouped(t, h) && ParentOf(t, h).value !in GroupIds(t, hs) then GroupIds(t, hs) + [ParentOf(t, h).value] else GroupIds(t, hs)
    ensures Passthrough(t, hs + [h]) == if Grouped(t, h) then Passthrough(t, hs) else Passthrough(t, hs) + [h]
  {
    assert (hs + [h])[..|hs|] == hs;
  }

  /** All groups, one after another, with nothing merged. */
  function Regroup(t: Table, hs: seq<Hit>, ids: seq<string>): seq<Hit> {
    if ids == [] then []
    else Regroup(t, hs, ids[..|ids| - 1]) + Children(t, hs, ids[|ids| - 1])
  }

  lemma ChildrenOfAppend(t: Table, hs: seq<Hit>, h: Hit, id: string)
    ensures Children(t, hs + [h], id)
         == Children(t, hs, id) + (if Grouped(t, h) && ParentOf(t, h).value == id then [h] else [])
  {
    assert (hs + [h])[..|hs|] == hs;
  }

  /** The group a hit belongs to, if `ids` covers it. */
  ghost function Share(t: Table, h: Hit, ids: seq<string>): multiset<Hit> {
    if Grouped(t, h) && ParentOf(t, h).value in ids then multiset{h} else multiset{}
  }

  lemma ShareOfAppend(t: Table, h: Hit, front: seq<string>, id: string)
    requires id !in front
    ensures Share(t, h, front + [id]) == Share(t, h, front) + Share(t, h, [id])
  {
  }

  lemma Shuffle(a: multiset<Hit>, b: multiset<Hit>, c: multiset<Hit>, d: multiset<Hit>)
    ensures (a + b) + (c + d) == (a + c) + (b + d)
  {
  }

  lemma {:induction false} RegroupOfAppend(t: Table, hs: seq<Hit>, h: Hit, ids: seq<string>)
    requires Distinct(ids)
    ensures multiset(Regroup(t, hs + [h], ids)) == multiset(Regroup(t, hs, ids)) + Share(t, h, ids)
  {
    hide Children, GroupIds, Passthrough, Grouped, ParentOf;
    if ids != [] {
      var front, id := ids[..|ids| - 1], ids[|ids| - 1];
      var kids, kids' := Children(t, hs, id), Children(t, hs + [h], id);
      RegroupOfAppend(t, hs, h, front);
      assert ids == front + [id];
      ShareOfAppend(t, h, front, id);
      assert multiset(kids') == multiset(kids) + Share(t, h, [id]) by {
        ChildrenOfAppend(t, hs, h, id);
      }
      Shuffle(multiset(Regroup(t, hs, front)), Share(t, h, front), multiset(kids), Share(t, h, [id]));
    }
  }

  lemma RegroupNewGroup(t: Table, hs: seq<Hit>, h: Hit, ids: seq<string>)
    requires Grouped(t, h) && ParentOf(t, h).value !in GroupIds(t, hs)
    ensures Regroup(t, hs + [h], ids + [ParentOf(t, h).value]) == Regroup(t, hs + [h], ids) + [h]
  {
    var p := ParentOf(t, h).value;
    assert (ids + [p])[..|ids|] == ids;
    GroupIdsSound(t, hs);
    ChildrenOfAppend(t, hs, h, p);
    assert [] + [h] == [h];
  }

  /** One more result adds itself, in its group or among the rest. */
  lemma RegroupStep(t: Table, hs: seq<Hit>, h: Hit, through: multiset<Hit>, grouped: multiset<Hit>)
    requires through == multiset(Passthrough(t, hs)) && grouped == multiset(Regroup(t, hs, GroupIds(t, hs)))
    ensures multiset(Passthrough(t, hs + [h])) + multiset(Regroup(t, hs + [h], GroupIds(t, hs + [h])))
         == (through + grouped) + multiset{h}
  {
    hide Children, Regroup;
    var ids := GroupIds(t, hs);
    GroupIdsSound(t, hs);
    GroupingParts(t, hs, h);
    RegroupOfAppend(t, hs, h, ids);
    if Grouped(t, h) && ParentOf(t, h).value !in ids {
      RegroupNewGroup(t, hs, h, ids);
    }
  }

  lemma RegroupNone(t: Table)
    ensures Passthrough(t, []) == [] && GroupIds(t, []) == [] && forall hs :: Regroup(t, hs, []) == []
  {
  }

  /** Grouping loses and invents nothing. */
  lemma {:induction false} RegroupPermutes(t: Table, hs: seq<Hit>)
    ensures multiset(Passthrough(t, hs)) + multiset(Regroup(t, hs, GroupIds(t, hs))) == multiset(hs)
  {
    hide Children, Regroup, Passthrough, GroupIds, Grouped;
    if hs == [] {
      RegroupNone(t);
    } else {
      var front, h := hs[..|hs| - 1], hs[|hs| - 1];
      RegroupPermutes(t, front);
      RegroupStep(t, front, h, multiset(Passthrough(t, front)), multiset(Regroup(t, front, GroupIds(t, front))));
      assert hs == front + [h];
    }
  }

  // ---------------------------------------------------------------- conservation of leaves

  ghost function LeavesOf(h: Hit): multiset<QueryResult>
    decreases h, 1
  {
    match h
    case Leaf(r) => multiset{r}
    case Node(_, kids) => AllLeaves(kids)
  }

  ghost function AllLeaves(hs: seq<Hit>): multiset<QueryResult>
    decreases hs, 0
  {
    if hs == [] then multiset{} else AllLeaves(hs[..|hs| - 1]) + LeavesOf(hs[|hs| - 1])
  }

  lemma {:induction false} AllLeavesConcat(a: seq<Hit>, b: seq<Hit>)
    ensures AllLeaves(a + b) == AllLeaves(a) + AllLeaves(b)
  {
    if b == [] {
      assert a + b == a;
    } else {
      assert (a + b)[..|a + b| - 1] == a + b[..|b| - 1];
      AllLeavesConcat(a, b[..|b| - 1]);
    }
  }

  lemma {:induction false} AllLeavesPermutes(a: seq<Hit>, b: seq<Hit>)
    requires multiset(a) == multiset(b)
    ensures AllLeaves(a) == AllLeaves(b)
  {
    if a == [] {
      assert |b| == |multiset(b)| == |multiset(a)| == 0;
    } else {
      var front, h := a[..|a| - 1], a[|a| - 1];
      assert a == front + [h];
      assert h in multiset(b);
      var i :| 0 <= i < |b| && b[i] == h;
      assert b == b[..i] + [h] + b[i + 1..];
      assert multiset(b) == multiset(b[..i]) + multiset{h} + multiset(b[i + 1..]);
      assert multiset(front) == multiset(a) - multiset{h};
      assert multiset(b[..i] + b[i + 1..]) == multiset(b) - multiset{h};
      AllLeavesPermutes(front, b[..i] + b[i + 1..]);
      AllLeavesConcat(b[..i], b[i + 1..]);
      AllLeavesConcat(b[..i] + [h], b[i + 1..]);
      AllLeavesConcat(b[..i], [h]);
      assert AllLeaves([h]) == AllLeaves([]) + LeavesOf(h);
    }
  }

  lemma {:induction false} MergeGroupsKeepsLeaves(t: Table, threshold: real, hs: seq<Hit>, ids: seq<string>)
    requires forall id :: id in ids ==> id in t
    ensures AllLeaves(MergeGroups(t, threshold, hs, ids)) == AllLeaves(Regroup(t, hs, ids))
  {
    if ids != [] {
      var front, id := ids[..|ids| - 1], ids[|ids| - 1];
      var kids := Children(t, hs, id);
      MergeGroupsKeepsLeaves(t, threshold, hs, front);
      AllLeavesConcat(MergeGroups(t, threshold, hs, front), MergeGroup(t, threshold, id, kids));
      AllLeavesConcat(Regroup(t, hs, front), kids);
      assert AllLeaves([Node(id, kids)]) == AllLeaves([]) + LeavesOf(Node(id, kids));
    }
  }

  lemma RoundKeepsLeaves(t: Table, threshold: real, hs: seq<Hit>)
    ensures AllLeaves(Passthrough(t, hs)) + AllLeaves(MergeGroups(t, threshold, hs, GroupIds(t, hs))) == AllLeaves(hs)
  {
    var through, grouped := Passthrough(t, hs), Regroup(t, hs, GroupIds(t, hs));
    MergeGroupsKeepsLeaves(t, threshold, hs, GroupIds(t, hs));
    RegroupPermutes(t, hs);
    AllLeavesConcat(through, grouped);
    AllLeavesPermutes(through + grouped, hs);
  }

  /** The loop neither loses nor duplicates a leaf, whatever the table, threshold and depth. */
  lemma {:induction false} ClimbKeepsLeaves(t: Table, threshold: real, active: seq<Hit>, settled: seq<Hit>, depth: nat)
    ensures AllLeaves(Climb(t, threshold, active, settled, depth)) == AllLeaves(settled) + AllLeaves(active)
    decreases depth
  {
    hide Passthrough, MergeGroups, GroupIds, AllLeaves, Promoted, AnyParent;
    if depth == 0 || !AnyParent(t, active) {
      AllLeavesConcat(settled, active);
    } else {
      var through, merged := Passthrough(t, active), MergeGroups(t, threshold, active, GroupIds(t, active));
      RoundKeepsLeaves(t, threshold, active);
      AllLeavesConcat(settled, through);
      AllLeavesConcat(settled + through, merged);
      if Promoted(t, threshold, active, GroupIds(t, active)) != [] {
        ClimbKeepsLeaves(t, threshold, merged, settled + through, depth - 1);
      }
    }
  }

  lemma {:induction false} LeavesOfLeaves(rs: seq<QueryResult>)
    ensures AllLeaves(Leaves(rs)) == multiset(rs)
  {
    if rs != [] {
      LeavesOfLeaves(rs[..|rs| - 1]);
      assert rs == rs[..|rs| - 1] + [rs[|rs| - 1]];
    }
  }

  /** The leaves represented by the outputs partition the input results. */
  lemma MergePartitionsInput(t: Table, threshold: real, rs: seq<QueryResult>, maxDepth: nat)
    ensures AllLeaves(Merge(t, threshold, rs, maxDepth)) == multiset(rs)
  {
    ClimbKeepsLeaves(t, threshold, Leaves(rs), [], maxDepth);
    LeavesOfLeaves(rs);
  }

  // ---------------------------------------------------------------- thresholds climbed

  /** Every ancestor in the hit is stored, replaced exactly results that name it as parent, and met
      the threshold against its child count; and so did every ancestor below it. */
  ghost predicate Earned(t: Table, threshold: real, h: Hit) {
    h.Node? ==>
      && h.id in t && h.kids != []
      && Meets(t, threshold, h.id, |h.kids|)
      && forall k :: k in h.kids ==> ParentOf(t, k) == Some(h.id) && Earned(t, threshold, k)
  }

  ghost predicate AllEarned(t: Table, threshold: real, hs: seq<Hit>) {
    forall h :: h in hs ==> Earned(t, threshold, h)
  }

  lemma {:induction false} PassthroughIsPart(t: Table, hs: seq<Hit>)
    ensures forall h :: h in Passthrough(t, hs) ==> h in hs && !Grouped(t, h)
  {
    if hs != [] {
      PassthroughIsPart(t, hs[..|hs| - 1]);
    }
  }

  lemma {:induction false} MergeGroupsEarned(t: Table, threshold: real, hs: seq<Hit>, ids: seq<string>)
    requires forall id :: id in ids ==> id in t && Children(t, hs, id) != []
    requires AllEarned(t, threshold, hs)
    ensures AllEarned(t, threshold, MergeGroups(t, threshold, hs, ids))
  {
    if ids != [] {
      MergeGroupsEarned(t, threshold, hs, ids[..|ids| - 1]);
      var id := ids[|ids| - 1];
      assert AllEarned(t, threshold, MergeGroup(t, threshold, id, Children(t, hs, id)));
    }
  }

  lemma {:induction false} ClimbEarned(t: Table, threshold: real, active: seq<Hit>, settled: seq<Hit>, depth: nat)
    requires AllEarned(t, threshold, active) && AllEarned(t, threshold, settled)
    ensures AllEarned(t, threshold, Climb(t, threshold, active, settled, depth))
    decreases depth
  {
    hide Passthrough, MergeGroups, GroupIds, Earned, Promoted, AnyParent, Children;
    if depth > 0 && AnyParent(t, active) {
      var through, merged := Passthrough(t, active), MergeGroups(t, threshold, active, GroupIds(t, active));
      PassthroughIsPart(t, active);
      GroupIdsSound(t, active);
      MergeGroupsEarned(t, threshold, active, GroupIds(t, active));
      EarnedConcat(t, threshold, active, settled, through);
      if Promoted(t, threshold, active, GroupIds(t, active)) != [] {
        ClimbEarned(t, threshold, merged, settled + through, depth - 1);
      }
    }
  }

  lemma EarnedConcat(t: Table, threshold: real, active: seq<Hit>, settled: seq<Hit>, through: seq<Hit>)
    requires AllEarned(t, threshold, active) && AllEarned(t, threshold, settled)
    requires forall h :: h in through ==> h in active
    ensures AllEarned(t, threshold, settled + through)
  {
  }

  lemma {:induction false} LeavesAreLeaves(rs: seq<QueryResult>)
    ensures forall h :: h in Leaves(rs) ==> h.Leaf?
    ensures forall i :: 0 <= i < |rs| ==> Leaves(rs)[i] == Leaf(rs[i])
  {
    if rs != [] {
      LeavesAreLeaves(rs[..|rs| - 1]);
    }
  }

  /** Every merged output met the threshold at each level it climbed. */
  lemma MergeEarned(t: Table, threshold: real, rs: seq<QueryResult>, maxDepth: nat)
    ensures AllEarned(t, threshold, Merge(t, threshold, rs, maxDepth))
  {
    LeavesAreLeaves(rs);
    ClimbEarned(t, threshold, Leaves(rs), [], maxDepth);
  }

  lemma {:induction false} EarnedIsBuilt(t: Table, threshold: real, h: Hit)
    requires Earned(t, threshold, h)
    ensures Built(t, h)
  {
    if h.Node? {
      forall k | k in h.kids
        ensures Built(t, k)
      {
        EarnedIsBuilt(t, threshold, k);
      }
    }
  }

  // ---------------------------------------------------------------- scores

  ghost predicate ScoresWithin(rs: multiset<QueryResult>, lo: real, hi: real) {
    forall r :: r in rs ==> lo <= r.score <= hi
  }

  lemma {:induction false} SumWithin(rs: seq<QueryResult>, lo: real, hi: real)
    requires forall r :: r in rs ==> lo <= r.score <= hi
    ensures |rs| as real * lo <= SumScores(rs) <= |rs| as real * hi
  {
    if rs != [] {
      SumWithin(rs[..|rs| - 1], lo, hi);
      var n := |rs| - 1;
      assert |rs| as real * lo == n as real * lo + lo;
      assert |rs| as real * hi == n as real * hi + hi;
    }
  }

  lemma MeanWithin(sum: real, n: nat, lo: real, hi: real)
    requires n > 0 && n as real * lo <= sum <= n as real * hi
    ensures lo <= sum / n as real <= hi
  {
    var m := sum / n as real;
    assert m * n as real == sum;
    assert m < lo ==> (lo - m) * n as real > 0.0;
    assert m > hi ==> (m - hi) * n as real > 0.0;
  }

  /** A hit's score lies between the least and the greatest score of its leaves. */
  lemma {:induction false} ScoreWithinLeaves(t: Table, h: Hit, lo: real, hi: real)
    requires Built(t, h) && ScoresWithin(LeavesOf(h), lo, hi)
    ensures lo <= View(t, h).score <= hi
    decreases h, 1
  {
    hide SumScores;
    match h
    case Leaf(r) =>
      assert r in LeavesOf(h);
    case Node(id, kids) =>
      assert AllBuilt(t, kids);
      ScoresWithinLeaves(t, kids, lo, hi);
      SumWithin(Views(t, kids), lo, hi);
      MeanWithin(SumScores(Views(t, kids)), |kids|, lo, hi);
  }

  lemma {:induction false} ScoresWithinLeaves(t: Table, hs: seq<Hit>, lo: real, hi: real)
    requires AllBuilt(t, hs) && ScoresWithin(AllLeaves(hs), lo, hi)
    ensures forall r :: r in Views(t, hs) ==> lo <= r.score <= hi
    decreases hs, 0
  {
    if hs != [] {
      ScoresWithinLeaves(t, hs[..|hs| - 1], lo, hi);
      ScoreWithinLeaves(t, hs[|hs| - 1], lo, hi);
    }
  }

  // ---------------------------------------------------------------- fixpoint

  /** No group among `hs` of an ancestor ranked at most `k` meets the threshold. */
  ghost predicate StableUpTo(t: Table, threshold: real, rank: string -> nat, hs: seq<Hit>, k: nat) {
    forall id :: id in t && rank(id) <= k && Children(t, hs, id) != [] ==> !Meets(t, threshold, id, |Children(t, hs, id)|)
  }

  ghost predicate Stable(t: Table, threshold: real, hs: seq<Hit>) {
    forall id :: id in t && Children(t, hs, id) != [] ==> !Meets(t, threshold, id, |Children(t, hs, id)|)
  }

  /** `rank` is a height for the stored forest: at least 1, and larger at a stored parent. */
  ghost predicate Heights(t: Table, rank: string -> nat) {
    forall id :: id in t ==>
      rank(id) >= 1 && (t[id].parentId.Some? && t[id].parentId.value in t ==> rank(id) < rank(t[id].parentId.value))
  }

  lemma {:induction false} ChildrenConcat(t: Table, a: seq<Hit>, b: seq<Hit>, id: string)
    ensures Children(t, a + b, id) == Children(t, a, id) + Children(t, b, id)
  {
    if b == [] {
      assert a + b == a;
    } else {
      ChildrenConcat(t, a, b[..|b| - 1], id);
      assert a + b == (a + b[..|b| - 1]) + [b[|b| - 1]];
      ChildrenOfAppend(t, a + b[..|b| - 1], b[|b| - 1], id);
    }
  }

  lemma {:induction false} ChildrenOfOthers(t: Table, hs: seq<Hit>, id: string)
    requires forall h :: h in hs ==> !Grouped(t, h) || ParentOf(t, h) != Some(id)
    ensures Children(t, hs, id) == []
  {
    if hs != [] {
      ChildrenOfOthers(t, hs[..|hs| - 1], id);
    }
  }

  lemma {:induction false} ChildrenOfOwn(t: Table, hs: seq<Hit>, id: string)
    requires forall h :: h in hs ==> Grouped(t, h) && ParentOf(t, h) == Some(id)
    ensures Children(t, hs, id) == hs
  {
    if hs != [] {
      ChildrenOfOwn(t, hs[..|hs| - 1], id);
    }
  }

  /** After a round, the group of `id` is gone if it merged and unchanged if it failed, provided no
      ancestor promoted in this round is itself a child of `id`. */
  lemma {:induction false} GroupAfterRound(t: Table, threshold: real, hs: seq<Hit>, ids: seq<string>, id: string)
    requires id in t && Distinct(ids) && forall x :: x in ids ==> x in t
    requires forall x :: x in ids && t[x].parentId == Some(id) ==> !Meets(t, threshold, x, |Children(t, hs, x)|)
    ensures Children(t, MergeGroups(t, threshold, hs, ids), id)
         == if id in ids && !Meets(t, threshold, id, |Children(t, hs, id)|) then Children(t, hs, id) else []
  {
    hide Children, GroupIds;
    if ids == [] {
      ChildrenOfOthers(t, [], id);
    } else {
      var front, x := ids[..|ids| - 1], ids[|ids| - 1];
      var kids := Children(t, hs, x);
      GroupAfterRound(t, threshold, hs, front, id);
      ChildrenConcat(t, MergeGroups(t, threshold, hs, front), MergeGroup(t, threshold, x, kids), id);
      if Meets(t, threshold, x, |kids|) {
        ChildrenOfOthers(t, [Node(x, kids)], id);
      } else if x == id {
        ChildrenOfOwn(t, kids, id);
      } else {
        ChildrenOfOthers(t, kids, id);
      }
    }
  }

  lemma {:induction false} PromotedMeet(t: Table, threshold: real, hs: seq<Hit>, ids: seq<string>)
    requires forall x :: x in ids ==> x in t
    ensures forall x :: x in Promoted(t, threshold, hs, ids) <==> x in ids && Meets(t, threshold, x, |Children(t, hs, x)|)
  {
    if ids != [] {
      PromotedMeet(t, threshold, hs, ids[..|ids| - 1]);
    }
  }

  /** Each round settles one more level of the forest for good. */
  lemma RoundRaisesStability(t: Table, threshold: real, rank: string -> nat, hs: seq<Hit>, k: nat)
    requires Heights(t, rank) && StableUpTo(t, threshold, rank, hs, k)
    ensures StableUpTo(t, threshold, rank, MergeGroups(t, threshold, hs, GroupIds(t, hs)), k + 1)
  {
    GroupIdsSound(t, hs);
    var ids := GroupIds(t, hs);
    forall id | id in t && rank(id) <= k + 1 && Children(t, MergeGroups(t, threshold, hs, ids), id) != []
      ensures !Meets(t, threshold, id, |Children(t, MergeGroups(t, threshold, hs, ids), id)|)
    {
      GroupAfterRound(t, threshold, hs, ids, id);
    }
  }

  lemma {:induction false} NoMergeMeansRegroup(t: Table, threshold: real, hs: seq<Hit>, ids: seq<string>)
    requires forall x :: x in ids ==> x in t
    requires Promoted(t, threshold, hs, ids) == []
    ensures MergeGroups(t, threshold, hs, ids) == Regroup(t, hs, ids)
  {
    if ids != [] {
      NoMergeMeansRegroup(t, threshold, hs, ids[..|ids| - 1]);
    }
  }

  lemma UngroupedAfter(t: Table, settled: seq<Hit>, active: seq<Hit>, id: string)
    requires forall h :: h in settled ==> !Grouped(t, h)
    ensures Children(t, settled + active, id) == Children(t, active, id)
  {
    ChildrenConcat(t, settled, active, id);
    ChildrenOfOthers(t, settled, id);
  }

  lemma {:induction false} NoParentNoGroup(t: Table, hs: seq<Hit>)
    requires !AnyParent(t, hs)
    ensures forall h :: h in hs ==> !Grouped(t, h)
  {
    forall h | h in hs
      ensures !Grouped(t, h)
    {
      var i :| 0 <= i < |hs| && hs[i] == h;
    }
  }

  /** Run for at least as many rounds as the forest is high, the loop ends with no group left to merge. */
  lemma {:induction false} ClimbEndsStable(t: Table, threshold: real, rank: string -> nat, active: seq<Hit>, settled: seq<Hit>,
                                           k: nat, depth: nat)
    requires Heights(t, rank) && forall id :: id in t ==> rank(id) <= k + depth
    requires StableUpTo(t, threshold, rank, active, k)
    requires forall h :: h in settled ==> !Grouped(t, h)
    ensures Stable(t, threshold, Climb(t, threshold, active, settled, depth))
    decreases depth
  {
    hide Children, GroupIds, MergeGroups, Passthrough, Promoted;
    if depth == 0 || !AnyParent(t, active) {
      if depth != 0 {
        NoParentNoGroup(t, active);
      }
      forall id | id in t && Children(t, settled + active, id) != []
        ensures !Meets(t, threshold, id, |Children(t, settled + active, id)|)
      {
        UngroupedAfter(t, settled, active, id);
        if depth != 0 {
          ChildrenOfOthers(t, active, id);
        }
      }
    } else {
      var ids := GroupIds(t, active);
      var settled', active' := settled + Passthrough(t, active), MergeGroups(t, threshold, active, ids);
      PassthroughIsPart(t, active);
      if Promoted(t, threshold, active, ids) == [] {
        StableWhenNothingMerges(t, threshold, active, settled');
      } else {
        RoundRaisesStability(t, threshold, rank, active, k);
        ClimbEndsStable(t, threshold, rank, active', settled', k + 1, depth - 1);
      }
    }
  }

  lemma StableWhenNothingMerges(t: Table, threshold: real, hs: seq<Hit>, settled: seq<Hit>)
    requires Promoted(t, threshold, hs, GroupIds(t, hs)) == []
    requires forall h :: h in settled ==> !Grouped(t, h)
    ensures Stable(t, threshold, settled + MergeGroups(t, threshold, hs, GroupIds(t, hs)))
  {
    var ids := GroupIds(t, hs);
    GroupIdsSound(t, hs);
    PromotedMeet(t, threshold, hs, ids);
    var out := MergeGroups(t, threshold, hs, ids);
    forall id | id in t && Children(t, settled + out, id) != []
      ensures !Meets(t, threshold, id, |Children(t, settled + out, id)|)
    {
      UngroupedAfter(t, settled, out, id);
      forall x | x in ids
        ensures !Meets(t, threshold, x, |Children(t, hs, x)|)
      {
        assert x !in Promoted(t, threshold, hs, ids);
      }
      GroupAfterRound(t, threshold, hs, ids, id);
    }
  }

  lemma {:induction false} NothingPromoted(t: Table, threshold: real, hs: seq<Hit>, ids: seq<string>)
    requires forall x :: x in ids ==> x in t && !Meets(t, threshold, x, |Children(t, hs, x)|)
    ensures Promoted(t, threshold, hs, ids) == []
  {
    if ids != [] {
      NothingPromoted(t, threshold, hs, ids[..|ids| - 1]);
    }
  }

  /** On a stable input the loop only reorders. */
  lemma StableIsUnchanged(t: Table, threshold: real, hs: seq<Hit>, depth: nat)
    requires Stable(t, threshold, hs)
    ensures multiset(Climb(t, threshold, hs, [], depth)) == multiset(hs)
  {
    var ids := GroupIds(t, hs);
    GroupIdsSound(t, hs);
    NothingPromoted(t, threshold, hs, ids);
    NoMergeMeansRegroup(t, threshold, hs, ids);
    RegroupPermutes(t, hs);
    assert [] + hs == hs;
    assert [] + Passthrough(t, hs) == Passthrough(t, hs);
  }

  /** Handing the results back in as plain hits changes no group. */
  lemma {:induction false} ReenteredGroups(t: Table, hs: seq<Hit>, id: string)
    requires AllBuilt(t, hs)
    ensures |Children(t, Leaves(Views(t, hs)), id)| == |Children(t, hs, id)|
  {
    if hs != [] {
      var front, h := hs[..|hs| - 1], hs[|hs| - 1];
      ReenteredGroups(t, front, id);
      var vs := Views(t, hs);
      assert vs[..|vs| - 1] == Views(t, front) && vs[|vs| - 1] == View(t, h);
      ChildrenOfAppend(t, Leaves(Views(t, front)), Leaf(View(t, h)), id);
    }
  }

  /** When `maxDepth` covers the height of the forest, a second pass over the results changes
      nothing as a multiset. */
  lemma MergeIsIdempotent(t: Table, threshold: real, rank: string -> nat, rs: seq<QueryResult>, maxDepth: nat, again: nat)
    requires Heights(t, rank) && forall id :: id in t ==> rank(id) <= maxDepth
    ensures AllBuilt(t, Merge(t, threshold, rs, maxDepth))
    ensures var out := Views(t, Merge(t, threshold, rs, maxDepth));
      multiset(Merge(t, threshold, out, again)) == multiset(Leaves(out))
  {
    var hits := Merge(t, threshold, rs, maxDepth);
    MergeEarned(t, threshold, rs, maxDepth);
    forall h | h in hits
      ensures Built(t, h)
    {
      EarnedIsBuilt(t, threshold, h);
    }
    ClimbEndsStable(t, threshold, rank, Leaves(rs), [], 0, maxDepth);
    var out := Leaves(Views(t, hits));
    forall id | id in t && Children(t, out, id) != []
      ensures !Meets(t, threshold, id, |Children(t, out, id)|)
    {
      ReenteredGroups(t, hits, id);
    }
    StableIsUnchanged(t, threshold, out, again);
  }

  /** Ancestors one above the other, the last without a parent, each with a single child. */
  ghost predicate IsChain(t: Table, ids: seq<string>) {
    forall i :: 0 <= i < |ids| ==>
      && ids[i] != "" && ids[i] in t && t[ids[i]].childCount == 1
      && t[ids[i]].parentId == (if i + 1 < |ids| then Some(ids[i + 1]) else None)
  }

  /** The hit after `k` promotions along the chain. */
  function Tower(ids: seq<string>, leaf: QueryResult, k: nat): Hit
    requires k <= |ids|
  {
    if k == 0 then Leaf(leaf) else Node(ids[k - 1], [Tower(ids, leaf, k - 1)])
  }

  lemma TowerWaits(t: Table, ids: seq<string>, leaf: QueryResult, k: nat)
    requires IsChain(t, ids) && ids != [] && leaf.parentChunkId == Some(ids[0]) && k <= |ids|
    ensures ParentOf(t, Tower(ids, leaf, k)) == if k < |ids| then Some(ids[k]) else None
  {
    if k > 0 {
      assert Tower(ids, leaf, k).id == ids[k - 1];
    }
  }

  /** Each round promotes a hit on the chain once more, until the top. */
  lemma {:induction false} TowerGrows(t: Table, threshold: real, ids: seq<string>, leaf: QueryResult, k: nat, depth: nat)
    requires IsChain(t, ids) && ids != [] && leaf.parentChunkId == Some(ids[0]) && k <= |ids| && threshold <= 1.0
    ensures Climb(t, threshold, [Tower(ids, leaf, k)], [], depth)
         == [Tower(ids, leaf, if k + depth <= |ids| then k + depth else |ids|)]
    decreases depth
  {
    hide Climb, ParentOf, IsChain, Tower;
    TowerWaits(t, ids, leaf, k);
    if depth == 0 || k == |ids| {
      LoneHitStays(t, threshold, Tower(ids, leaf, k), depth);
    } else {
      ChainRung(t, ids, k);
      OneRound(t, threshold, Tower(ids, leaf, k), ids[k], depth);
      TowerStep(ids, leaf, k);
      TowerGrows(t, threshold, ids, leaf, k + 1, depth - 1);
    }
  }

  lemma TowerStep(ids: seq<string>, leaf: QueryResult, k: nat)
    requires k < |ids|
    ensures Tower(ids, leaf, k + 1) == Node(ids[k], [Tower(ids, leaf, k)])
  {
  }

  lemma ChainRung(t: Table, ids: seq<string>, k: nat)
    requires IsChain(t, ids) && k < |ids|
    ensures ids[k] != "" && ids[k] in t && t[ids[k]].childCount == 1
  {
  }

  lemma LoneHitStays(t: Table, threshold: real, h: Hit, depth: nat)
    requires depth == 0 || ParentOf(t, h) == None
    ensures Climb(t, threshold, [h], [], depth) == [h]
  {
    assert [] + [h] == [h];
  }

  lemma OneRound(t: Table, threshold: real, h: Hit, id: string, depth: nat)
    requires ParentOf(t, h) == Some(id) && id != "" && id in t && t[id].childCount == 1 && threshold <= 1.0 && depth > 0
    ensures Climb(t, threshold, [h], [], depth) == Climb(t, threshold, [Node(id, [h])], [], depth - 1)
  {
    hide ParentOf;
    var hs, ids := [h], [id];
    assert hs[..0] == [] && ids[..0] == [];
    assert NonEmpty(ParentOf(t, hs[0]));
    assert Children(t, hs, id) == [h];
    assert Passthrough(t, hs) == [];
    assert GroupIds(t, hs) == ids;
    assert Meets(t, threshold, id, 1);
    assert MergeGroups(t, threshold, hs, ids) == [Node(id, [h])];
    assert Promoted(t, threshold, hs, ids) == ids;
  }

  lemma {:induction false} TowerBuilt(t: Table, ids: seq<string>, leaf: QueryResult, k: nat)
    requires IsChain(t, ids) && k <= |ids|
    ensures Built(t, Tower(ids, leaf, k))
  {
    if k > 0 {
      TowerBuilt(t, ids, leaf, k - 1);
    }
  }

  lemma LeafAlone(r: QueryResult)
    ensures Leaves([r]) == [Leaf(r)]
  {
    assert [r][..0] == [];
  }

  lemma ViewAlone(t: Table, h: Hit)
    requires Built(t, h)
    ensures AllBuilt(t, [h]) && Views(t, [h]) == [View(t, h)]
  {
    assert [h][..0] == [];
  }

  /** The height is needed: on a chain of any height, a second pass changes nothing if and only if
      `maxDepth` covers it. */
  lemma ShallowMergeIsNotIdempotent(t: Table, threshold: real, ids: seq<string>, leaf: QueryResult, maxDepth: nat, again: nat)
    requires IsChain(t, ids) && ids != [] && leaf.parentChunkId == Some(ids[0]) && threshold <= 1.0 && again > 0
    ensures AllBuilt(t, Merge(t, threshold, [leaf], maxDepth))
    ensures var out := Views(t, Merge(t, threshold, [leaf], maxDepth));
      multiset(Merge(t, threshold, out, again)) == multiset(Leaves(out)) <==> maxDepth >= |ids|
  {
    hide Climb, Views, View, Leaves, IsChain;
    var k := if maxDepth <= |ids| then maxDepth else |ids|;
    var h := Tower(ids, leaf, k);
    LeafAlone(leaf);
    TowerGrows(t, threshold, ids, leaf, 0, maxDepth);
    TowerBuilt(t, ids, leaf, k);
    ViewAlone(t, h);
    var r := View(t, h);
    ViewWaits(t, h);
    LeafAlone(r);
    TowerWaits(t, ids, leaf, k);
    if k == |ids| {
      LoneHitStays(t, threshold, Leaf(r), again);
    } else {
      ChainRung(t, ids, k);
      OneRound(t, threshold, Leaf(r), ids[k], again);
      ClimbKeepsNodes(t, threshold, [Node(ids[k], [Leaf(r)])], [], again - 1);
      var second := Merge(t, threshold, [r], again);
      assert second == Climb(t, threshold, [Node(ids[k], [Leaf(r)])], [], again - 1);
      assert Leaf(r) !in second;
      assert Leaf(r) in multiset([Leaf(r)]) && Leaf(r) !in multiset(second);
    }
  }

  lemma ViewWaits(t: Table, h: Hit)
    requires Built(t, h)
    ensures View(t, h).parentChunkId == ParentOf(t, h)
  {
  }

  /** A loop that starts from ancestors only ends with ancestors only. */
  lemma {:induction false} ClimbKeepsNodes(t: Table, threshold: real, active: seq<Hit>, settled: seq<Hit>, depth: nat)
    requires forall h :: h in active || h in settled ==> h.Node?
    ensures forall h :: h in Climb(t, threshold, active, settled, depth) ==> h.Node?
    decreases depth
  {
    hide GroupIds, Passthrough, MergeGroups, Promoted, AnyParent;
    if depth > 0 && AnyParent(t, active) {
      var ids := GroupIds(t, active);
      var through, merged := Passthrough(t, active), MergeGroups(t, threshold, active, ids);
      PassthroughIsPart(t, active);
      GroupsKeepNodes(t, threshold, active, ids);
      assert forall h :: h in settled + through ==> h.Node?;
      assert forall h :: h in settled + through + merged ==> h.Node?;
      ClimbKeepsNodes(t, threshold, merged, settled + through, depth - 1);
    }
  }

  lemma {:induction false} GroupsKeepNodes(t: Table, threshold: real, hs: seq<Hit>, ids: seq<string>)
    requires (forall id :: id in ids ==> id in t) && forall h :: h in hs ==> h.Node?
    ensures forall h :: h in MergeGroups(t, threshold, hs, ids) ==> h.Node?
  {
    if ids != [] {
      GroupsKeepNodes(t, threshold, hs, ids[..|ids| - 1]);
    }
  }
}
