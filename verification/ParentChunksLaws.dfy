/** What the ancestor rows of a well-formed node tree satisfy. */
module ParentChunksLaws {
  import opened ParentChunks
  import opened Sets
  import opened StableSort
  import opened Wrappers

  /** A splitter's tree: distinct ids; parent and child pointers of ancestors agree; children are
      leaves or ancestors, each listed once; a leaf is not an ancestor and its parent lists it. */
  ghost predicate WellFormed(ancestors: seq<Node>, leafIds: set<string>, leafParent: map<string, string>) {
    && DistinctIds(ancestors)
    && leafIds !! IdsOf(ancestors)
    && (forall n :: n in ancestors ==> n.id != "" && DistinctStrings(n.children))
    && (forall n :: n in ancestors && n.parent.Some? ==>
          exists p :: p in ancestors && p.id == n.parent.value && n.id in p.children)
    && (forall n, c :: n in ancestors && c in n.children ==> c in leafIds || c in IdsOf(ancestors))
    && (forall n, m :: n in ancestors && m in ancestors && m.id in n.children ==> m.parent == Some(n.id))
    && leafParent.Keys == leafIds
    && forall l :: l in leafIds ==> exists p :: p in ancestors && p.id == leafParent[l] && l in p.children
  }

  // ---------------------------------------------------------------- counting children

  function KeptChildren(children: seq<string>, kept: set<string>): set<string> {
    set c | c in children && c in kept
  }

  lemma DistinctLast(children: seq<string>)
    requires DistinctStrings(children) && children != []
    ensures children[|children| - 1] !in children[..|children| - 1] && DistinctStrings(children[..|children| - 1])
  {
  }

  lemma KeptOfAppend(front: seq<string>, last: string, kept: set<string>)
    ensures KeptChildren(front + [last], kept) == KeptChildren(front, kept) + (if last in kept then {last} else {})
    ensures last !in front ==> last !in KeptChildren(front, kept)
  {
  }

  lemma {:induction false} CountIsSize(children: seq<string>, kept: set<string>)
    requires DistinctStrings(children)
    ensures ChildCount(children, kept) == |KeptChildren(children, kept)|
  {
    if children != [] {
      hide KeptChildren, DistinctStrings;
      var front, last := children[..|children| - 1], children[|children| - 1];
      DistinctLast(children);
      CountIsSize(front, kept);
      assert children == front + [last];
      KeptOfAppend(front, last, kept);
    }
  }

  lemma {:induction false} CountPositive(children: seq<string>, kept: set<string>, c: string)
    requires c in children && c in kept
    ensures ChildCount(children, kept) > 0
  {
    var front, last := children[..|children| - 1], children[|children| - 1];
    assert children == front + [last];
    if c != last {
      CountPositive(front, kept, c);
    }
  }

  // ---------------------------------------------------------------- order

  ghost predicate LevelSorted(levels: map<string, nat>, xs: seq<Node>) {
    forall i, j :: 0 <= i < j < |xs| ==> KeyOf(levels, xs[i]) <= KeyOf(levels, xs[j])
  }

  lemma {:induction false} InsertDistinct(levels: map<string, nat>, xs: seq<Node>, x: Node)
    requires DistinctIds(xs) && forall y :: y in xs ==> y.id != x.id
    ensures DistinctIds(InsertBy(xs, x, ByLevel(levels)))
  {
    if xs != [] && KeyOf(levels, xs[|xs| - 1]) > KeyOf(levels, x) {
      var front, last := xs[..|xs| - 1], xs[|xs| - 1];
      InsertDistinct(levels, front, x);
      InsertPermutes(front, x, ByLevel(levels));
      var inserted := InsertBy(front, x, ByLevel(levels));
      forall i | 0 <= i < |inserted|
        ensures inserted[i].id != last.id
      {
        assert inserted[i] in multiset(inserted);
        assert inserted[i] in front || inserted[i] == x;
      }
    }
  }

  lemma {:induction false} SortKeepsDistinct(levels: map<string, nat>, xs: seq<Node>)
    requires DistinctIds(xs)
    ensures DistinctIds(SortByLevel(levels, xs))
  {
    if xs != [] {
      var front, last := xs[..|xs| - 1], xs[|xs| - 1];
      SortKeepsDistinct(levels, front);
      SortMembers(front, ByLevel(levels));
      assert xs == front + [last];
      InsertDistinct(levels, SortByLevel(levels, front), last);
    }
  }

  lemma SortedAncestors(levels: map<string, nat>, xs: seq<Node>)
    requires DistinctIds(xs)
    ensures LevelSorted(levels, SortByLevel(levels, xs)) && DistinctIds(SortByLevel(levels, xs))
    ensures forall y :: y in SortByLevel(levels, xs) <==> y in xs
  {
    SortKeepsDistinct(levels, xs);
    SortMembers(xs, ByLevel(levels));
    SortOrders(xs, ByLevel(levels));
    var sorted := SortByLevel(levels, xs);
    forall i, j | 0 <= i < j < |sorted|
      ensures KeyOf(levels, sorted[i]) <= KeyOf(levels, sorted[j])
    {
      assert ByLevel(levels)(sorted[i]) <= ByLevel(levels)(sorted[j]);
    }
  }

  // ---------------------------------------------------------------- rows and their nodes

  /** The node a row was made from. */
  lemma {:induction false} NodeOfRow(levels: map<string, nat>, kept: set<string>, ordered: seq<Node>, i: nat) returns (k: nat)
    requires i < |Rows(levels, kept, ordered)|
    ensures k < |ordered| && ChildCount(ordered[k].children, kept) > 0 && |Rows(levels, kept, ordered[..k])| == i
    ensures Rows(levels, kept, ordered)[i] == RowOf(levels, kept, ordered[k], Rows(levels, kept, ordered)[i].chunkIndex)
  {
    hide ChildCount, RowsAt;
    var front := ordered[..|ordered| - 1];
    if i < |Rows(levels, kept, front)| {
      k := NodeOfRow(levels, kept, front, i);
      assert front[..k] == ordered[..k];
    } else {
      k := |ordered| - 1;
    }
  }

  /** The row made from a node with a kept child. */
  lemma {:induction false} RowOfNode(levels: map<string, nat>, kept: set<string>, ordered: seq<Node>, k: nat) returns (i: nat)
    requires k < |ordered| && ChildCount(ordered[k].children, kept) > 0
    ensures i == |Rows(levels, kept, ordered[..k])| < |Rows(levels, kept, ordered)|
    ensures Rows(levels, kept, ordered)[i] == RowOf(levels, kept, ordered[k], Rows(levels, kept, ordered)[i].chunkIndex)
  {
    hide ChildCount, RowsAt;
    var front := ordered[..|ordered| - 1];
    if k < |front| {
      i := RowOfNode(levels, kept, front, k);
      assert front[..k] == ordered[..k];
    } else {
      i := |Rows(levels, kept, front)|;
    }
  }

  // ---------------------------------------------------------------- the forest of rows

  /** What a build on a well-formed tree starts from. */
  ghost predicate IsBuild(ancestors: seq<Node>, leafIds: set<string>, leafParent: map<string, string>, finalNodes: seq<string>,
                          rank: string -> nat, levels: map<string, nat>, rows: seq<ParentChunk>)
  {
    && WellFormed(ancestors, leafIds, leafParent)
    && Acyclic(IndexOf(ancestors), rank)
    && levels == Levels(ancestors, rank)
    && rows == Rows(levels, KeptIds(ancestors, leafIds, finalNodes), SortByLevel(levels, ancestors))
  }

  lemma IndexAt(ancestors: seq<Node>, n: Node)
    requires DistinctIds(ancestors) && n in ancestors
    ensures n.id in IndexOf(ancestors) && IndexOf(ancestors)[n.id] == n
  {
    IndexIsIndex(ancestors);
    var i :| 0 <= i < |ancestors| && ancestors[i] == n;
    IndexFinds(IndexOf(ancestors), ancestors, i);
  }

  /** A non-root ancestor sits exactly one level below its parent, which keeps a child and is stored. */
  lemma ParentAbove(ancestors: seq<Node>, leafIds: set<string>, leafParent: map<string, string>, finalNodes: seq<string>,
                    rank: string -> nat, levels: map<string, nat>, rows: seq<ParentChunk>, n: Node) returns (p: Node)
    requires IsBuild(ancestors, leafIds, leafParent, finalNodes, rank, levels, rows)
    requires n in ancestors && n.parent.Some?
    ensures p in ancestors && p.id == n.parent.value && n.id in p.children
    ensures KeyOf(levels, n) == KeyOf(levels, p) + 1
    ensures ChildCount(p.children, KeptIds(ancestors, leafIds, finalNodes)) > 0
  {
    p :| p in ancestors && p.id == n.parent.value && n.id in p.children;
    var index := IndexOf(ancestors);
    IndexAt(ancestors, n);
    IndexAt(ancestors, p);
    assert ParentNode(index, n) == Some(p);
    assert n.id in levels && p.id in levels;
    assert levels[n.id] == Level(index, rank, n.id) && levels[p.id] == Level(index, rank, p.id);
    CountPositive(p.children, KeptIds(ancestors, leafIds, finalNodes), n.id);
  }

  /** The ancestor behind a row. */
  lemma AncestorOfRow(ancestors: seq<Node>, leafIds: set<string>, leafParent: map<string, string>, finalNodes: seq<string>,
                      rank: string -> nat, levels: map<string, nat>, rows: seq<ParentChunk>, i: nat) returns (n: Node)
    requires IsBuild(ancestors, leafIds, leafParent, finalNodes, rank, levels, rows) && i < |rows|
    ensures n in ancestors && ChildCount(n.children, KeptIds(ancestors, leafIds, finalNodes)) > 0
    ensures rows[i] == RowOf(levels, KeptIds(ancestors, leafIds, finalNodes), n, rows[i].chunkIndex)
  {
    hide ChildCount, RowsAt, Rows, SortByLevel;
    SortedAncestors(levels, ancestors);
    var k := NodeOfRow(levels, KeptIds(ancestors, leafIds, finalNodes), SortByLevel(levels, ancestors), i);
    n := SortByLevel(levels, ancestors)[k];
    assert n in SortByLevel(levels, ancestors);
  }

  /** The row of an ancestor with a kept child. */
  lemma RowOfAncestor(ancestors: seq<Node>, leafIds: set<string>, leafParent: map<string, string>, finalNodes: seq<string>,
                      rank: string -> nat, levels: map<string, nat>, rows: seq<ParentChunk>, n: Node) returns (i: nat)
    requires IsBuild(ancestors, leafIds, leafParent, finalNodes, rank, levels, rows)
    requires n in ancestors && ChildCount(n.children, KeptIds(ancestors, leafIds, finalNodes)) > 0
    ensures i < |rows| && rows[i] == RowOf(levels, KeptIds(ancestors, leafIds, finalNodes), n, rows[i].chunkIndex)
  {
    hide ChildCount, RowsAt, Rows, SortByLevel;
    SortedAncestors(levels, ancestors);
    var k :| 0 <= k < |SortByLevel(levels, ancestors)| && SortByLevel(levels, ancestors)[k] == n;
    i := RowOfNode(levels, KeptIds(ancestors, leafIds, finalNodes), SortByLevel(levels, ancestors), k);
  }

  /** Rows are closed under `parentId` and strictly root-first: a row's parent is an earlier row, one
      level up. */
  lemma ParentComesFirst(ancestors: seq<Node>, leafIds: set<string>, leafParent: map<string, string>, finalNodes: seq<string>,
                         rank: string -> nat, levels: map<string, nat>, rows: seq<ParentChunk>, i: nat) returns (j: nat)
    requires IsBuild(ancestors, leafIds, leafParent, finalNodes, rank, levels, rows)
    requires i < |rows| && rows[i].parentId.Some?
    ensures j < i && Some(rows[j].chunkId) == rows[i].parentId && rows[i].level == rows[j].level + 1
  {
    hide ChildCount, RowsAt, Rows, SortByLevel, WellFormed, Acyclic, Levels, KeptIds;
    var kept, ordered := KeptIds(ancestors, leafIds, finalNodes), SortByLevel(levels, ancestors);
    BuildIsDistinct(ancestors, leafIds, leafParent, finalNodes, rank, levels, rows);
    SortedAncestors(levels, ancestors);
    var k := NodeOfRow(levels, kept, ordered, i);
    assert ordered[k] in ordered;
    var p := ParentAbove(ancestors, leafIds, leafParent, finalNodes, rank, levels, rows, ordered[k]);
    var q :| 0 <= q < |ordered| && ordered[q] == p;
    assert q < k;
    j := RowOfNode(levels, kept, ordered, q);
    var j' := RowOfNode(levels, kept, ordered[..k], q);
    assert ordered[..k][..q] == ordered[..q];
  }

  lemma BuildIsDistinct(ancestors: seq<Node>, leafIds: set<string>, leafParent: map<string, string>, finalNodes: seq<string>,
                        rank: string -> nat, levels: map<string, nat>, rows: seq<ParentChunk>)
    requires IsBuild(ancestors, leafIds, leafParent, finalNodes, rank, levels, rows)
    ensures DistinctIds(ancestors)
  {
  }

  /** Every insert finds its parent, whatever the table held: the foreign key never rejects a build. */
  lemma {:induction false} EveryInsertFindsParent(ancestors: seq<Node>, leafIds: set<string>, leafParent: map<string, string>,
                                                  finalNodes: seq<string>, rank: string -> nat, levels: map<string, nat>,
                                                  rows: seq<ParentChunk>, table: map<string, ParentChunk>, k: nat)
    requires IsBuild(ancestors, leafIds, leafParent, finalNodes, rank, levels, rows) && k <= |rows|
    ensures InsertRows(table, rows[..k]).Some?
    ensures InsertRows(table, rows[..k]).value.Keys == table.Keys + set i | 0 <= i < k :: rows[i].chunkId
  {
    hide IsBuild;
    if k > 0 {
      EveryInsertFindsParent(ancestors, leafIds, leafParent, finalNodes, rank, levels, rows, table, k - 1);
      assert rows[..k][..k - 1] == rows[..k - 1];
      if rows[k - 1].parentId.Some? {
        var j := ParentComesFirst(ancestors, leafIds, leafParent, finalNodes, rank, levels, rows, k - 1);
      }
    }
  }

  /** The parent of every surviving leaf is stored. */
  lemma LeafParentIsStored(ancestors: seq<Node>, leafIds: set<string>, leafParent: map<string, string>, finalNodes: seq<string>,
                           rank: string -> nat, levels: map<string, nat>, rows: seq<ParentChunk>, leaf: string) returns (i: nat)
    requires IsBuild(ancestors, leafIds, leafParent, finalNodes, rank, levels, rows)
    requires leaf in SurvivingLeaves(leafIds, finalNodes)
    ensures i < |rows| && rows[i].chunkId == leafParent[leaf]
  {
    hide ChildCount, Rows, SortByLevel;
    var p :| p in ancestors && p.id == leafParent[leaf] && leaf in p.children;
    CountPositive(p.children, KeptIds(ancestors, leafIds, finalNodes), leaf);
    i := RowOfAncestor(ancestors, leafIds, leafParent, finalNodes, rank, levels, rows, p);
  }

  // ---------------------------------------------------------------- child counts

  function LeafChildren(n: Node, leafIds: set<string>, finalNodes: seq<string>): set<string> {
    set c | c in n.children && c in SurvivingLeaves(leafIds, finalNodes)
  }

  function AncestorChildren(n: Node, ancestors: seq<Node>): set<string> {
    set c | c in n.children && c in IdsOf(ancestors)
  }

  /** The rows stored under ancestor `id`. */
  function StoredChildren(rows: seq<ParentChunk>, id: string): set<string> {
    set i | 0 <= i < |rows| && rows[i].parentId == Some(id) :: rows[i].chunkId
  }

  /** No ancestor directly below `id` lost all its children to the length filter. */
  ghost predicate NoneDroppedBelow(ancestors: seq<Node>, kept: set<string>, id: string) {
    forall m :: m in ancestors && m.parent == Some(id) ==> ChildCount(m.children, kept) > 0
  }

  /** A row's child count is positive: its surviving leaves plus all its ancestor children. */
  lemma ChildCountMeaning(ancestors: seq<Node>, leafIds: set<string>, leafParent: map<string, string>, finalNodes: seq<string>,
                          rank: string -> nat, levels: map<string, nat>, rows: seq<ParentChunk>, i: nat) returns (n: Node)
    requires IsBuild(ancestors, leafIds, leafParent, finalNodes, rank, levels, rows) && i < |rows|
    ensures n in ancestors && n.id == rows[i].chunkId
    ensures rows[i].childCount == |LeafChildren(n, leafIds, finalNodes)| + |AncestorChildren(n, ancestors)| > 0
  {
    hide ChildCount, Rows, SortByLevel, Levels, Acyclic, KeptIds, LeafChildren, AncestorChildren;
    n := AncestorOfRow(ancestors, leafIds, leafParent, finalNodes, rank, levels, rows, i);
    CountSplits(n, ancestors, leafIds, finalNodes);
  }

  lemma CountSplits(n: Node, ancestors: seq<Node>, leafIds: set<string>, finalNodes: seq<string>)
    requires leafIds !! IdsOf(ancestors) && DistinctStrings(n.children)
    ensures ChildCount(n.children, KeptIds(ancestors, leafIds, finalNodes))
         == |LeafChildren(n, leafIds, finalNodes)| + |AncestorChildren(n, ancestors)|
  {
    hide ChildCount, IdsOf;
    var kept := KeptIds(ancestors, leafIds, finalNodes);
    CountIsSize(n.children, kept);
    assert KeptChildren(n.children, kept) == LeafChildren(n, leafIds, finalNodes) + AncestorChildren(n, ancestors);
  }

  /** The child count is never below the leaves and rows stored under the row, and it counts more
      than those exactly when an ancestor below it was itself dropped. */
  lemma ChildCountIsStoredIff(ancestors: seq<Node>, leafIds: set<string>, leafParent: map<string, string>, finalNodes: seq<string>,
                              rank: string -> nat, levels: map<string, nat>, rows: seq<ParentChunk>, i: nat) returns (n: Node)
    requires IsBuild(ancestors, leafIds, leafParent, finalNodes, rank, levels, rows) && i < |rows|
    ensures n in ancestors && n.id == rows[i].chunkId
    ensures rows[i].childCount >= |LeafChildren(n, leafIds, finalNodes)| + |StoredChildren(rows, n.id)|
    ensures rows[i].childCount == |LeafChildren(n, leafIds, finalNodes)| + |StoredChildren(rows, n.id)| <==>
      NoneDroppedBelow(ancestors, KeptIds(ancestors, leafIds, finalNodes), n.id)
  {
    hide IsBuild;
    n := ChildCountMeaning(ancestors, leafIds, leafParent, finalNodes, rank, levels, rows, i);
    StoredAreChildren(ancestors, leafIds, leafParent, finalNodes, rank, levels, rows, n);
    SubsetSize(StoredChildren(rows, n.id), AncestorChildren(n, ancestors));
  }

  lemma StoredAreChildren(ancestors: seq<Node>, leafIds: set<string>, leafParent: map<string, string>, finalNodes: seq<string>,
                          rank: string -> nat, levels: map<string, nat>, rows: seq<ParentChunk>, n: Node)
    requires IsBuild(ancestors, leafIds, leafParent, finalNodes, rank, levels, rows) && n in ancestors
    ensures StoredChildren(rows, n.id) <= AncestorChildren(n, ancestors)
    ensures StoredChildren(rows, n.id) == AncestorChildren(n, ancestors) <==>
      NoneDroppedBelow(ancestors, KeptIds(ancestors, leafIds, finalNodes), n.id)
  {
    hide ChildCount, Rows, SortByLevel, Levels, Acyclic;
    var kept := KeptIds(ancestors, leafIds, finalNodes);
    forall c | c in StoredChildren(rows, n.id)
      ensures c in AncestorChildren(n, ancestors)
    {
      var j :| 0 <= j < |rows| && rows[j].parentId == Some(n.id) && rows[j].chunkId == c;
      var m := AncestorOfRow(ancestors, leafIds, leafParent, finalNodes, rank, levels, rows, j);
      var p :| p in ancestors && p.id == m.parent.value && m.id in p.children;
      SameId(ancestors, p, n);
    }
    forall m | m in ancestors && m.parent == Some(n.id)
      ensures m.id in AncestorChildren(n, ancestors)
      ensures m.id in StoredChildren(rows, n.id) <==> ChildCount(m.children, kept) > 0
    {
      var p :| p in ancestors && p.id == m.parent.value && m.id in p.children;
      SameId(ancestors, p, n);
      StoredIffKept(ancestors, leafIds, leafParent, finalNodes, rank, levels, rows, m);
    }
    forall c | c in AncestorChildren(n, ancestors)
      ensures exists m :: m in ancestors && m.parent == Some(n.id) && m.id == c
    {
      var m :| m in ancestors && m.id == c;
    }
  }

  lemma StoredIffKept(ancestors: seq<Node>, leafIds: set<string>, leafParent: map<string, string>, finalNodes: seq<string>,
                      rank: string -> nat, levels: map<string, nat>, rows: seq<ParentChunk>, m: Node)
    requires IsBuild(ancestors, leafIds, leafParent, finalNodes, rank, levels, rows) && m in ancestors && m.parent.Some?
    ensures m.id in StoredChildren(rows, m.parent.value) <==> ChildCount(m.children, KeptIds(ancestors, leafIds, finalNodes)) > 0
  {
    hide ChildCount, Rows, SortByLevel, Levels, Acyclic, KeptIds;
    if ChildCount(m.children, KeptIds(ancestors, leafIds, finalNodes)) > 0 {
      var j := RowOfAncestor(ancestors, leafIds, leafParent, finalNodes, rank, levels, rows, m);
    }
    if m.id in StoredChildren(rows, m.parent.value) {
      var j :| 0 <= j < |rows| && rows[j].chunkId == m.id;
      var m' := AncestorOfRow(ancestors, leafIds, leafParent, finalNodes, rank, levels, rows, j);
      SameId(ancestors, m, m');
    }
  }

  lemma SameId(ancestors: seq<Node>, a: Node, b: Node)
    requires DistinctIds(ancestors) && a in ancestors && b in ancestors && a.id == b.id
    ensures a == b
  {
    var i :| 0 <= i < |ancestors| && ancestors[i] == a;
    var j :| 0 <= j < |ancestors| && ancestors[j] == b;
    assert i == j;
  }

  /** A three-level tree: a root over two middle nodes with one leaf each. */
  function Root(root: string, mid: string, thin: string): Node {
    Node(root, None, [mid, thin], "", None, None)
  }

  function Middle(root: string, mid: string, leaf: string): Node {
    Node(mid, Some(root), [leaf], "", None, None)
  }

  function Tree(root: string, mid: string, thin: string, leaf: string, short: string): seq<Node> {
    [Root(root, mid, thin), Middle(root, mid, leaf), Middle(root, thin, short)]
  }

  ghost predicate FiveNames(root: string, mid: string, thin: string, leaf: string, short: string) {
    root != "" && mid != "" && thin != "" && DistinctStrings([root, mid, thin, leaf, short])
  }

  lemma DistinctNames(root: string, mid: string, thin: string, leaf: string, short: string)
    requires FiveNames(root, mid, thin, leaf, short)
    ensures root != mid && root != thin && root != leaf && root != short && mid != thin && mid != leaf && mid != short
    ensures thin != leaf && thin != short && leaf != short
  {
    var names := [root, mid, thin, leaf, short];
    assert names[0] != names[1] && names[0] != names[2] && names[0] != names[3] && names[0] != names[4] && names[1] != names[2]
        && names[1] != names[3] && names[1] != names[4] && names[2] != names[3] && names[2] != names[4] && names[3] != names[4];
  }

  /** With the second leaf filtered out, its middle node is dropped, yet the root's row counts it: two
      children, one row stored under it. */
  lemma DroppedAncestorStillCounts(root: string, mid: string, thin: string, leaf: string, short: string, rank: string -> nat)
    requires FiveNames(root, mid, thin, leaf, short) && rank(root) < rank(mid) && rank(root) < rank(thin)
    ensures IsBuild(Tree(root, mid, thin, leaf, short), {leaf, short}, map[leaf := mid, short := thin], [leaf], rank,
                    map[root := 0, mid := 1, thin := 1],
                    [ParentChunk(root, 0, None, 0, "", 2, None, None), ParentChunk(mid, 1, Some(root), 0, "", 1, None, None)])
  {
    hide Acyclic, Rows, KeptIds, SortByLevel, IndexOf, WellFormed, IdsOf, Levels, FiveNames;
    TreeLevels(root, mid, thin, leaf, short, rank);
    TreeIsWellFormed(root, mid, thin, leaf, short);
    TreeRows(root, mid, thin, leaf, short);
  }

  lemma IndexOfAppend(front: seq<Node>, n: Node)
    ensures IndexOf(front + [n]) == IndexOf(front)[n.id := n]
  {
    assert (front + [n])[..|front|] == front;
  }

  lemma SortOfAppend(levels: map<string, nat>, front: seq<Node>, n: Node)
    ensures SortByLevel(levels, front + [n]) == InsertBy(SortByLevel(levels, front), n, ByLevel(levels))
  {
    assert (front + [n])[..|front|] == front;
  }

  lemma CountOfNone(kept: set<string>)
    ensures ChildCount([], kept) == 0
  {
  }

  lemma CountOfAppend(front: seq<string>, c: string, kept: set<string>)
    ensures ChildCount(front + [c], kept) == ChildCount(front, kept) + (if c in kept then 1 else 0)
  {
    assert (front + [c])[..|front|] == front;
  }

  lemma RowsOfAppend(levels: map<string, nat>, kept: set<string>, front: seq<Node>, n: Node)
    ensures Rows(levels, kept, front + [n]) ==
      if ChildCount(n.children, kept) == 0 then Rows(levels, kept, front)
      else Rows(levels, kept, front) + [RowOf(levels, kept, n, RowsAt(Rows(levels, kept, front), KeyOf(levels, n)))]
  {
    hide ChildCount, RowsAt;
    assert (front + [n])[..|front|] == front;
  }

  lemma IndexOfThree(r: Node, m: Node, n: Node)
    ensures IndexOf([r, m, n]) == map[r.id := r, m.id := m, n.id := n] && IdsOf([r, m, n]) == {r.id, m.id, n.id}
  {
    IndexOfAppend([], r);
    IndexOfAppend([r], m);
    IndexOfAppend([r, m], n);
    assert [] + [r] == [r] && [r] + [m] == [r, m] && [r, m] + [n] == [r, m, n];
    assert r in [r, m, n] && m in [r, m, n] && n in [r, m, n];
  }

  lemma TreeLevels(root: string, mid: string, thin: string, leaf: string, short: string, rank: string -> nat)
    requires FiveNames(root, mid, thin, leaf, short) && rank(root) < rank(mid) && rank(root) < rank(thin)
    ensures var nodes := Tree(root, mid, thin, leaf, short);
      Acyclic(IndexOf(nodes), rank) && Levels(nodes, rank) == map[root := 0, mid := 1, thin := 1]
  {
    hide IndexOf, IdsOf;
    DistinctNames(root, mid, thin, leaf, short);
    var r, m, n := Root(root, mid, thin), Middle(root, mid, leaf), Middle(root, thin, short);
    IndexOfThree(r, m, n);
    var index := IndexOf([r, m, n]);
    assert ParentNode(index, r) == None && ParentNode(index, m) == Some(r) && ParentNode(index, n) == Some(r);
    assert Level(index, rank, root) == 0;
    assert Level(index, rank, mid) == 1 && Level(index, rank, thin) == 1;
  }

  lemma TreeIsWellFormed(root: string, mid: string, thin: string, leaf: string, short: string)
    requires FiveNames(root, mid, thin, leaf, short)
    ensures WellFormed(Tree(root, mid, thin, leaf, short), {leaf, short}, map[leaf := mid, short := thin])
  {
    hide IdsOf, Tree, FiveNames, DistinctIds, DistinctStrings;
    TreeIds(root, mid, thin, leaf, short);
    TreeLinks(root, mid, thin, leaf, short);
    TreeChildren(root, mid, thin, leaf, short);
    TreeChildrenAreKnown(root, mid, thin, leaf, short);
  }

  lemma TreeIds(root: string, mid: string, thin: string, leaf: string, short: string)
    requires FiveNames(root, mid, thin, leaf, short)
    ensures DistinctIds(Tree(root, mid, thin, leaf, short)) && IdsOf(Tree(root, mid, thin, leaf, short)) == {root, mid, thin}
    ensures {leaf, short} !! IdsOf(Tree(root, mid, thin, leaf, short)) && map[leaf := mid, short := thin].Keys == {leaf, short}
  {
    hide IdsOf;
    DistinctNames(root, mid, thin, leaf, short);
    IndexOfThree(Root(root, mid, thin), Middle(root, mid, leaf), Middle(root, thin, short));
  }

  /** Parents and the parents of leaves are in the tree. */
  lemma TreeLinks(root: string, mid: string, thin: string, leaf: string, short: string)
    requires FiveNames(root, mid, thin, leaf, short)
    ensures var nodes, leafParent := Tree(root, mid, thin, leaf, short), map[leaf := mid, short := thin];
      && (forall n :: n in nodes && n.parent.Some? ==> exists p :: p in nodes && p.id == n.parent.value && n.id in p.children)
      && forall l :: l in {leaf, short} ==> exists p :: p in nodes && p.id == leafParent[l] && l in p.children
  {
    DistinctNames(root, mid, thin, leaf, short);
    hide FiveNames;
    var r, m, n := Root(root, mid, thin), Middle(root, mid, leaf), Middle(root, thin, short);
    assert r in [r, m, n] && m in [r, m, n] && n in [r, m, n];
    assert mid in r.children && thin in r.children && leaf in m.children && short in n.children;
  }

  lemma TreeChildren(root: string, mid: string, thin: string, leaf: string, short: string)
    requires FiveNames(root, mid, thin, leaf, short)
    ensures var nodes := Tree(root, mid, thin, leaf, short);
      && (forall n :: n in nodes ==> n.id != "" && DistinctStrings(n.children))
      && (forall n, m :: n in nodes && m in nodes && m.id in n.children ==> m.parent == Some(n.id))
  {
    DistinctNames(root, mid, thin, leaf, short);
    hide FiveNames;
  }

  lemma TreeChildrenAreKnown(root: string, mid: string, thin: string, leaf: string, short: string)
    requires FiveNames(root, mid, thin, leaf, short)
    ensures var nodes := Tree(root, mid, thin, leaf, short);
      forall n, c :: n in nodes && c in n.children ==> c in {leaf, short} || c in IdsOf(nodes)
  {
    TreeIds(root, mid, thin, leaf, short);
    hide IdsOf, FiveNames, DistinctIds;
  }

  lemma TreeRows(root: string, mid: string, thin: string, leaf: string, short: string)
    requires FiveNames(root, mid, thin, leaf, short)
    ensures var nodes, levels := Tree(root, mid, thin, leaf, short), map[root := 0, mid := 1, thin := 1];
      Rows(levels, KeptIds(nodes, {leaf, short}, [leaf]), SortByLevel(levels, nodes))
      == [ParentChunk(root, 0, None, 0, "", 2, None, None), ParentChunk(mid, 1, Some(root), 0, "", 1, None, None)]
  {
    hide IdsOf, SortByLevel, ChildCount, FiveNames;
    DistinctNames(root, mid, thin, leaf, short);
    var r, m, n := Root(root, mid, thin), Middle(root, mid, leaf), Middle(root, thin, short);
    var levels: map<string, nat> := map[root := 0, mid := 1, thin := 1];
    var kept := KeptIds([r, m, n], {leaf, short}, [leaf]);
    IndexOfThree(r, m, n);
    assert kept == {leaf, root, mid, thin};
    TreeOrder(levels, r, m, n);
    TreeCounts(root, mid, thin, leaf, short, kept);
    assert [] + [r] == [r] && [r] + [m] == [r, m] && [r, m] + [n] == [r, m, n];
    RowsOfAppend(levels, kept, [], r);
    RowsOfAppend(levels, kept, [r], m);
    RowsOfAppend(levels, kept, [r, m], n);
  }

  lemma TreeOrder(levels: map<string, nat>, r: Node, m: Node, n: Node)
    requires KeyOf(levels, r) <= KeyOf(levels, m) <= KeyOf(levels, n)
    ensures SortByLevel(levels, [r, m, n]) == [r, m, n]
  {
    assert [] + [r] == [r] && [r] + [m] == [r, m] && [r, m] + [n] == [r, m, n];
    SortOfAppend(levels, [], r);
    SortOfAppend(levels, [r], m);
    SortOfAppend(levels, [r, m], n);
  }

  lemma TreeCounts(root: string, mid: string, thin: string, leaf: string, short: string, kept: set<string>)
    requires mid != short && thin != short && short != leaf && short != root && kept == {leaf, root, mid, thin}
    ensures ChildCount([mid, thin], kept) == 2 && ChildCount([leaf], kept) == 1 && ChildCount([short], kept) == 0
  {
    hide ChildCount;
    CountOfNone(kept);
    assert [] + [mid] == [mid] && [mid] + [thin] == [mid, thin] && [] + [leaf] == [leaf] && [] + [short] == [short];
    CountOfAppend([], mid, kept);
    CountOfAppend([mid], thin, kept);
    CountOfAppend([], leaf, kept);
    CountOfAppend([], short, kept);
  }

  // ---------------------------------------------------------------- numbering

  /** The places of the first `n` rows that are on a level. */
  ghost function OnLevel(rows: seq<ParentChunk>, level: nat, n: nat): set<nat>
    requires n <= |rows|
  {
    set i: nat | i < n && rows[i].level == level
  }

  lemma {:induction false} RowsAtCounts(rows: seq<ParentChunk>, level: nat, n: nat)
    requires n <= |rows|
    ensures RowsAt(rows[..n], level) == |OnLevel(rows, level, n)|
  {
    if n == 0 {
      assert OnLevel(rows, level, n) == {};
    } else {
      RowsAtCounts(rows, level, n - 1);
      assert rows[..n][..n - 1] == rows[..n - 1];
      var before := OnLevel(rows, level, n - 1);
      assert OnLevel(rows, level, n) == if rows[n - 1].level == level then before + {n - 1} else before;
    }
  }

  lemma {:induction false} IndexIsCounter(levels: map<string, nat>, kept: set<string>, ordered: seq<Node>, i: nat)
    requires i < |Rows(levels, kept, ordered)|
    ensures var rows := Rows(levels, kept, ordered);
      rows[i].chunkIndex == RowsAt(rows[..i], rows[i].level)
  {
    hide ChildCount, RowsAt;
    var rows, before := Rows(levels, kept, ordered), Rows(levels, kept, ordered[..|ordered| - 1]);
    if i < |before| {
      IndexIsCounter(levels, kept, ordered[..|ordered| - 1], i);
      assert rows[..i] == before[..i];
    } else {
      assert rows[..i] == before;
    }
  }

  /** A row's index is the number of earlier rows on its level. */
  lemma IndexedByLevel(levels: map<string, nat>, kept: set<string>, ordered: seq<Node>, i: nat)
    requires i < |Rows(levels, kept, ordered)|
    ensures var rows := Rows(levels, kept, ordered);
      rows[i].chunkIndex == |OnLevel(rows, rows[i].level, i)|
  {
    hide Rows, RowsAt;
    var rows := Rows(levels, kept, ordered);
    IndexIsCounter(levels, kept, ordered, i);
    RowsAtCounts(rows, rows[i].level, i);
  }

  /** On each level, `chunk_index` takes every value from 0 to n-1, where n is the number of rows on
      the level. */
  lemma IndexRunsThroughLevel(levels: map<string, nat>, kept: set<string>, ordered: seq<Node>, level: nat, k: nat)
    requires var rows := Rows(levels, kept, ordered);
      k < |OnLevel(rows, level, |rows|)|
    ensures var rows := Rows(levels, kept, ordered);
      exists i :: 0 <= i < |rows| && rows[i].level == level && rows[i].chunkIndex == k
  {
    hide Rows, RowsAt;
    var rows := Rows(levels, kept, ordered);
    RowsAtCounts(rows, level, |rows|);
    CounterTakesEach(levels, kept, ordered, level, k, |rows|);
  }

  lemma {:induction false} CounterTakesEach(levels: map<string, nat>, kept: set<string>, ordered: seq<Node>, level: nat, k: nat, upto: nat)
    requires upto <= |Rows(levels, kept, ordered)| && k < RowsAt(Rows(levels, kept, ordered)[..upto], level)
    ensures var rows := Rows(levels, kept, ordered);
      exists i :: 0 <= i < upto && rows[i].level == level && rows[i].chunkIndex == k
    decreases upto
  {
    hide Rows;
    var rows := Rows(levels, kept, ordered);
    assert rows[..upto][..upto - 1] == rows[..upto - 1];
    if k < RowsAt(rows[..upto - 1], level) {
      CounterTakesEach(levels, kept, ordered, level, k, upto - 1);
    } else {
      IndexIsCounter(levels, kept, ordered, upto - 1);
    }
  }

  // ---------------------------------------------------------------- contents

  /** A row carries what its ancestor does, on the ancestor's level. */
  lemma RowCarriesAncestor(ancestors: seq<Node>, leafIds: set<string>, leafParent: map<string, string>, finalNodes: seq<string>,
                           rank: string -> nat, levels: map<string, nat>, rows: seq<ParentChunk>, i: nat) returns (n: Node)
    requires IsBuild(ancestors, leafIds, leafParent, finalNodes, rank, levels, rows) && i < |rows|
    ensures n in ancestors && rows[i].chunkId == n.id && rows[i].parentId == n.parent
    ensures rows[i].text == n.text && rows[i].pageNum == n.pageNum && rows[i].pageLabel == n.pageLabel
    ensures n.id in levels && rows[i].level == levels[n.id]
  {
    hide ChildCount, Rows, SortByLevel, WellFormed, Acyclic;
    n := AncestorOfRow(ancestors, leafIds, leafParent, finalNodes, rank, levels, rows, i);
    LevelsOfAll(ancestors, leafIds, leafParent, finalNodes, rank, levels, rows, n);
  }

  lemma LevelsOfAll(ancestors: seq<Node>, leafIds: set<string>, leafParent: map<string, string>, finalNodes: seq<string>,
                    rank: string -> nat, levels: map<string, nat>, rows: seq<ParentChunk>, n: Node)
    requires IsBuild(ancestors, leafIds, leafParent, finalNodes, rank, levels, rows) && n in ancestors
    ensures n.id in levels
  {
    hide Acyclic, Rows, SortByLevel;
    BuildIsDistinct(ancestors, leafIds, leafParent, finalNodes, rank, levels, rows);
    IndexIsIndex(ancestors);
    assert n.id in IndexOf(ancestors);
  }

  // ---------------------------------------------------------------- inserting

  /** The foreign key rejects rows exactly when one names a parent that is neither stored, nor among the
      rows before it, nor itself. */
  ghost predicate ParentKnown(table: map<string, ParentChunk>, rows: seq<ParentChunk>, i: nat)
    requires i < |rows|
  {
    rows[i].parentId.Some? ==> rows[i].parentId.value in table || exists j :: 0 <= j <= i && rows[j].chunkId == rows[i].parentId.value
  }

  lemma {:induction false} InsertsIffParentsKnown(table: map<string, ParentChunk>, rows: seq<ParentChunk>)
    ensures InsertRows(table, rows).Some? <==> forall i :: 0 <= i < |rows| ==> ParentKnown(table, rows, i)
    ensures InsertRows(table, rows).Some? ==>
      InsertRows(table, rows).value.Keys == table.Keys + set i | 0 <= i < |rows| :: rows[i].chunkId
  {
    if rows != [] {
      var front, row := rows[..|rows| - 1], rows[|rows| - 1];
      InsertsIffParentsKnown(table, front);
      forall i | 0 <= i < |front|
        ensures ParentKnown(table, front, i) <==> ParentKnown(table, rows, i)
      {
        ParentKnownEarly(table, rows, i);
      }
      LastKnown(table, rows);
    }
  }

  lemma LastKnown(table: map<string, ParentChunk>, rows: seq<ParentChunk>)
    requires rows != []
    ensures var front, row := rows[..|rows| - 1], rows[|rows| - 1];
      ParentKnown(table, rows, |rows| - 1) <==>
        row.parentId == None || row.parentId.value == row.chunkId || row.parentId.value in table
        || row.parentId.value in set i | 0 <= i < |front| :: front[i].chunkId
  {
    var front, row := rows[..|rows| - 1], rows[|rows| - 1];
    assert forall j :: 0 <= j < |front| ==> front[j] == rows[j];
    assert rows[|front|] == row;
  }

  lemma ParentKnownEarly(table: map<string, ParentChunk>, rows: seq<ParentChunk>, i: nat)
    requires i < |rows| - 1
    ensures ParentKnown(table, rows[..|rows| - 1], i) <==> ParentKnown(table, rows, i)
  {
    var front := rows[..|rows| - 1];
    assert forall j :: 0 <= j <= i ==> front[j] == rows[j];
  }
}
