/** Ancestor rows of hierarchical chunks: `_build_parent_chunks` of `pipeline/steps/chunk.py` and
    `save_parent_chunks` of `infra/postgres.py`. */
module ParentChunks {
  import opened StableSort
  import opened Wrappers

  /** A non-leaf node of the splitter, with its PARENT and CHILD relationships. */
  datatype Node = Node(
    id: string, parent: Option<string>, children: seq<string>, text: string, pageNum: Option<int>, pageLabel: Option<string>)

  datatype ParentChunk = ParentChunk(
    chunkId: string, level: nat, parentId: Option<string>, chunkIndex: nat, text: string, childCount: nat,
    pageNum: Option<int>, pageLabel: Option<string>)

  ghost predicate DistinctIds(nodes: seq<Node>) {
    forall i, j :: 0 <= i < j < |nodes| ==> nodes[i].id != nodes[j].id
  }

  ghost predicate DistinctStrings(ids: seq<string>) {
    forall i, j :: 0 <= i < j < |ids| ==> ids[i] != ids[j]
  }

  function IdsOf(nodes: seq<Node>): set<string> {
    set n | n in nodes :: n.id
  }

  /** `by_id.get(parent_id) if parent_id else None`. */
  function ParentNode(byId: map<string, Node>, n: Node): Option<Node> {
    if n.parent.Some? && n.parent.value != "" && n.parent.value in byId then Some(byId[n.parent.value]) else None
  }

  ghost predicate IsIndex(byId: map<string, Node>, nodes: seq<Node>) {
    && byId.Keys == IdsOf(nodes)
    && forall id :: id in byId ==> byId[id].id == id && byId[id] in nodes
  }

  /** Nodes are keyed by their id, and parent pointers descend in `rank`, so following them ends. */
  ghost predicate Acyclic(byId: map<string, Node>, rank: string -> nat) {
    forall id :: id in byId ==>
      && byId[id].id == id
      && (ParentNode(byId, byId[id]).Some? ==> rank(ParentNode(byId, byId[id]).value.id) < rank(id))
  }

  /** Depth below the topmost ancestor. */
  function Level(byId: map<string, Node>, ghost rank: string -> nat, id: string): nat
    requires Acyclic(byId, rank) && id in byId
    decreases rank(id)
  {
    match ParentNode(byId, byId[id])
    case None => 0
    case Some(p) => Level(byId, rank, p.id) + 1
  }

  /** The levels memoised so far are right. */
  ghost predicate LevelsRight(byId: map<string, Node>, rank: string -> nat, levels: map<string, nat>)
    requires Acyclic(byId, rank)
  {
    forall id :: id in levels ==> id in byId && levels[id] == Level(byId, rank, id)
  }

  /** `_level_of`, memoised in `levels`. */
  method LevelOf(byId: map<string, Node>, ghost rank: string -> nat, n: Node, levels: map<string, nat>)
    returns (level: nat, levels': map<string, nat>)
    requires Acyclic(byId, rank) && LevelsRight(byId, rank, levels) && n.id in byId && byId[n.id] == n
    ensures LevelsRight(byId, rank, levels') && levels'.Keys >= levels.Keys + {n.id}
    ensures level == Level(byId, rank, n.id)
    decreases rank(n.id)
  {
    levels' := levels;
    if n.id !in levels' {
      var parent := ParentNode(byId, n);
      match parent
      case None =>
        levels' := levels'[n.id := 0];
      case Some(p) =>
        var up;
        up, levels' := LevelOf(byId, rank, p, levels');
        levels' := levels'[n.id := up + 1];
    }
    level := levels'[n.id];
  }

  // ---------------------------------------------------------------- the stable sort by level

  function KeyOf(levels: map<string, nat>, n: Node): nat {
    if n.id in levels then levels[n.id] else 0
  }

  function ByLevel(levels: map<string, nat>): Node -> real {
    (n: Node) => KeyOf(levels, n) as real
  }

  function SortByLevel(levels: map<string, nat>, xs: seq<Node>): seq<Node> {
    SortBy(xs, ByLevel(levels))
  }

  // ---------------------------------------------------------------- rows

  /** How many of the listed children are kept. */
  function ChildCount(children: seq<string>, kept: set<string>): nat {
    if children == [] then 0
    else ChildCount(children[..|children| - 1], kept) + (if children[|children| - 1] in kept then 1 else 0)
  }

  function RowsAt(rows: seq<ParentChunk>, level: nat): nat {
    if rows == [] then 0 else RowsAt(rows[..|rows| - 1], level) + (if rows[|rows| - 1].level == level then 1 else 0)
  }

  function RowOf(levels: map<string, nat>, kept: set<string>, n: Node, index: nat): ParentChunk {
    ParentChunk(n.id, KeyOf(levels, n), n.parent, index, n.text, ChildCount(n.children, kept), n.pageNum, n.pageLabel)
  }

  /** One row per node with a kept child, numbered per level. */
  function Rows(levels: map<string, nat>, kept: set<string>, ordered: seq<Node>): seq<ParentChunk> {
    if ordered == [] then []
    else
      var rows, n := Rows(levels, kept, ordered[..|ordered| - 1]), ordered[|ordered| - 1];
      if ChildCount(n.children, kept) == 0 then rows
      else rows + [RowOf(levels, kept, n, RowsAt(rows, KeyOf(levels, n)))]
  }

  function SurvivingLeaves(leafIds: set<string>, finalNodes: seq<string>): set<string> {
    set id | id in finalNodes && id in leafIds
  }

  /** Leaves that survived the length filter, and every ancestor. */
  function KeptIds(ancestors: seq<Node>, leafIds: set<string>, finalNodes: seq<string>): set<string> {
    SurvivingLeaves(leafIds, finalNodes) + IdsOf(ancestors)
  }

  /** Runs `_level_of` over all ancestors, as the sort does. */
  method AssignLevels(index: map<string, Node>, ancestors: seq<Node>, ghost rank: string -> nat) returns (levels: map<string, nat>)
    requires DistinctIds(ancestors) && IsIndex(index, ancestors) && Acyclic(index, rank)
    ensures levels.Keys == IdsOf(ancestors) && LevelsRight(index, rank, levels)
  {
    hide Level;
    levels := map[];
    for i := 0 to |ancestors|
      invariant LevelsRight(index, rank, levels)
      invariant forall j :: 0 <= j < i ==> ancestors[j].id in levels
    {
      IndexFinds(index, ancestors, i);
      var _, levels' := LevelOf(index, rank, ancestors[i], levels);
      levels := levels';
    }
    assert forall id :: id in IdsOf(ancestors) ==> id in levels;
  }

  lemma IndexFinds(index: map<string, Node>, ancestors: seq<Node>, i: nat)
    requires DistinctIds(ancestors) && IsIndex(index, ancestors) && i < |ancestors|
    ensures ancestors[i].id in index && index[ancestors[i].id] == ancestors[i]
  {
    assert ancestors[i] in ancestors;
    var n := index[ancestors[i].id];
    var j :| 0 <= j < |ancestors| && ancestors[j] == n;
  }

  /** Turns the ordered ancestors into rows, with one counter per level. */
  method NumberRows(levels: map<string, nat>, kept: set<string>, ordered: seq<Node>) returns (rows: seq<ParentChunk>)
    ensures rows == Rows(levels, kept, ordered)
  {
    hide ChildCount;
    var counters: map<nat, nat> := map[];
    rows := [];
    for i := 0 to |ordered|
      invariant rows == Rows(levels, kept, ordered[..i])
      invariant forall level: nat :: RowsAt(rows, level) == if level in counters then counters[level] else 0
    {
      assert ordered[..i + 1][..i] == ordered[..i];
      var n := ordered[i];
      var childCount := ChildCount(n.children, kept);
      if childCount != 0 {
        var level := KeyOf(levels, n);
        var chunkIndex := if level in counters then counters[level] else 0;
        counters := counters[level := chunkIndex + 1];
        var row := ParentChunk(n.id, level, n.parent, chunkIndex, n.text, childCount, n.pageNum, n.pageLabel);
        assert (rows + [row])[..|rows|] == rows;
        rows := rows + [row];
      }
    }
    assert ordered[..|ordered|] == ordered;
  }

  function IndexOf(nodes: seq<Node>): map<string, Node> {
    if nodes == [] then map[] else IndexOf(nodes[..|nodes| - 1])[nodes[|nodes| - 1].id := nodes[|nodes| - 1]]
  }

  lemma {:induction false} IndexIsIndex(nodes: seq<Node>)
    ensures IsIndex(IndexOf(nodes), nodes)
  {
    if nodes != [] {
      var front, n := nodes[..|nodes| - 1], nodes[|nodes| - 1];
      IndexIsIndex(front);
      assert nodes == front + [n];
      assert IdsOf(nodes) == IdsOf(front) + {n.id};
    }
  }

  /** The level of every ancestor. */
  ghost function Levels(ancestors: seq<Node>, rank: string -> nat): map<string, nat>
    requires Acyclic(IndexOf(ancestors), rank)
  {
    map id | id in IndexOf(ancestors) :: Level(IndexOf(ancestors), rank, id)
  }

  method BuildParentChunks(ancestors: seq<Node>, leafIds: set<string>, finalNodes: seq<string>, ghost rank: string -> nat)
    returns (rows: seq<ParentChunk>)
    requires DistinctIds(ancestors) && Acyclic(IndexOf(ancestors), rank)
    ensures rows == Rows(Levels(ancestors, rank), KeptIds(ancestors, leafIds, finalNodes), SortByLevel(Levels(ancestors, rank), ancestors))
  {
    IndexIsIndex(ancestors);
    var levels := AssignLevels(IndexOf(ancestors), ancestors, rank);
    assert levels == Levels(ancestors, rank);
    rows := NumberRows(levels, KeptIds(ancestors, leafIds, finalNodes), SortByLevel(levels, ancestors));
  }

  // ---------------------------------------------------------------- storing

  /** The table after the rows are inserted in order, or None where a row's parent is not stored yet
      (the foreign key), which rolls everything back. */
  function InsertRows(table: map<string, ParentChunk>, rows: seq<ParentChunk>): Option<map<string, ParentChunk>> {
    if rows == [] then Some(table)
    else
      match InsertRows(table, rows[..|rows| - 1])
      case None => None
      case Some(t) =>
        var row := rows[|rows| - 1];
        if row.parentId.Some? && row.parentId.value !in t && row.parentId.value != row.chunkId then None
        else Some(t[row.chunkId := row])
  }

  class ParentTable {
    var rows: map<string, ParentChunk>

    method SaveParentChunks(parents: seq<ParentChunk>) returns (ok: bool)
      modifies this
      ensures ok <==> InsertRows(old(rows), parents).Some?
      ensures rows == if ok then InsertRows(old(rows), parents).value else old(rows)
    {
      var pending := rows;
      for i := 0 to |parents|
        invariant InsertRows(old(rows), parents[..i]) == Some(pending) && rows == old(rows)
      {
        var row := parents[i];
        assert parents[..i + 1][..i] == parents[..i];
        if row.parentId.Some? && row.parentId.value !in pending && row.parentId.value != row.chunkId {
          RejectedStays(old(rows), parents, i + 1);
          return false;
        }
        pending := pending[row.chunkId := row];
      }
      assert parents[..|parents|] == parents;
      rows := pending;
      ok := true;
    }
  }

  lemma {:induction false} RejectedStays(table: map<string, ParentChunk>, rows: seq<ParentChunk>, i: nat)
    requires i <= |rows| && InsertRows(table, rows[..i]) == None
    ensures InsertRows(table, rows) == None
    decreases |rows| - i
  {
    if i == |rows| {
      assert rows[..i] == rows;
    } else {
      assert rows[..i + 1][..i] == rows[..i];
      RejectedStays(table, rows, i + 1);
    }
  }
}
