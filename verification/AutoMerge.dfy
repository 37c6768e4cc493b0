/** Merging search hits into their ancestors: `_build_merged_result` and `_auto_merge_parents` of
    `query/retriever.py`. Scores are reals. */
module AutoMerge {
  import opened Wrappers

  type Positive = n: nat | n > 0 witness 1

  /** A row of `parent_chunks`, keyed by its chunk id. */
  datatype ParentRow = ParentRow(
    parentId: Option<string>, level: int, childCount: Positive, text: string,
    pageNum: Option<int>, pageLabel: Option<string>)

  type Table = map<string, ParentRow>

  /** The fields every chunk of one document shares. */
  datatype Origin = Origin(
    kbId: string, docId: string, docType: string, title: string, updatedAt: string,
    sourceType: string, source: string, downloadUrl: Option<string>)

  datatype QueryResult = QueryResult(
    chunkId: string, origin: Origin, chunkIndex: Option<int>, pageNum: Option<int>, pageLabel: Option<string>,
    text: string, score: real, rerankScore: Option<real>, parentChunkId: Option<string>, merged: bool)

  /** Where a result came from: a search hit, or an ancestor that replaced a group of results. */
  datatype Hit = Leaf(result: QueryResult) | Node(id: string, kids: seq<Hit>)

  // ---------------------------------------------------------------- results as seen by the caller

  function SumScores(rs: seq<QueryResult>): real {
    if rs == [] then 0.0 else SumScores(rs[..|rs| - 1]) + rs[|rs| - 1].score
  }

  function BuildMergedResult(id: string, a: ParentRow, children: seq<QueryResult>): QueryResult
    requires children != []
  {
    QueryResult(id, children[0].origin, None, a.pageNum, a.pageLabel, a.text,
                SumScores(children) / |children| as real, None, None, true)
  }

  /** Every ancestor in the hit is a stored row with at least one child result. */
  ghost predicate Built(t: Table, h: Hit) {
    h.Node? ==> h.id in t && h.kids != [] && forall k :: k in h.kids ==> Built(t, k)
  }

  ghost predicate AllBuilt(t: Table, hs: seq<Hit>) {
    forall h :: h in hs ==> Built(t, h)
  }

  ghost function View(t: Table, h: Hit): QueryResult
    requires Built(t, h)
    decreases h, 1
  {
    match h
    case Leaf(r) => r
    case Node(id, kids) =>
      assert forall k :: k in kids ==> Built(t, k);
      BuildMergedResult(id, t[id], Views(t, kids)).(parentChunkId := t[id].parentId)
  }

  ghost function Views(t: Table, hs: seq<Hit>): (rs: seq<QueryResult>)
    requires AllBuilt(t, hs)
    ensures |rs| == |hs|
    decreases hs, 0
  {
    if hs == [] then [] else Views(t, hs[..|hs| - 1]) + [View(t, hs[|hs| - 1])]
  }

  function ParentOf(t: Table, h: Hit): Option<string> {
    match h
    case Leaf(r) => r.parentChunkId
    case Node(id, _) => if id in t then t[id].parentId else None
  }

  /** `if r.parent_chunk_id`: present and not empty. */
  predicate NonEmpty(p: Option<string>) {
    p.Some? && p.value != ""
  }

  /** The result has a stored ancestor. */
  predicate Grouped(t: Table, h: Hit) {
    NonEmpty(ParentOf(t, h)) && ParentOf(t, h).value in t
  }

  // ---------------------------------------------------------------- one round

  function Passthrough(t: Table, hs: seq<Hit>): seq<Hit> {
    if hs == [] then []
    else
      var rest, h := Passthrough(t, hs[..|hs| - 1]), hs[|hs| - 1];
      if Grouped(t, h) then rest else rest + [h]
  }

  /** The group of ancestor `id`, in result order. */
  function Children(t: Table, hs: seq<Hit>, id: string): (kids: seq<Hit>)
    ensures forall k :: k in kids ==> k in hs && Grouped(t, k) && ParentOf(t, k) == Some(id)
  {
    if hs == [] then []
    else
      var rest, h := Children(t, hs[..|hs| - 1], id), hs[|hs| - 1];
      if Grouped(t, h) && ParentOf(t, h).value == id then rest + [h] else rest
  }

  /** The ancestors of a round in order of first appearance: the key order of `groups`. */
  function GroupIds(t: Table, hs: seq<Hit>): (ids: seq<string>)
    ensures forall id :: id in ids ==> id in t
  {
    if hs == [] then []
    else
      var rest, h := GroupIds(t, hs[..|hs| - 1]), hs[|hs| - 1];
      if Grouped(t, h) && ParentOf(t, h).value !in rest then rest + [ParentOf(t, h).value] else rest
  }

  predicate Meets(t: Table, threshold: real, id: string, count: nat)
    requires id in t
  {
    count as real / t[id].childCount as real >= threshold
  }

  function MergeGroup(t: Table, threshold: real, id: string, kids: seq<Hit>): seq<Hit>
    requires id in t
  {
    if Meets(t, threshold, id, |kids|) then [Node(id, kids)] else kids
  }

  function MergeGroups(t: Table, threshold: real, hs: seq<Hit>, ids: seq<string>): seq<Hit>
    requires forall id :: id in ids ==> id in t
  {
    if ids == [] then []
    else
      var id := ids[|ids| - 1];
      MergeGroups(t, threshold, hs, ids[..|ids| - 1]) + MergeGroup(t, threshold, id, Children(t, hs, id))
  }

  /** The ancestors that replace their group in this round. */
  function Promoted(t: Table, threshold: real, hs: seq<Hit>, ids: seq<string>): seq<string>
    requires forall id :: id in ids ==> id in t
  {
    if ids == [] then []
    else
      var rest, id := Promoted(t, threshold, hs, ids[..|ids| - 1]), ids[|ids| - 1];
      if Meets(t, threshold, id, |Children(t, hs, id)|) then rest + [id] else rest
  }

  predicate AnyParent(t: Table, hs: seq<Hit>) {
    exists i :: 0 <= i < |hs| && NonEmpty(ParentOf(t, hs[i]))
  }

  /** The loop as coded: groups that miss the threshold stay active and are regrouped. */
  function Climb(t: Table, threshold: real, active: seq<Hit>, settled: seq<Hit>, depth: nat): seq<Hit>
    decreases depth
  {
    if depth == 0 || !AnyParent(t, active) then settled + active
    else
      var ids := GroupIds(t, active);
      var settled', active' := settled + Passthrough(t, active), MergeGroups(t, threshold, active, ids);
      if Promoted(t, threshold, active, ids) == [] then settled' + active'
      else Climb(t, threshold, active', settled', depth - 1)
  }

  function Leaves(rs: seq<QueryResult>): (hs: seq<Hit>)
    ensures |hs| == |rs|
  {
    if rs == [] then [] else Leaves(rs[..|rs| - 1]) + [Leaf(rs[|rs| - 1])]
  }

  /** The whole pass, with provenance. */
  function Merge(t: Table, threshold: real, rs: seq<QueryResult>, maxDepth: nat): seq<Hit> {
    Climb(t, threshold, Leaves(rs), [], maxDepth)
  }
}
