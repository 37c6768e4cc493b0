/** Saved ancestor rows are the forest that auto-merge climbs: `save_parent_chunks` and
    `get_parent_chunks` of `infra/postgres.py` between the build and the search. */
module StoredForest {
  import opened Wrappers
  import AutoMerge
  import AutoMergeLaws
  import AutoMergeSettling
  import opened ParentChunks
  import opened ParentChunksLaws

  /** Every stored row has a child count and, unless it is a root, a stored parent one level up. */
  ghost predicate WellStored(stored: map<string, ParentChunk>) {
    forall id :: id in stored ==>
      && stored[id].childCount > 0
      && (stored[id].parentId.Some? ==>
            stored[id].parentId.value in stored && stored[stored[id].parentId.value].level + 1 == stored[id].level)
  }

  /** The rows as auto-merge reads them back. */
  function TableOf(stored: map<string, ParentChunk>): AutoMerge.Table {
    map id | id in stored && stored[id].childCount > 0 ::
      AutoMerge.ParentRow(stored[id].parentId, stored[id].level, stored[id].childCount, stored[id].text,
                          stored[id].pageNum, stored[id].pageLabel)
  }

  /** Distance from the deepest level, counted from 1. */
  ghost function HeightIn(stored: map<string, ParentChunk>, deepest: nat): string -> nat {
    (id: string) => if id in stored && stored[id].level <= deepest then deepest - stored[id].level + 1 else 1
  }

  /** On saved rows the hypotheses of the auto-merge laws hold: parents sit one level up, and the height
      of the forest is the number of levels. */
  lemma StoredIsForest(stored: map<string, ParentChunk>, deepest: nat)
    requires WellStored(stored) && forall id :: id in stored ==> stored[id].level <= deepest
    ensures AutoMergeSettling.Levelled(TableOf(stored))
    ensures AutoMergeLaws.Heights(TableOf(stored), HeightIn(stored, deepest))
    ensures forall id :: id in TableOf(stored) ==> HeightIn(stored, deepest)(id) <= deepest + 1
  {
  }

  lemma RowsHaveOwnIds(ancestors: seq<Node>, leafIds: set<string>, leafParent: map<string, string>, finalNodes: seq<string>,
                       rank: string -> nat, levels: map<string, nat>, rows: seq<ParentChunk>, i: nat, j: nat)
    requires IsBuild(ancestors, leafIds, leafParent, finalNodes, rank, levels, rows) && i < |rows| && j < |rows|
    requires rows[i].chunkId == rows[j].chunkId
    ensures i == j
  {
    hide ChildCount, RowsAt, Rows, SortByLevel, WellFormed, Acyclic, Levels, KeptIds;
    var kept, ordered := KeptIds(ancestors, leafIds, finalNodes), SortByLevel(levels, ancestors);
    BuildIsDistinct(ancestors, leafIds, leafParent, finalNodes, rank, levels, rows);
    SortedAncestors(levels, ancestors);
    var k := NodeOfRow(levels, kept, ordered, i);
    var l := NodeOfRow(levels, kept, ordered, j);
    assert k == l;
  }

  /** The first `k` rows of a build, inserted behind other rows, are each stored as they are. */
  lemma {:induction false} InsertedAsTheyAre(ancestors: seq<Node>, leafIds: set<string>, leafParent: map<string, string>,
                                             finalNodes: seq<string>, rank: string -> nat, levels: map<string, nat>,
                                             rows: seq<ParentChunk>, stored: map<string, ParentChunk>, k: nat)
    requires IsBuild(ancestors, leafIds, leafParent, finalNodes, rank, levels, rows) && k <= |rows|
    requires forall i :: 0 <= i < |rows| ==> rows[i].chunkId !in stored
    ensures InsertRows(stored, rows[..k]).Some?
    ensures var after := InsertRows(stored, rows[..k]).value;
      && (forall i :: 0 <= i < k ==> rows[i].chunkId in after && after[rows[i].chunkId] == rows[i])
      && (forall id :: id in stored ==> id in after && after[id] == stored[id])
      && forall id :: id in after ==> id in stored || exists i :: 0 <= i < k && rows[i].chunkId == id
  {
    hide IsBuild;
    EveryInsertFindsParent(ancestors, leafIds, leafParent, finalNodes, rank, levels, rows, stored, k);
    if k > 0 {
      InsertedAsTheyAre(ancestors, leafIds, leafParent, finalNodes, rank, levels, rows, stored, k - 1);
      assert rows[..k][..k - 1] == rows[..k - 1];
      forall i | 0 <= i < k - 1
        ensures rows[i].chunkId != rows[k - 1].chunkId
      {
        if rows[i].chunkId == rows[k - 1].chunkId {
          RowsHaveOwnIds(ancestors, leafIds, leafParent, finalNodes, rank, levels, rows, i, k - 1);
        }
      }
    }
  }

  /** Saving the rows of a well-formed build, with ids of their own, keeps the store a forest. */
  lemma SavingKeepsForest(ancestors: seq<Node>, leafIds: set<string>, leafParent: map<string, string>, finalNodes: seq<string>,
                          rank: string -> nat, levels: map<string, nat>, rows: seq<ParentChunk>, stored: map<string, ParentChunk>)
    requires IsBuild(ancestors, leafIds, leafParent, finalNodes, rank, levels, rows) && WellStored(stored)
    requires forall i :: 0 <= i < |rows| ==> rows[i].chunkId !in stored
    ensures InsertRows(stored, rows).Some? && WellStored(InsertRows(stored, rows).value)
  {
    hide IsBuild, InsertRows;
    assert rows[..|rows|] == rows;
    InsertedAsTheyAre(ancestors, leafIds, leafParent, finalNodes, rank, levels, rows, stored, |rows|);
    var after := InsertRows(stored, rows).value;
    forall id | id in after
      ensures after[id].childCount > 0
      ensures after[id].parentId.Some? ==>
        after[id].parentId.value in after && after[after[id].parentId.value].level + 1 == after[id].level
    {
      if id !in stored {
        var i :| 0 <= i < |rows| && rows[i].chunkId == id;
        var n := ChildCountMeaning(ancestors, leafIds, leafParent, finalNodes, rank, levels, rows, i);
        if rows[i].parentId.Some? {
          var j := ParentComesFirst(ancestors, leafIds, leafParent, finalNodes, rank, levels, rows, i);
        }
      }
    }
  }
}
