/** Reciprocal rank fusion of the result lists of several KBs (`query/merger.py`). Scores are reals;
    the final rounding is a function passed in. */
module RrfMerge {
  import opened StableSort
  import opened Wrappers

  datatype QueryResult = QueryResult(chunkId: string, kbId: string, score: real)

  /** What one list gives `id`: 1/(k + rank) per occurrence, ranks from 1. */
  function ListScore(results: seq<QueryResult>, k: nat, id: string): real {
    if results == [] then 0.0
    else
      ListScore(results[..|results| - 1], k, id)
      + (if results[|results| - 1].chunkId == id then 1.0 / (k + |results|) as real else 0.0)
  }

  function Score(lists: seq<seq<QueryResult>>, k: nat, id: string): real {
    if lists == [] then 0.0 else Score(lists[..|lists| - 1], k, id) + ListScore(lists[|lists| - 1], k, id)
  }

  function LastIn(results: seq<QueryResult>, id: string): Option<QueryResult> {
    if results == [] then None
    else if results[|results| - 1].chunkId == id then Some(results[|results| - 1])
    else LastIn(results[..|results| - 1], id)
  }

  /** The last occurrence of `id` over all lists. */
  function Last(lists: seq<seq<QueryResult>>, id: string): Option<QueryResult> {
    if lists == [] then None
    else OrElse(LastIn(lists[|lists| - 1], id), Last(lists[..|lists| - 1], id))
  }

  function OrElse(a: Option<QueryResult>, b: Option<QueryResult>): Option<QueryResult> {
    if a.Some? then a else b
  }

  // ---------------------------------------------------------------- the merge

  /** The dictionaries after the lists `done` and the prefix `current` of the next one. */
  ghost predicate IsTally(done: seq<seq<QueryResult>>, current: seq<QueryResult>, k: nat, ids: seq<string>,
                          scores: map<string, real>, chunkMap: map<string, QueryResult>)
  {
    && Distinct(ids) && scores.Keys == chunkMap.Keys
    && (forall id :: id in ids <==> id in scores)
    && (forall id :: id in scores <==> OrElse(LastIn(current, id), Last(done, id)).Some?)
    && (forall id :: id in scores ==> scores[id] == Score(done, k, id) + ListScore(current, k, id))
    && (forall id :: id !in scores ==> Score(done, k, id) + ListScore(current, k, id) == 0.0)
    && forall id :: id in chunkMap ==> Some(chunkMap[id]) == OrElse(LastIn(current, id), Last(done, id))
  }

  ghost predicate Distinct(ids: seq<string>) {
    forall i, j :: 0 <= i < j < |ids| ==> ids[i] != ids[j]
  }

  /** Greater scores first. */
  function ByScore(scores: map<string, real>): string -> real {
    (id: string) => if id in scores then -scores[id] else 0.0
  }

  /** What the merge returns: each chunk that occurs, once, with its summed score, best first. */
  ghost predicate IsFusion(merged: seq<QueryResult>, lists: seq<seq<QueryResult>>, k: nat, round: real -> real) {
    && (forall i, j :: 0 <= i < j < |merged| ==> merged[i].chunkId != merged[j].chunkId)
    && (forall id :: Last(lists, id).Some? <==> Holds(merged, id))
    && (forall r :: r in merged ==>
          Last(lists, r.chunkId).Some? && r == Last(lists, r.chunkId).value.(score := round(Score(lists, k, r.chunkId))))
    && forall i, j :: 0 <= i < j < |merged| ==> Score(lists, k, merged[i].chunkId) >= Score(lists, k, merged[j].chunkId)
  }

  ghost predicate Holds(merged: seq<QueryResult>, id: string) {
    exists i :: 0 <= i < |merged| && merged[i].chunkId == id
  }

  lemma TallyOne(done: seq<seq<QueryResult>>, current: seq<QueryResult>, k: nat, ids: seq<string>, scores: map<string, real>,
                 chunkMap: map<string, QueryResult>, r: QueryResult)
    requires IsTally(done, current, k, ids, scores, chunkMap)
    ensures var cid, gain := r.chunkId, 1.0 / (k + |current| + 1) as real;
      IsTally(done, current + [r], k, if cid in scores then ids else ids + [cid],
              scores[cid := (if cid in scores then scores[cid] else 0.0) + gain], chunkMap[cid := r])
  {
    hide Score, Last;
    assert (current + [r])[..|current|] == current;
  }

  lemma TallyNext(done: seq<seq<QueryResult>>, current: seq<QueryResult>, k: nat, ids: seq<string>, scores: map<string, real>,
                  chunkMap: map<string, QueryResult>)
    requires IsTally(done, current, k, ids, scores, chunkMap)
    ensures IsTally(done + [current], [], k, ids, scores, chunkMap)
  {
    assert (done + [current])[..|done|] == done;
  }

  /** The dictionaries over all lists; `ids` are the keys in order of first occurrence. */
  method TallyAll(lists: seq<seq<QueryResult>>, k: nat)
    returns (ids: seq<string>, scores: map<string, real>, chunkMap: map<string, QueryResult>)
    ensures IsTally(lists, [], k, ids, scores, chunkMap)
  {
    hide IsTally, Score, ListScore, Last, LastIn;
    ids, scores, chunkMap := [], map[], map[];
    NothingTallied(k);
    for i := 0 to |lists|
      invariant IsTally(lists[..i], [], k, ids, scores, chunkMap)
    {
      ids, scores, chunkMap := TallyList(lists[..i], lists[i], k, ids, scores, chunkMap);
      TallyNext(lists[..i], lists[i], k, ids, scores, chunkMap);
      assert lists[..i + 1] == lists[..i] + [lists[i]];
    }
    assert lists[..|lists|] == lists;
  }

  method TallyList(ghost done: seq<seq<QueryResult>>, results: seq<QueryResult>, k: nat,
                   ids0: seq<string>, scores0: map<string, real>, chunkMap0: map<string, QueryResult>)
    returns (ids: seq<string>, scores: map<string, real>, chunkMap: map<string, QueryResult>)
    requires IsTally(done, [], k, ids0, scores0, chunkMap0)
    ensures IsTally(done, results, k, ids, scores, chunkMap)
  {
    hide IsTally, Score, ListScore, Last, LastIn;
    ids, scores, chunkMap := ids0, scores0, chunkMap0;
    for j := 0 to |results|
      invariant IsTally(done, results[..j], k, ids, scores, chunkMap)
    {
      var result := results[j];
      var cid := result.chunkId;
      TallyOne(done, results[..j], k, ids, scores, chunkMap, result);
      assert results[..j + 1] == results[..j] + [result];
      if cid !in scores {
        ids := ids + [cid];
      }
      scores := scores[cid := (if cid in scores then scores[cid] else 0.0) + 1.0 / (k + j + 1) as real];
      chunkMap := chunkMap[cid := result];
    }
    assert results[..|results|] == results;
  }

  method RrfMerge(lists: seq<seq<QueryResult>>, k: nat, round: real -> real) returns (merged: seq<QueryResult>)
    ensures IsFusion(merged, lists, k, round)
  {
    hide IsTally, Score, ListScore, Last, LastIn, SortBy;
    var ids, scores, chunkMap := TallyAll(lists, k);
    var sortedIds := SortBy(ids, ByScore(scores));
    TallyTotals(lists, k, ids, scores, chunkMap);
    SortMembers(ids, ByScore(scores));
    merged := [];
    for i := 0 to |sortedIds|
      invariant |merged| == i
      invariant forall j :: 0 <= j < i ==>
        sortedIds[j] in scores && merged[j] == chunkMap[sortedIds[j]].(score := round(scores[sortedIds[j]]))
    {
      assert sortedIds[i] in sortedIds;
      merged := merged + [chunkMap[sortedIds[i]].(score := round(scores[sortedIds[i]]))];
    }
    MergedIsFusion(lists, k, round, ids, scores, chunkMap, merged);
  }

  lemma NothingTallied(k: nat)
    ensures IsTally([], [], k, [], map[], map[])
  {
  }

  /** The finished dictionaries. */
  lemma TallyTotals(lists: seq<seq<QueryResult>>, k: nat, ids: seq<string>, scores: map<string, real>, chunkMap: map<string, QueryResult>)
    requires IsTally(lists, [], k, ids, scores, chunkMap)
    ensures Distinct(ids) && scores.Keys == chunkMap.Keys && forall id :: id in ids <==> id in scores
    ensures forall id :: id in scores <==> Last(lists, id).Some?
    ensures forall id :: id in scores ==>
      scores[id] == Score(lists, k, id) && Some(chunkMap[id]) == Last(lists, id) && chunkMap[id].chunkId == id
  {
    forall id | id in scores
      ensures chunkMap[id].chunkId == id
    {
      LastHasId(lists, id);
    }
  }

  lemma {:induction false} LastInHasId(results: seq<QueryResult>, id: string)
    ensures LastIn(results, id).Some? ==> LastIn(results, id).value.chunkId == id
  {
    if results != [] {
      LastInHasId(results[..|results| - 1], id);
    }
  }

  lemma {:induction false} LastHasId(lists: seq<seq<QueryResult>>, id: string)
    ensures Last(lists, id).Some? ==> Last(lists, id).value.chunkId == id
  {
    if lists != [] {
      LastHasId(lists[..|lists| - 1], id);
      LastInHasId(lists[|lists| - 1], id);
    }
  }

  lemma MergedIsFusion(lists: seq<seq<QueryResult>>, k: nat, round: real -> real, ids: seq<string>, scores: map<string, real>,
                       chunkMap: map<string, QueryResult>, merged: seq<QueryResult>)
    requires IsTally(lists, [], k, ids, scores, chunkMap)
    requires var sortedIds := SortBy(ids, ByScore(scores));
      |merged| == |sortedIds| && forall j :: 0 <= j < |merged| ==>
        sortedIds[j] in chunkMap && sortedIds[j] in scores
        && merged[j] == chunkMap[sortedIds[j]].(score := round(scores[sortedIds[j]]))
    ensures IsFusion(merged, lists, k, round)
  {
    hide IsTally, Score, Last, SortBy, ByScore;
    var sortedIds := SortBy(ids, ByScore(scores));
    TallyTotals(lists, k, ids, scores, chunkMap);
    SortOrders(ids, ByScore(scores));
    SortMembers(ids, ByScore(scores));
    SortKeepsDistinct(ids, sortedIds);
    ScoresDescend(ids, scores);
    forall id
      ensures Last(lists, id).Some? <==> Holds(merged, id)
    {
      if Last(lists, id).Some? {
        var i :| 0 <= i < |sortedIds| && sortedIds[i] == id;
        assert merged[i].chunkId == id;
      }
      if Holds(merged, id) {
        var i :| 0 <= i < |merged| && merged[i].chunkId == id;
        assert sortedIds[i] == id;
      }
    }
  }

  lemma ScoresDescend(ids: seq<string>, scores: map<string, real>)
    ensures var sortedIds := SortBy(ids, ByScore(scores));
      forall i, j :: 0 <= i < j < |sortedIds| && sortedIds[i] in scores && sortedIds[j] in scores ==>
        scores[sortedIds[i]] >= scores[sortedIds[j]]
  {
    hide SortBy;
    SortOrders(ids, ByScore(scores));
    var sortedIds := SortBy(ids, ByScore(scores));
    forall i, j | 0 <= i < j < |sortedIds| && sortedIds[i] in scores && sortedIds[j] in scores
      ensures scores[sortedIds[i]] >= scores[sortedIds[j]]
    {
      assert ByScore(scores)(sortedIds[i]) <= ByScore(scores)(sortedIds[j]);
    }
  }

  lemma SortKeepsDistinct(ids: seq<string>, sorted: seq<string>)
    requires Distinct(ids) && multiset(sorted) == multiset(ids)
    ensures Distinct(sorted)
  {
    forall i, j | 0 <= i < j < |sorted|
      ensures sorted[i] != sorted[j]
    {
      OccursOnce(ids, sorted[i]);
      assert sorted == sorted[..j] + sorted[j..];
      assert sorted[i] in multiset(sorted[..j]) by { assert sorted[..j][i] == sorted[i]; }
      assert sorted[j] in multiset(sorted[j..]) by { assert sorted[j..][0] == sorted[j]; }
    }
  }

  lemma {:induction false} OccursOnce(ids: seq<string>, id: string)
    requires Distinct(ids)
    ensures multiset(ids)[id] <= 1
  {
    if ids != [] {
      var front, last := ids[..|ids| - 1], ids[|ids| - 1];
      OccursOnce(front, id);
      assert ids == front + [last];
      assert last !in multiset(front);
    }
  }

  // ---------------------------------------------------------------- fairness

  ghost predicate DistinctChunks(results: seq<QueryResult>) {
    forall i, j :: 0 <= i < j < |results| ==> results[i].chunkId != results[j].chunkId
  }

  /** Wherever `b` occurs, `a` stands before it. */
  ghost predicate Outranks(results: seq<QueryResult>, a: string, b: string) {
    forall j :: 0 <= j < |results| && results[j].chunkId == b ==> exists i :: 0 <= i < j && results[i].chunkId == a
  }

  lemma {:induction false} ScoreIsShare(results: seq<QueryResult>, k: nat, id: string)
    requires DistinctChunks(results)
    ensures ListScore(results, k, id) >= 0.0
    ensures LastIn(results, id).None? ==> ListScore(results, k, id) == 0.0
    ensures forall i :: 0 <= i < |results| && results[i].chunkId == id ==>
      LastIn(results, id).Some? && ListScore(results, k, id) == 1.0 / (k + i + 1) as real
    ensures LastIn(results, id).Some? ==> Holds(results, id)
  {
    if results != [] {
      var front, last := results[..|results| - 1], results[|results| - 1];
      ScoreIsShare(front, k, id);
      if last.chunkId == id {
        assert !Holds(front, id);
      } else if LastIn(front, id).Some? {
        var i :| 0 <= i < |front| && front[i].chunkId == id;
        assert results[i] == front[i];
      }
    }
  }

  lemma SmallerShare(m: nat, n: nat)
    requires 0 < m < n
    ensures 1.0 / m as real > 1.0 / n as real
  {
  }

  lemma ListDominance(results: seq<QueryResult>, k: nat, a: string, b: string)
    requires DistinctChunks(results) && Outranks(results, a, b)
    ensures ListScore(results, k, a) >= ListScore(results, k, b)
    ensures LastIn(results, b).Some? ==> ListScore(results, k, a) > ListScore(results, k, b)
  {
    hide ListScore, LastIn;
    ScoreIsShare(results, k, a);
    ScoreIsShare(results, k, b);
    if LastIn(results, b).Some? {
      var j :| 0 <= j < |results| && results[j].chunkId == b;
      var i :| 0 <= i < j && results[i].chunkId == a;
      SmallerShare(k + i + 1, k + j + 1);
    }
  }

  /** In a list that holds it once, a chunk scores the reciprocal of `k` and its rank. */
  lemma ScoreInOneList(results: seq<QueryResult>, k: nat, i: nat)
    requires DistinctChunks(results) && i < |results|
    ensures Score([results], k, results[i].chunkId) == 1.0 / (k + i + 1) as real
  {
    hide ListScore;
    ScoreIsShare(results, k, results[i].chunkId);
    assert [results][..0] == [];
  }

  /** Scores add up over lists, and no order of the lists matters. */
  lemma {:induction false} ScoreAddsUp(a: seq<seq<QueryResult>>, b: seq<seq<QueryResult>>, k: nat, id: string)
    ensures Score(a + b, k, id) == Score(a, k, id) + Score(b, k, id) == Score(b + a, k, id)
    decreases |a| + |b|
  {
    hide ListScore;
    if b != [] {
      assert (a + b)[..|a + b| - 1] == a + b[..|b| - 1];
      ScoreAddsUp(a, b[..|b| - 1], k, id);
    } else {
      assert a + b == a;
    }
    ScoreAppends(b, a, k, id);
  }

  lemma {:induction false} ScoreAppends(a: seq<seq<QueryResult>>, b: seq<seq<QueryResult>>, k: nat, id: string)
    ensures Score(a + b, k, id) == Score(a, k, id) + Score(b, k, id)
  {
    hide ListScore;
    if b != [] {
      assert (a + b)[..|a + b| - 1] == a + b[..|b| - 1];
      ScoreAppends(a, b[..|b| - 1], k, id);
    } else {
      assert a + b == a;
    }
  }

  /** The result kept for a chunk is its last one, over all lists. */
  lemma {:induction false} LastIsLatest(lists: seq<seq<QueryResult>>, id: string) returns (l: nat, i: nat)
    requires Last(lists, id).Some?
    ensures l < |lists| && i < |lists[l]| && lists[l][i] == Last(lists, id).value && lists[l][i].chunkId == id
    ensures forall j :: i < j < |lists[l]| ==> lists[l][j].chunkId != id
    ensures forall m, j :: l < m < |lists| && 0 <= j < |lists[m]| ==> lists[m][j].chunkId != id
  {
    hide LastIn;
    var front, last := lists[..|lists| - 1], lists[|lists| - 1];
    LastInIsLatest(last, id);
    if LastIn(last, id).Some? {
      l := |front|;
      i := LastPlace(last, id);
    } else {
      l, i := LastIsLatest(front, id);
      assert forall m :: 0 <= m < |front| ==> lists[m] == front[m];
    }
  }

  ghost predicate IsLastPlace(results: seq<QueryResult>, id: string, i: nat) {
    i < |results| && results[i].chunkId == id && forall j :: i < j < |results| ==> results[j].chunkId != id
  }

  lemma LastPlace(results: seq<QueryResult>, id: string) returns (i: nat)
    requires LastIn(results, id).Some?
    ensures IsLastPlace(results, id, i) && LastIn(results, id) == Some(results[i])
  {
    hide LastIn;
    LastInIsLatest(results, id);
    i :| IsLastPlace(results, id, i) && LastIn(results, id) == Some(results[i]);
  }

  lemma {:induction false} LastInIsLatest(results: seq<QueryResult>, id: string)
    ensures LastIn(results, id).Some? ==> exists i: nat :: IsLastPlace(results, id, i) && LastIn(results, id) == Some(results[i])
    ensures LastIn(results, id).None? ==> forall j :: 0 <= j < |results| ==> results[j].chunkId != id
  {
    if results != [] {
      var front, last := results[..|results| - 1], results[|results| - 1];
      LastInIsLatest(front, id);
      if last.chunkId == id {
        assert IsLastPlace(results, id, |front|);
      } else if LastIn(front, id).Some? {
        var i: nat :| IsLastPlace(front, id, i) && LastIn(front, id) == Some(front[i]);
        assert IsLastPlace(results, id, i) && results[i] == front[i];
      }
    }
  }

  lemma {:induction false} ScoreDominance(lists: seq<seq<QueryResult>>, k: nat, a: string, b: string)
    requires forall i :: 0 <= i < |lists| ==> DistinctChunks(lists[i]) && Outranks(lists[i], a, b)
    ensures Score(lists, k, a) >= Score(lists, k, b)
    ensures Last(lists, b).Some? ==> Score(lists, k, a) > Score(lists, k, b)
  {
    if lists != [] {
      ScoreDominance(lists[..|lists| - 1], k, a, b);
      ListDominance(lists[|lists| - 1], k, a, b);
    }
  }

  lemma ListScoreAppend(front: seq<QueryResult>, r: QueryResult, k: nat, id: string)
    ensures ListScore(front + [r], k, id) == ListScore(front, k, id) + (if r.chunkId == id then 1.0 / (k + |front| + 1) as real else 0.0)
  {
    assert (front + [r])[..|front|] == front;
  }

  lemma EmptyScores(k: nat, id: string)
    ensures ListScore([], k, id) == 0.0
  {
  }

  lemma LoneList(results: seq<QueryResult>, k: nat, id: string)
    ensures Score([results], k, id) == ListScore(results, k, id)
  {
    assert [results][..0] == [];
  }

  /** Where a list repeats a chunk, order alone decides nothing: one occurrence ahead of two scores less. */
  lemma RepeatsBreakDominance(a: QueryResult, b: QueryResult, k: nat)
    requires a.chunkId != b.chunkId && k > 0
    ensures Outranks([a, b, b], a.chunkId, b.chunkId)
    ensures Score([[a, b, b]], k, a.chunkId) < Score([[a, b, b]], k, b.chunkId)
  {
    hide ListScore, Score;
    assert [] + [a] == [a] && [a] + [b] == [a, b] && [a, b] + [b] == [a, b, b];
    assert [a, b, b][0].chunkId == a.chunkId;
    EmptyScores(k, a.chunkId);
    EmptyScores(k, b.chunkId);
    forall id
      ensures Score([[a, b, b]], k, id) == ListScore([a, b, b], k, id)
    {
      LoneList([a, b, b], k, id);
    }
    forall id | id == a.chunkId || id == b.chunkId
      ensures ListScore([a, b, b], k, id) ==
        (if id == a.chunkId then 1.0 / (k + 1) as real else 1.0 / (k + 2) as real + 1.0 / (k + 3) as real)
    {
      ListScoreAppend([], a, k, id);
      ListScoreAppend([a], b, k, id);
      ListScoreAppend([a, b], b, k, id);
      EmptyScores(k, id);
    }
    TwoSharesExceedOne(k);
  }

  lemma TwoSharesExceedOne(k: nat)
    requires k > 0
    ensures 1.0 / (k + 1) as real < 1.0 / (k + 2) as real + 1.0 / (k + 3) as real
  {
    SmallerShare(k + 2, k + 3);
    HalfShare((k + 1) as real, (k + 3) as real);
  }

  lemma HalfShare(x: real, z: real)
    requires 0.0 < x && z <= 2.0 * x && z > 0.0
    ensures 1.0 / x <= 1.0 / z + 1.0 / z
  {
    var p, q := 1.0 / x, 1.0 / z;
    assert p * x == 1.0 && q * z == 1.0;
    if p > q + q {
      ScaledLess(q + q, p, x);
      assert (q + q) * x == q * (x + x);
      ScaledLessEq(z, x + x, q);
    }
  }

  lemma ScaledLess(a: real, b: real, d: real)
    requires a < b && d > 0.0
    ensures a * d < b * d
  {
    assert (b - a) * d > 0.0;
  }

  lemma ScaledLessEq(a: real, b: real, d: real)
    requires a <= b && d >= 0.0
    ensures d * a <= d * b
  {
    assert (b - a) * d >= 0.0;
  }

  /** A chunk ranked before another in every list that holds the other comes before it in the merge. */
  lemma DominanceIsOrder(merged: seq<QueryResult>, lists: seq<seq<QueryResult>>, k: nat, round: real -> real, a: string, b: string,
                         i: nat, j: nat)
    requires IsFusion(merged, lists, k, round) && i < |merged| && j < |merged| && merged[i].chunkId == a && merged[j].chunkId == b
    requires forall l :: 0 <= l < |lists| ==> DistinctChunks(lists[l]) && Outranks(lists[l], a, b)
    ensures i < j
  {
    hide Score, Last;
    ScoreDominance(lists, k, a, b);
    assert Holds(merged, b);
  }
}
