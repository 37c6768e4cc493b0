/** Chunk-level comparison, the third dedup stage (`pipeline/steps/dedup/chunk_compare.py`). Scores are
    reals. */
module ChunkCompare {
  import opened DedupTypes
  import opened Wrappers

  datatype Hit = Hit(pointId: string, score: real)

  datatype ChunkMatch = ChunkMatch(chunkIndex: nat, pointId: string, score: real)

  datatype Config = Config(chunkMatch: real, bodyIdentical: real, bodySimilar: real, compareAll: bool)

  /** A document against one candidate: the search hits of each of its chunks, and the candidate's
      stored chunk count. */
  datatype Comparison = Comparison(hits: seq<seq<Hit>>, candidateChunks: Option<nat>)

  // ---------------------------------------------------------------- one comparison

  /** The chunk's best hit at or above the threshold, the first among equals. */
  function TopHit(hits: seq<Hit>, threshold: real): Option<Hit> {
    if hits == [] then None
    else
      var top, last := TopHit(hits[..|hits| - 1], threshold), hits[|hits| - 1];
      if last.score >= threshold && (top.None? || last.score > top.value.score) then Some(last) else top
  }

  function MatchedScore(hits: seq<Hit>, threshold: real): real {
    match TopHit(hits, threshold)
    case None => 0.0
    case Some(hit) => hit.score
  }

  function TotalScore(chunks: seq<seq<Hit>>, threshold: real): real {
    if chunks == [] then 0.0
    else TotalScore(chunks[..|chunks| - 1], threshold) + MatchedScore(chunks[|chunks| - 1], threshold)
  }

  function Min(a: nat, b: nat): nat {
    if a <= b then a else b
  }

  function Max(a: nat, b: nat): nat {
    if a <= b then b else a
  }

  /** How alike the two documents are in number of chunks. */
  function ChunkRatio(c: Comparison): real
    requires c.hits != []
  {
    if c.candidateChunks.None? || c.candidateChunks.value == 0 then 0.0
    else Min(|c.hits|, c.candidateChunks.value) as real / Max(|c.hits|, c.candidateChunks.value) as real
  }

  /** The score of the documented measure, always embedding and searching. */
  function FullScore(c: Comparison, cfg: Config): real {
    if c.hits == [] then 0.0
    else TotalScore(c.hits, cfg.chunkMatch) / |c.hits| as real * ChunkRatio(c)
  }

  /** The score as computed: 0 where the chunk ratio alone is below the similar threshold. */
  function AggregateScore(c: Comparison, cfg: Config): real {
    if c.hits != [] && ChunkRatio(c) < cfg.bodySimilar then 0.0 else FullScore(c, cfg)
  }

  /** One match per chunk with a hit at or above the threshold, in chunk order, each a best one. */
  ghost predicate IsMatching(matches: seq<ChunkMatch>, chunks: seq<seq<Hit>>, threshold: real) {
    && (forall j, k :: 0 <= j < k < |matches| ==> matches[j].chunkIndex < matches[k].chunkIndex)
    && (forall m :: m in matches ==>
          m.chunkIndex < |chunks| && TopHit(chunks[m.chunkIndex], threshold) == Some(Hit(m.pointId, m.score)))
    && forall i :: 0 <= i < |chunks| && TopHit(chunks[i], threshold).Some? ==> exists k :: 0 <= k < |matches| && matches[k].chunkIndex == i
  }

  function SumOf(matches: seq<ChunkMatch>): real {
    if matches == [] then 0.0 else SumOf(matches[..|matches| - 1]) + matches[|matches| - 1].score
  }

  lemma {:induction false} TopHitIsBest(hits: seq<Hit>, threshold: real)
    ensures TopHit(hits, threshold).Some? <==> exists h :: h in hits && h.score >= threshold
    ensures TopHit(hits, threshold).Some? ==>
      var top := TopHit(hits, threshold).value;
      top in hits && top.score >= threshold && forall h :: h in hits && h.score >= threshold ==> h.score <= top.score
  {
    if hits != [] {
      var front, last := hits[..|hits| - 1], hits[|hits| - 1];
      TopHitIsBest(front, threshold);
      assert hits == front + [last];
      assert last in hits;
    }
  }

  /** Among equals the first is taken. */
  lemma {:induction false} TopHitIsFirst(hits: seq<Hit>, threshold: real) returns (i: nat)
    requires TopHit(hits, threshold).Some?
    ensures i < |hits| && hits[i] == TopHit(hits, threshold).value && forall j :: 0 <= j < i ==> hits[j].score < hits[i].score
  {
    var front, last := hits[..|hits| - 1], hits[|hits| - 1];
    if TopHit(hits, threshold) == TopHit(front, threshold) {
      i := TopHitIsFirst(front, threshold);
    } else {
      i := |front|;
      TopHitIsBest(front, threshold);
      assert forall j :: 0 <= j < |front| ==> front[j] in front && front[j] == hits[j];
    }
  }

  method CompareChunks(c: Comparison, cfg: Config) returns (score: real, matches: seq<ChunkMatch>)
    ensures score == AggregateScore(c, cfg)
    ensures if c.hits == [] || ChunkRatio(c) < cfg.bodySimilar then matches == [] && score == 0.0
      else IsMatching(matches, c.hits, cfg.chunkMatch) && score * |c.hits| as real == SumOf(matches) * ChunkRatio(c)
  {
    hide TopHit, IsMatching, TotalScore, SumOf, ChunkRatio;
    score, matches := 0.0, [];
    NothingCompared(c.hits, cfg.chunkMatch);
    if c.hits == [] {
      return;
    }
    var ratio := ChunkRatio(c);
    if ratio < cfg.bodySimilar {
      return;
    }
    var total := 0.0;
    for i := 0 to |c.hits|
      invariant total == TotalScore(c.hits[..i], cfg.chunkMatch)
      invariant IsMatching(matches, c.hits[..i], cfg.chunkMatch) && total == SumOf(matches)
    {
      var top := TopHit(c.hits[i], cfg.chunkMatch);
      AddChunk(matches, c.hits, cfg.chunkMatch, i);
      if top.Some? {
        SumOneMore(matches, ChunkMatch(i, top.value.pointId, top.value.score));
        matches := matches + [ChunkMatch(i, top.value.pointId, top.value.score)];
        total := total + top.value.score;
      }
    }
    assert c.hits[..|c.hits|] == c.hits;
    score := total / |c.hits| as real * ratio;
    ScaledBack(total, |c.hits| as real, ratio);
  }

  lemma NothingCompared(chunks: seq<seq<Hit>>, threshold: real)
    ensures IsMatching([], chunks[..0], threshold) && TotalScore(chunks[..0], threshold) == SumOf([]) == 0.0
  {
  }

  lemma SumOneMore(matches: seq<ChunkMatch>, m: ChunkMatch)
    ensures SumOf(matches + [m]) == SumOf(matches) + m.score
  {
    assert (matches + [m])[..|matches|] == matches;
  }

  lemma ScaledBack(total: real, n: real, ratio: real)
    requires n > 0.0
    ensures total / n * ratio * n == total * ratio
  {
    var q := total / n;
    assert q * n == total;
    assert q * ratio * n == q * n * ratio;
  }

  lemma AddChunk(matches: seq<ChunkMatch>, chunks: seq<seq<Hit>>, threshold: real, i: nat)
    requires i < |chunks| && IsMatching(matches, chunks[..i], threshold)
    ensures TotalScore(chunks[..i + 1], threshold) == TotalScore(chunks[..i], threshold) + MatchedScore(chunks[i], threshold)
    ensures match TopHit(chunks[i], threshold)
      case None => IsMatching(matches, chunks[..i + 1], threshold)
      case Some(hit) => IsMatching(matches + [ChunkMatch(i, hit.pointId, hit.score)], chunks[..i + 1], threshold)
  {
    hide TopHit;
    assert chunks[..i + 1][..i] == chunks[..i];
    forall j | 0 <= j < i && TopHit(chunks[j], threshold).Some?
      ensures exists k :: 0 <= k < |matches| && matches[k].chunkIndex == j
    {
      assert chunks[..i][j] == chunks[j];
    }
    match TopHit(chunks[i], threshold)
    case None =>
    case Some(hit) =>
      var matches' := matches + [ChunkMatch(i, hit.pointId, hit.score)];
      forall j | 0 <= j <= i && TopHit(chunks[j], threshold).Some?
        ensures exists k :: 0 <= k < |matches'| && matches'[k].chunkIndex == j
      {
        if j < i {
          var k :| 0 <= k < |matches| && matches[k].chunkIndex == j;
          assert matches'[k].chunkIndex == j;
        } else {
          assert matches'[|matches|].chunkIndex == j;
        }
      }
  }

  // ---------------------------------------------------------------- bands

  function ScoreToBodyMatch(score: real, cfg: Config): BodyMatch {
    if score >= cfg.bodyIdentical then IdenticalLevel else if score >= cfg.bodySimilar then Similar else NoMatch
  }

  function Rank(band: BodyMatch): nat {
    match band
    case NoMatch => 0
    case Similar => 1
    case IdenticalLevel => 2
  }

  /** A higher score never falls into a lower band, whatever the thresholds. */
  lemma BandsAreMonotone(a: real, b: real, cfg: Config)
    requires a <= b
    ensures Rank(ScoreToBodyMatch(a, cfg)) <= Rank(ScoreToBodyMatch(b, cfg))
  {
  }

  /** The bands are three, ranked apart, and each begins at its threshold: a score that reaches the identical
      one is identical, one that reaches only the similar one similar, any other no match. */
  lemma BandsBeginAtThresholds(cfg: Config)
    ensures ScoreToBodyMatch(cfg.bodyIdentical, cfg) == IdenticalLevel
    ensures cfg.bodySimilar < cfg.bodyIdentical ==> ScoreToBodyMatch(cfg.bodySimilar, cfg) == Similar
    ensures forall score :: ScoreToBodyMatch(score, cfg) == NoMatch <==> score < cfg.bodySimilar && score < cfg.bodyIdentical
    ensures Rank(NoMatch) < Rank(Similar) < Rank(IdenticalLevel)
  {
  }

  /** Cosine scores of the search lie in [0, 1]. */
  ghost predicate UnitScores(c: Comparison) {
    forall i, h :: 0 <= i < |c.hits| && h in c.hits[i] ==> 0.0 <= h.score <= 1.0
  }

  // ---------------------------------------------------------------- the early exit

  lemma {:induction false} TotalIsBounded(chunks: seq<seq<Hit>>, threshold: real)
    requires forall i, h :: 0 <= i < |chunks| && h in chunks[i] ==> 0.0 <= h.score <= 1.0
    ensures 0.0 <= TotalScore(chunks, threshold) <= |chunks| as real
    ensures threshold > 1.0 ==> TotalScore(chunks, threshold) == 0.0
  {
    hide TopHit;
    if chunks != [] {
      var front, last := chunks[..|chunks| - 1], chunks[|chunks| - 1];
      TotalIsBounded(front, threshold);
      TopHitIsBest(last, threshold);
      assert chunks[|chunks| - 1] == last;
    }
  }

  lemma DivMul(t: real, n: real, r: real)
    requires 0.0 <= t <= n && n > 0.0 && 0.0 <= r
    ensures 0.0 <= t / n * r <= r
  {
    assert 0.0 <= t / n <= 1.0;
  }

  /** The chunk ratio is the smaller of the two counts over the greater, whichever document it is; a
      candidate without chunks has none. */
  lemma RatioMeaning(c: Comparison)
    requires c.hits != []
    ensures c.candidateChunks.None? || c.candidateChunks.value == 0 ==> ChunkRatio(c) == 0.0
    ensures c.candidateChunks.Some? && c.candidateChunks.value > 0 ==>
      var n, m := |c.hits| as real, c.candidateChunks.value as real;
      if n <= m then ChunkRatio(c) * m == n else ChunkRatio(c) * n == m
    ensures ChunkRatio(c) == 1.0 <==> c.candidateChunks == Some(|c.hits|)
  {
    if c.candidateChunks.Some? && c.candidateChunks.value > 0 {
      var n, m := |c.hits|, c.candidateChunks.value;
      DivisionUndone(Min(n, m) as real, Max(n, m) as real);
    }
  }

  lemma DivisionUndone(x: real, y: real)
    requires y > 0.0
    ensures x / y * y == x && (x / y == 1.0 <==> x == y)
  {
    var q := x / y;
    assert q * y == x;
  }

  /** A candidate of as many chunks, each matched perfectly, is identical under all thresholds up to 1. */
  lemma PerfectIsIdentical(n: nat, cfg: Config)
    requires n > 0 && cfg.chunkMatch <= 1.0 && cfg.bodyIdentical <= 1.0 && cfg.bodySimilar <= 1.0
    ensures AggregateScore(PerfectComparison(n, n), cfg) == 1.0
    ensures ScoreToBodyMatch(AggregateScore(PerfectComparison(n, n), cfg), cfg) == IdenticalLevel
  {
    hide TotalScore;
    PerfectScore(n, n, cfg);
    OneOverItself(n as real);
  }

  lemma RatioIsUnit(c: Comparison)
    requires c.hits != []
    ensures 0.0 <= ChunkRatio(c) <= 1.0
  {
  }

  /** No score exceeds the chunk ratio. */
  lemma FullScoreBelowRatio(c: Comparison, cfg: Config)
    requires UnitScores(c) && c.hits != []
    ensures 0.0 <= FullScore(c, cfg) <= ChunkRatio(c) <= 1.0
    ensures cfg.chunkMatch > 1.0 ==> FullScore(c, cfg) == 0.0
  {
    hide TotalScore;
    TotalIsBounded(c.hits, cfg.chunkMatch);
    RatioIsUnit(c);
    DivMul(TotalScore(c.hits, cfg.chunkMatch), |c.hits| as real, ChunkRatio(c));
  }

  /** The early exit answers with the band of the full computation on every comparison. */
  ghost predicate EarlyExitKeepsBand(cfg: Config) {
    forall c :: UnitScores(c) ==> ScoreToBodyMatch(AggregateScore(c, cfg), cfg) == ScoreToBodyMatch(FullScore(c, cfg), cfg)
  }

  lemma EarlyExitIsSafe(cfg: Config, c: Comparison)
    requires cfg.bodySimilar <= cfg.bodyIdentical || cfg.bodyIdentical <= 0.0 || cfg.bodyIdentical > 1.0 || cfg.chunkMatch > 1.0
    requires UnitScores(c)
    ensures ScoreToBodyMatch(AggregateScore(c, cfg), cfg) == ScoreToBodyMatch(FullScore(c, cfg), cfg)
  {
    hide TotalScore;
    if c.hits != [] {
      FullScoreBelowRatio(c, cfg);
    }
  }

  /** `n` chunks that each match perfectly, against a candidate of `m` chunks. */
  function PerfectComparison(n: nat, m: nat): Comparison {
    Comparison(seq(n, i => [Hit("p", 1.0)]), Some(m))
  }

  lemma {:induction false} PerfectTotal(chunks: seq<seq<Hit>>, threshold: real)
    requires threshold <= 1.0 && forall i :: 0 <= i < |chunks| ==> chunks[i] == [Hit("p", 1.0)]
    ensures TotalScore(chunks, threshold) == |chunks| as real
  {
    if chunks != [] {
      PerfectTotal(chunks[..|chunks| - 1], threshold);
      var last := chunks[|chunks| - 1];
      assert last[..|last| - 1] == [];
      assert TopHit(last, threshold) == Some(Hit("p", 1.0));
    }
  }

  lemma OneOverItself(n: real)
    requires n != 0.0
    ensures n / n == 1.0
  {
  }

  lemma PerfectScore(n: nat, m: nat, cfg: Config)
    requires 0 < n <= m && cfg.chunkMatch <= 1.0
    ensures UnitScores(PerfectComparison(n, m)) && PerfectComparison(n, m).hits != []
    ensures ChunkRatio(PerfectComparison(n, m)) == FullScore(PerfectComparison(n, m), cfg) == n as real / m as real
  {
    hide TotalScore;
    var c := PerfectComparison(n, m);
    PerfectTotal(c.hits, cfg.chunkMatch);
    assert |c.hits| == n;
    OneOverItself(n as real);
  }

  /** Between two thresholds in (0, 1] lies a ratio of two chunk counts, the lower end included. */
  lemma FractionBetween(low: real, high: real) returns (n: nat, m: nat)
    requires 0.0 < low <= 1.0 && low < high
    ensures 0 < n <= m && low <= n as real / m as real < high
  {
    if high > 1.0 {
      n, m := 1, 1;
    } else {
      var gap := high - low;
      m := (1.0 / gap).Floor + 1;
      assert m as real > 1.0 / gap && m as real * gap > 1.0 by { FloorExceeds(gap, m); }
      var scaled := low * m as real;
      n := scaled.Floor + 1;
      FractionFits(low, gap, n, m);
    }
  }

  lemma ScaleKeepsOrder(a: real, b: real, d: real)
    requires d > 0.0
    ensures a < b ==> a * d < b * d
    ensures a <= b ==> a * d <= b * d
  {
    assert b * d - a * d == (b - a) * d;
  }

  lemma ScalePast(a: real, b: real, d: real, product: real)
    requires d > 0.0 && product == a * d
    ensures a < b ==> product < b * d
    ensures b < a ==> b * d < product
    ensures a <= b ==> product <= b * d
    ensures b <= a ==> b * d <= product
  {
    ScaleKeepsOrder(a, b, d);
    ScaleKeepsOrder(b, a, d);
  }

  lemma PastReciprocal(x: real, gap: real)
    requires gap > 0.0 && x > 1.0 / gap
    ensures x * gap > 1.0
  {
    ScalePast(1.0 / gap, x, gap, 1.0);
  }

  lemma FloorExceeds(gap: real, m: int)
    requires gap > 0.0 && m == (1.0 / gap).Floor + 1
    ensures m as real > 1.0 / gap && m as real * gap > 1.0
  {
    PastReciprocal(m as real, gap);
  }

  lemma FractionFits(low: real, gap: real, n: nat, m: nat)
    requires 0.0 < low && gap > 0.0 && low + gap <= 1.0 && m as real * gap > 1.0 && m > 0
    requires n == (low * m as real).Floor + 1
    ensures 0 < n <= m && low <= n as real / m as real < low + gap
  {
    NextIntFits(low, gap, low * m as real, n as real, m as real);
  }

  lemma NextIntFits(low: real, gap: real, scaled: real, n: real, d: real)
    requires 0.0 < low && gap > 0.0 && low + gap <= 1.0 && d * gap > 1.0 && d > 0.0
    requires scaled == low * d && scaled < n <= scaled + 1.0
    ensures 0.0 < n < d && low <= n / d < low + gap
  {
    var high := scaled + d * gap;
    assert high == (low + gap) * d;
    ScalePast(low + gap, 1.0, d, high);
    ScalePast(low, 0.0, d, scaled);
    DivBounds(low, n, d, low + gap, scaled, high);
  }

  lemma DivBounds(low: real, n: real, d: real, high: real, scaledLow: real, scaledHigh: real)
    requires d > 0.0 && scaledLow == low * d && scaledHigh == high * d && scaledLow <= n < scaledHigh
    ensures low <= n / d < high
  {
    var q := n / d;
    assert q * d == n;
    ScalePast(low, q, d, scaledLow);
    ScalePast(high, q, d, scaledHigh);
  }

  /** Skipping the search preserves every verdict exactly when the similar threshold does not exceed
      the identical one, or no score can land between them. The settings accept any two thresholds
      in [0, 1] and never compare them. */
  lemma EarlyExitKeepsBandIff(cfg: Config)
    ensures EarlyExitKeepsBand(cfg) <==>
      cfg.bodySimilar <= cfg.bodyIdentical || cfg.bodyIdentical <= 0.0 || cfg.bodyIdentical > 1.0 || cfg.chunkMatch > 1.0
  {
    hide TotalScore, FullScore, AggregateScore, ScoreToBodyMatch;
    if cfg.bodySimilar <= cfg.bodyIdentical || cfg.bodyIdentical <= 0.0 || cfg.bodyIdentical > 1.0 || cfg.chunkMatch > 1.0 {
      forall c | UnitScores(c)
        ensures ScoreToBodyMatch(AggregateScore(c, cfg), cfg) == ScoreToBodyMatch(FullScore(c, cfg), cfg)
      {
        EarlyExitIsSafe(cfg, c);
      }
    } else {
      var n, m := FractionBetween(cfg.bodyIdentical, cfg.bodySimilar);
      SkippedIdentical(cfg, n, m);
    }
  }

  lemma SkippedIdentical(cfg: Config, n: nat, m: nat)
    requires 0.0 < cfg.bodyIdentical && cfg.chunkMatch <= 1.0 && 0 < n <= m
    requires cfg.bodyIdentical <= n as real / m as real < cfg.bodySimilar
    ensures !EarlyExitKeepsBand(cfg)
  {
    PerfectScore(n, m, cfg);
    assert ScoreToBodyMatch(AggregateScore(PerfectComparison(n, m), cfg), cfg) == NoMatch;
    assert ScoreToBodyMatch(FullScore(PerfectComparison(n, m), cfg), cfg) == IdenticalLevel;
  }

  // ---------------------------------------------------------------- over all candidates

  function Candidates(r: DedupResult, cfg: Config): seq<string> {
    if cfg.compareAll then r.candidateDocIds
    else if r.duplicateDocId.Some? && r.duplicateDocId.value != "" then [r.duplicateDocId.value] else []
  }

  function BandOf(candidate: string, compare: string -> Comparison, cfg: Config): BodyMatch {
    ScoreToBodyMatch(AggregateScore(compare(candidate), cfg), cfg)
  }

  /** The candidates in some band, in order. */
  function Passed(candidates: seq<string>, compare: string -> Comparison, cfg: Config): seq<string> {
    if candidates == [] then []
    else
      Passed(candidates[..|candidates| - 1], compare, cfg)
      + (if BandOf(candidates[|candidates| - 1], compare, cfg) == NoMatch then [] else [candidates[|candidates| - 1]])
  }

  /** `best` has the greatest score, and is the first of the candidates that do. */
  ghost predicate IsFirstBest(best: string, candidates: seq<string>, compare: string -> Comparison, cfg: Config) {
    && (forall cid :: cid in candidates ==> AggregateScore(compare(cid), cfg) <= AggregateScore(compare(best), cfg))
    && exists i :: 0 <= i < |candidates| && candidates[i] == best
         && forall j :: 0 <= j < i ==> AggregateScore(compare(candidates[j]), cfg) < AggregateScore(compare(best), cfg)
  }

  /** What the stage answers: the highest band any candidate reaches, naming a candidate of greatest score. */
  ghost predicate IsConfirmation(r: DedupResult, candidates: seq<string>, compare: string -> Comparison, cfg: Config,
                                 sameTitle: string -> bool)
  {
    && (forall cid :: cid in candidates ==> Rank(BandOf(cid, compare, cfg)) <= Rank(r.bodyMatch))
    && (r.needsIndexing <==> r.bodyMatch == NoMatch)
    && if r.bodyMatch == NoMatch then
         r.duplicateDocId == None && r.titleMatch == Unknown && r.candidateDocIds == []
       else
         && r.duplicateDocId.Some? && r.duplicateDocId.value in candidates
         && BandOf(r.duplicateDocId.value, compare, cfg) == r.bodyMatch
         && IsFirstBest(r.duplicateDocId.value, candidates, compare, cfg)
         && r.titleMatch == (if sameTitle(r.duplicateDocId.value) then Same else Changed)
         && r.candidateDocIds == Passed(candidates, compare, cfg)
  }

  method RunChunkCompare(r: DedupResult, compare: string -> Comparison, cfg: Config, sameTitle: string -> bool)
    returns (result: DedupResult)
    ensures IsConfirmation(result, Candidates(r, cfg), compare, cfg, sameTitle)
  {
    hide AggregateScore;
    var candidates := Candidates(r, cfg);
    if candidates == [] {
      return DedupResult(NoMatch, Unknown, None, true, []);
    }
    var best, bestScore := BestCandidate(candidates, compare, cfg);
    forall cid | cid in candidates
      ensures Rank(BandOf(cid, compare, cfg)) <= Rank(ScoreToBodyMatch(bestScore, cfg))
    {
      BandsAreMonotone(AggregateScore(compare(cid), cfg), bestScore, cfg);
    }
    var band := ScoreToBodyMatch(bestScore, cfg);
    if band == NoMatch {
      return DedupResult(NoMatch, Unknown, None, true, []);
    }
    result := DedupResult(band, if sameTitle(best) then Same else Changed, Some(best), false, Passed(candidates, compare, cfg));
  }

  /** Compares every candidate and keeps the first of greatest score. */
  method BestCandidate(candidates: seq<string>, compare: string -> Comparison, cfg: Config) returns (best: string, bestScore: real)
    requires candidates != []
    ensures best in candidates && bestScore == AggregateScore(compare(best), cfg)
    ensures IsFirstBest(best, candidates, compare, cfg)
  {
    hide AggregateScore, IsMatching, ChunkRatio, SumOf;
    best := candidates[0];
    ghost var at := 0;
    var matches;
    bestScore, matches := CompareChunks(compare(best), cfg);
    for i := 1 to |candidates|
      invariant best in candidates && bestScore == AggregateScore(compare(best), cfg)
      invariant forall j :: 0 <= j < i ==> AggregateScore(compare(candidates[j]), cfg) <= bestScore
      invariant at < i && candidates[at] == best && forall j :: 0 <= j < at ==> AggregateScore(compare(candidates[j]), cfg) < bestScore
    {
      var score;
      score, matches := CompareChunks(compare(candidates[i]), cfg);
      if score > bestScore {
        best, bestScore, at := candidates[i], score, i;
      }
    }
  }

  /** Where the settings ask for it all listed candidates are compared and a best one is named, else the
      named one alone is confirmed or dismissed. */
  lemma ConfirmedMeans(stage: DedupResult, r: DedupResult, compare: string -> Comparison, cfg: Config, sameTitle: string -> bool)
    requires IsConfirmation(r, Candidates(stage, cfg), compare, cfg, sameTitle) && r.bodyMatch != NoMatch
    ensures r.duplicateDocId.Some?
    ensures !cfg.compareAll ==> r.duplicateDocId == stage.duplicateDocId && r.candidateDocIds == [r.duplicateDocId.value]
    ensures cfg.compareAll ==>
      && r.duplicateDocId.value in stage.candidateDocIds
      && (forall cid :: cid in stage.candidateDocIds ==>
            AggregateScore(compare(cid), cfg) <= AggregateScore(compare(r.duplicateDocId.value), cfg))
      && forall cid :: cid in r.candidateDocIds <==> cid in stage.candidateDocIds && BandOf(cid, compare, cfg) != NoMatch
  {
    hide AggregateScore, BandOf;
    PassedAreCandidates(Candidates(stage, cfg), compare, cfg);
    var dup := r.duplicateDocId.value;
    if !cfg.compareAll {
      assert [dup][..0] == [];
      assert Passed([dup], compare, cfg) == Passed([], compare, cfg) + [dup];
    }
  }

  /** A stage's result is dismissed only if no document compared, all listed or the one named, reaches a band. */
  lemma DismissedMeans(stage: DedupResult, r: DedupResult, compare: string -> Comparison, cfg: Config, sameTitle: string -> bool)
    requires IsConfirmation(r, Candidates(stage, cfg), compare, cfg, sameTitle) && r.bodyMatch == NoMatch
    ensures cfg.compareAll ==> forall cid :: cid in stage.candidateDocIds ==> BandOf(cid, compare, cfg) == NoMatch
    ensures !cfg.compareAll && stage.duplicateDocId.Some? && stage.duplicateDocId.value != "" ==>
      BandOf(stage.duplicateDocId.value, compare, cfg) == NoMatch
  {
    hide AggregateScore, BandOf;
    assert stage.duplicateDocId.Some? ==> stage.duplicateDocId.value in [stage.duplicateDocId.value];
  }

  lemma {:induction false} PassedAreCandidates(candidates: seq<string>, compare: string -> Comparison, cfg: Config)
    ensures forall cid :: cid in Passed(candidates, compare, cfg) <==> cid in candidates && BandOf(cid, compare, cfg) != NoMatch
  {
    hide BandOf;
    if candidates != [] {
      PassedAreCandidates(candidates[..|candidates| - 1], compare, cfg);
      assert candidates == candidates[..|candidates| - 1] + [candidates[|candidates| - 1]];
    }
  }
}
