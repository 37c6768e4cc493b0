/** MinHash signatures and their band index: `pipeline/steps/dedup/minhash.py` with the band
    queries of `infra/postgres.py`. */
module MinHash {
  import opened DedupTypes
  import opened Wrappers

  /** 2^61 - 1, the modulus of the hash family and the value of an empty signature. */
  const PRIME: nat := 2305843009213693951

  // ---------------------------------------------------------------- signatures

  /** The hash family, `(a_i * h(token) + b_i) % PRIME`: one value below PRIME per position and token. */
  type HashFamily = (nat, string) -> nat

  /** `low` is the least value position `i` gives to a token of the set. */
  ghost predicate IsMin(hash: HashFamily, i: nat, tokens: set<string>, low: nat) {
    (exists t :: t in tokens && hash(i, t) == low) && forall t :: t in tokens ==> low <= hash(i, t)
  }

  ghost predicate IsSignature(hash: HashFamily, tokens: set<string>, numHashes: nat, signature: seq<nat>) {
    && |signature| == numHashes
    && if tokens == {} then forall i :: 0 <= i < numHashes ==> signature[i] == PRIME
       else forall i :: 0 <= i < numHashes ==> IsMin(hash, i, tokens, signature[i])
  }

  function TokenSet(tokens: seq<string>): set<string> {
    set t | t in tokens
  }

  method MinOf(hash: HashFamily, i: nat, tokens: set<string>) returns (low: nat)
    requires tokens != {}
    ensures IsMin(hash, i, tokens, low)
  {
    var first :| first in tokens;
    low := hash(i, first);
    var todo := tokens - {first};
    while todo != {}
      invariant todo <= tokens && todo != tokens
      invariant IsMin(hash, i, tokens - todo, low)
      decreases todo
    {
      var t :| t in todo;
      if hash(i, t) < low {
        low := hash(i, t);
      }
      todo := todo - {t};
    }
    assert tokens - todo == tokens;
  }

  method ComputeMinhash(tokens: seq<string>, numHashes: nat, hash: HashFamily) returns (signature: seq<nat>)
    ensures IsSignature(hash, TokenSet(tokens), numHashes, signature)
  {
    var tokenSet := TokenSet(tokens);
    if tokens == [] {
      return seq(numHashes, _ => PRIME);
    }
    assert tokens[0] in tokenSet;
    signature := [];
    for i := 0 to numHashes
      invariant |signature| == i
      invariant forall k :: 0 <= k < i ==> IsMin(hash, k, tokenSet, signature[k])
    {
      var low := MinOf(hash, i, tokenSet);
      signature := signature + [low];
    }
  }

  /** The signature depends only on the set of tokens, not on their order or number. */
  lemma SignatureOfSetUnique(hash: HashFamily, tokens: set<string>, numHashes: nat, s: seq<nat>, t: seq<nat>)
    requires IsSignature(hash, tokens, numHashes, s) && IsSignature(hash, tokens, numHashes, t)
    ensures s == t
  {
    if tokens != {} {
      forall i | 0 <= i < numHashes
        ensures s[i] == t[i]
      {
        assert IsMin(hash, i, tokens, s[i]) && IsMin(hash, i, tokens, t[i]);
      }
    }
  }

  /** The signature of a union of two non-empty sets is the pointwise minimum of theirs. */
  lemma SignatureOfUnion(hash: HashFamily, a: set<string>, b: set<string>, numHashes: nat, s: seq<nat>, t: seq<nat>)
    requires a != {} && b != {}
    requires IsSignature(hash, a, numHashes, s) && IsSignature(hash, b, numHashes, t)
    ensures IsSignature(hash, a + b, numHashes, seq(numHashes, i requires 0 <= i < numHashes => if s[i] <= t[i] then s[i] else t[i]))
  {
    forall i | 0 <= i < numHashes
      ensures IsMin(hash, i, a + b, if s[i] <= t[i] then s[i] else t[i])
    {
      var x :| x in a && hash(i, x) == s[i];
      var y :| y in b && hash(i, y) == t[i];
      assert x in a + b && y in a + b;
    }
  }

  // ---------------------------------------------------------------- matching positions

  /** Whether two signatures agree at position `p`. */
  predicate Agree(s: seq<nat>, t: seq<nat>, p: nat)
    requires p < |s| && p < |t|
  {
    s[p] == t[p]
  }

  /** Agreements among positions `lo..hi`. */
  function Matches(s: seq<nat>, t: seq<nat>, lo: nat, hi: nat): (m: nat)
    requires lo <= hi <= |s| && hi <= |t|
    ensures m <= hi - lo
    decreases hi
  {
    if lo == hi then 0 else Matches(s, t, lo, hi - 1) + (if Agree(s, t, hi - 1) then 1 else 0)
  }

  lemma {:induction false} MatchesSplit(s: seq<nat>, t: seq<nat>, lo: nat, mid: nat, hi: nat)
    requires lo <= mid <= hi <= |s| && hi <= |t|
    ensures Matches(s, t, lo, hi) == Matches(s, t, lo, mid) + Matches(s, t, mid, hi)
    decreases hi
  {
    if mid < hi {
      MatchesSplit(s, t, lo, mid, hi - 1);
    }
  }

  /** `compute_jaccard`: the share of agreeing positions. */
  function Jaccard(s: seq<nat>, t: seq<nat>): real
    requires |s| == |t|
  {
    if s == [] then 0.0 else Matches(s, t, 0, |s|) as real / |s| as real
  }

  /** The positions from `lo` up to `hi` on which two signatures agree. */
  ghost function Agreeing(s: seq<nat>, t: seq<nat>, lo: nat, hi: nat): set<nat>
    requires hi <= |s| && hi <= |t|
  {
    set p: nat | lo <= p < hi && s[p] == t[p]
  }

  lemma {:induction false} MatchesCount(s: seq<nat>, t: seq<nat>, lo: nat, hi: nat)
    requires lo <= hi <= |s| && hi <= |t|
    ensures Matches(s, t, lo, hi) == |Agreeing(s, t, lo, hi)|
    decreases hi
  {
    if lo == hi {
      assert Agreeing(s, t, lo, hi) == {};
    } else {
      MatchesCount(s, t, lo, hi - 1);
      var front := Agreeing(s, t, lo, hi - 1);
      assert Agreeing(s, t, lo, hi) == if s[hi - 1] == t[hi - 1] then front + {hi - 1} else front;
    }
  }

  lemma {:induction false} AllMatch(s: seq<nat>, t: seq<nat>, hi: nat)
    requires hi <= |s| && hi <= |t|
    ensures Matches(s, t, 0, hi) == hi <==> forall p :: 0 <= p < hi ==> s[p] == t[p]
  {
    if hi > 0 {
      AllMatch(s, t, hi - 1);
    }
  }

  /** The estimate is the number of agreeing positions over their number; so it is 1 exactly for equal
      signatures. */
  lemma JaccardIsShare(s: seq<nat>, t: seq<nat>)
    requires |s| == |t| && s != []
    ensures Jaccard(s, t) * |s| as real == |Agreeing(s, t, 0, |s|)| as real
    ensures Jaccard(s, t) == 1.0 <==> s == t
  {
    hide Matches, Agreeing;
    MatchesCount(s, t, 0, |s|);
    AllMatch(s, t, |s|);
    ShareOfWhole(Matches(s, t, 0, |s|) as real, |s| as real);
  }

  lemma ShareOfWhole(x: real, n: real)
    requires n > 0.0
    ensures x / n * n == x && (x / n == 1.0 <==> x == n)
  {
    var q := x / n;
    assert q * n == x;
  }

  // ---------------------------------------------------------------- bands

  /** Band `b` agrees: every one of its `rows` positions does. This is `cnt = rows_per_band`. */
  predicate BandAgrees(s: seq<nat>, t: seq<nat>, b: nat, rows: nat)
    requires (b + 1) * rows <= |s| && (b + 1) * rows <= |t|
  {
    Matches(s, t, b * rows, (b + 1) * rows) == rows
  }

  lemma BandFits(b: nat, numBands: nat, rows: nat, n: nat)
    requires b < numBands && numBands * rows <= n
    ensures (b + 1) * rows <= n
  {
    assert (b + 1) * rows <= numBands * rows;
  }

  predicate SomeBandAgrees(s: seq<nat>, t: seq<nat>, numBands: nat, rows: nat)
    requires |s| == |t| && numBands * rows <= |s|
  {
    exists b: nat :: b < numBands && (BandFits(b, numBands, rows, |s|); BandAgrees(s, t, b, rows))
  }

  /** Each disagreeing band costs at least one mismatch. */
  lemma {:induction false} DisagreeingBandsCost(s: seq<nat>, t: seq<nat>, k: nat, numBands: nat, rows: nat)
    requires |s| == |t| && numBands * rows <= |s| && k <= numBands && k * rows <= |s|
    requires !SomeBandAgrees(s, t, numBands, rows)
    ensures Matches(s, t, 0, k * rows) <= k * rows - k
  {
    if k > 0 {
      BandFits(k - 1, numBands, rows, |s|);
      assert (k - 1) * rows <= k * rows;
      DisagreeingBandsCost(s, t, k - 1, numBands, rows);
      MatchesSplit(s, t, 0, (k - 1) * rows, k * rows);
      assert !BandAgrees(s, t, k - 1, rows);
      assert k * rows - (k - 1) * rows == rows;
    }
  }

  /** Fewer mismatches than bands guarantees a candidate. */
  lemma FewMismatchesGiveCandidate(s: seq<nat>, t: seq<nat>, numBands: nat)
    requires |s| == |t| && numBands > 0
    requires |s| - Matches(s, t, 0, |s|) < numBands
    ensures numBands * (|s| / numBands) <= |s| && SomeBandAgrees(s, t, numBands, |s| / numBands)
  {
    var n, rows := |s|, |s| / numBands;
    assert numBands * rows <= n;
    if !SomeBandAgrees(s, t, numBands, rows) {
      DisagreeingBandsCost(s, t, numBands, numBands, rows);
      MatchesSplit(s, t, 0, numBands * rows, n);
      assert false;
    }
  }

  lemma RatioMonotone(m: nat, k: nat, n: nat)
    requires 0 < n && k <= m
    ensures m as real / n as real >= k as real / n as real
  {
  }

  lemma BandCounts(s: seq<nat>, t: seq<nat>, b: nat, rows: nat)
    requires |s| == |t| && (b + 1) * rows <= |s| && BandAgrees(s, t, b, rows)
    ensures Matches(s, t, 0, |s|) >= rows
  {
    assert b * rows <= (b + 1) * rows;
    MatchesSplit(s, t, 0, b * rows, |s|);
    MatchesSplit(s, t, b * rows, (b + 1) * rows, |s|);
  }

  /** Every candidate agrees on at least one whole band, so its estimated Jaccard is at least rows / n. */
  lemma CandidateHasJaccard(s: seq<nat>, t: seq<nat>, numBands: nat)
    requires |s| == |t| && 0 < numBands <= |s| && numBands * (|s| / numBands) <= |s|
    requires SomeBandAgrees(s, t, numBands, |s| / numBands)
    ensures Jaccard(s, t) >= (|s| / numBands) as real / |s| as real
  {
    var n, rows := |s|, |s| / numBands;
    var b: nat :| b < numBands && (BandFits(b, numBands, rows, n); BandAgrees(s, t, b, rows));
    BandFits(b, numBands, rows, n);
    BandCounts(s, t, b, rows);
    RatioMonotone(Matches(s, t, 0, n), rows, n);
  }

  // ---------------------------------------------------------------- detection

  const NUM_HASHES: nat := 128
  const NUM_BANDS: nat := 16
  const ROWS_PER_BAND: nat := 8

  type Signature = s: seq<nat> | |s| == NUM_HASHES witness seq(NUM_HASHES, _ => PRIME)

  datatype MinHashConfig = MinHashConfig(jaccardThreshold: real, titleFuzzyThreshold: real, titleOnlyFloor: real)

  /** Indexed documents of the KB that agree with `signature` on every position of some band. */
  function FindCandidates(docs: map<string, Doc>, stored: map<string, Signature>, signature: Signature, kbId: string)
    : set<string>
  {
    set d | d in stored && d in docs && docs[d].kbId == kbId && docs[d].status.Indexed?
            && SomeBandAgrees(signature, stored[d], NUM_BANDS, ROWS_PER_BAND)
  }

  /** Indexed documents of the KB whose title pg_trgm finds similar, with the similarity; `trgm` reports
      none for a blank title. */
  function TitleCandidates(docs: map<string, Doc>, trgm: string -> Option<real>, kbId: string): map<string, real> {
    map d | d in docs && docs[d].kbId == kbId && docs[d].status.Indexed? && trgm(d).Some? :: trgm(d).value
  }

  function TitleScore(titleScores: map<string, real>, d: string): real {
    if d in titleScores then titleScores[d] else 0.0
  }

  /** A candidate passes on its Jaccard alone, or on a lower one backed by its title. */
  predicate Passes(stored: map<string, Signature>, signature: Signature, titleScores: map<string, real>,
                   cfg: MinHashConfig, d: string)
  {
    && d in stored
    && var j := Jaccard(signature, stored[d]);
       j >= cfg.jaccardThreshold
       || (TitleScore(titleScores, d) >= cfg.titleFuzzyThreshold && j >= cfg.titleOnlyFloor)
  }

  function PassedSet(stored: map<string, Signature>, signature: Signature, titleScores: map<string, real>,
                     cfg: MinHashConfig, candidates: set<string>): set<string>
  {
    set d | d in candidates && Passes(stored, signature, titleScores, cfg, d)
  }

  /** The document of greatest Jaccard among `passed`, which must be positive to be named at all. */
  ghost predicate IsBest(stored: map<string, Signature>, signature: Signature, passed: set<string>, best: Option<string>)
    requires passed <= stored.Keys
  {
    match best
    case None => forall d :: d in passed ==> Jaccard(signature, stored[d]) <= 0.0
    case Some(b) =>
      && b in passed && Jaccard(signature, stored[b]) > 0.0
      && forall d :: d in passed ==> Jaccard(signature, stored[d]) <= Jaccard(signature, stored[b])
  }

  datatype Outcome = DocumentNotFound | Detected(result: DedupResult)

  /** The documents the stage judges. */
  function Judged(docs: map<string, Doc>, stored: map<string, Signature>, signature: Signature, titles: map<string, real>,
                  kbId: string, docId: string): set<string>
  {
    FindCandidates(docs, stored, signature, kbId) + titles.Keys - {docId}
  }

  /** The `minhash_bands` table; the rows of one document form its signature. */
  class SignatureStore {
    var stored: map<string, Signature>

    method BestCandidate(candidates: set<string>, signature: Signature, titleScores: map<string, real>, cfg: MinHashConfig)
      returns (best: Option<string>, passed: seq<string>)
      ensures var passing := PassedSet(stored, signature, titleScores, cfg, candidates);
        multiset(passed) == multiset(passing) && IsBest(stored, signature, passing, best)
    {
      hide Jaccard;
      best, passed := None, [];
      var bestJaccard := 0.0;
      var todo := candidates;
      ghost var seen: set<string> := {};
      ghost var passing: set<string> := {};
      while todo != {}
        invariant seen == candidates - todo && todo <= candidates
        invariant passing == PassedSet(stored, signature, titleScores, cfg, seen)
        invariant multiset(passed) == multiset(passing)
        invariant IsBest(stored, signature, passing, best)
        invariant bestJaccard == match best { case None => 0.0 case Some(b) => Jaccard(signature, stored[b]) }
        decreases todo
      {
        var cid :| cid in todo;
        if Passes(stored, signature, titleScores, cfg, cid) {
          assert multiset(passing + {cid}) == multiset(passing) + multiset{cid};
          passing := passing + {cid};
          passed := passed + [cid];
          var j := Jaccard(signature, stored[cid]);
          if j > bestJaccard {
            best, bestJaccard := Some(cid), j;
          }
        }
        seen, todo := seen + {cid}, todo - {cid};
      }
      assert seen == candidates;
    }

    /** The stage: candidates are looked up before the new signature is saved. */
    method RunMinhashDetection(docs: map<string, Doc>, docId: string, tokens: seq<string>, trgm: string -> Option<real>,
                               kbId: string, cfg: MinHashConfig, hash: HashFamily)
      returns (outcome: Outcome, signature: Signature)
      modifies this
      ensures IsSignature(hash, TokenSet(tokens), NUM_HASHES, signature)
      ensures outcome == DocumentNotFound <==> docId !in docs
      ensures stored == if docId in docs then old(stored)[docId := signature] else old(stored)
      ensures outcome.Detected? ==>
        var titles := TitleCandidates(docs, trgm, kbId);
        IsVerdict(outcome.result, old(stored), signature,
                  PassedSet(old(stored), signature, titles, cfg, Judged(docs, old(stored), signature, titles, kbId, docId)))
    {
      hide Jaccard, SomeBandAgrees, IsSignature;
      signature := ComputeMinhash(tokens, NUM_HASHES, hash);
      var body := FindCandidates(docs, stored, signature, kbId) - {docId};
      var titles := TitleCandidates(docs, trgm, kbId) - {docId};
      if docId !in docs {
        return DocumentNotFound, signature;
      }
      stored := stored[docId := signature];
      var candidates := body + titles.Keys;
      var best, passed := BestCandidate(candidates, signature, titles, cfg);
      ghost var all := TitleCandidates(docs, trgm, kbId);
      assert PassedSet(stored, signature, titles, cfg, candidates)
          == PassedSet(old(stored), signature, all, cfg, Judged(docs, old(stored), signature, all, kbId, docId));
      if best.Some? {
        outcome := Detected(DedupResult(Similar, Unknown, best, false, passed));
      } else {
        outcome := Detected(DedupResult(NoMatch, Unknown, None, true, []));
      }
    }
  }

  /** What the stage answers, given the candidates that pass: `similar` exactly when one of them
      has a positive Jaccard, naming one of greatest Jaccard. */
  ghost predicate IsVerdict(r: DedupResult, stored: map<string, Signature>, signature: Signature, passed: set<string>)
    requires passed <= stored.Keys
  {
    && IsBest(stored, signature, passed, r.duplicateDocId)
    && r.titleMatch == Unknown
    && if r.duplicateDocId.Some? then
         r.bodyMatch == Similar && !r.needsIndexing && multiset(r.candidateDocIds) == multiset(passed)
       else
         r.bodyMatch == NoMatch && r.needsIndexing && r.candidateDocIds == []
  }

  /** Title candidates are indexed documents of the KB. */
  ghost predicate TitlesOfKb(docs: map<string, Doc>, titles: map<string, real>, kbId: string) {
    forall d :: d in titles ==> d in docs && docs[d].kbId == kbId && docs[d].status.Indexed?
  }

  /** What a scan of the KB's other indexed documents by the stage's own rules would list. */
  ghost predicate ScanPasses(docs: map<string, Doc>, stored: map<string, Signature>, signature: Signature, titles: map<string, real>,
                             kbId: string, docId: string, cfg: MinHashConfig, d: string)
  {
    && InScan(docs, stored, kbId, docId, d)
    && Passes(stored, signature, titles, cfg, d) && Jaccard(signature, stored[d]) > 0.0
  }

  /** Both thresholds under which a document can pass without being looked up by title lie above what
      the bands can miss. */
  predicate ThresholdsCovered(cfg: MinHashConfig) {
    var limit := 1.0 - NUM_BANDS as real / NUM_HASHES as real;
    cfg.jaccardThreshold > limit && (cfg.titleFuzzyThreshold > 0.0 || cfg.titleOnlyFloor > limit)
  }

  lemma PassingIsJudged(docs: map<string, Doc>, stored: map<string, Signature>, signature: Signature, titles: map<string, real>,
                        kbId: string, docId: string, cfg: MinHashConfig, d: string)
    requires ThresholdsCovered(cfg) && InScan(docs, stored, kbId, docId, d) && Passes(stored, signature, titles, cfg, d)
    ensures d in Judged(docs, stored, signature, titles, kbId, docId)
  {
    if d !in titles {
      var j := Jaccard(signature, stored[d]);
      HighJaccardFewMismatches(signature, stored[d], j);
      FewMismatchesGiveCandidate(signature, stored[d], NUM_BANDS);
    }
  }

  /** What the stage is for, in terms of the rows and of what pg_trgm reports: another indexed document of the
      KB whose signature agrees often enough, or less often under a title alike enough. */
  ghost predicate Resembles(docs: map<string, Doc>, stored: map<string, Signature>, signature: Signature, trgm: string -> Option<real>,
                            kbId: string, docId: string, cfg: MinHashConfig, d: string)
  {
    && d != docId && d in docs && docs[d].kbId == kbId && docs[d].status.Indexed? && d in stored
    && var j, title := Jaccard(signature, stored[d]), if trgm(d).Some? then trgm(d).value else 0.0;
       j > 0.0 && (j >= cfg.jaccardThreshold || (title >= cfg.titleFuzzyThreshold && j >= cfg.titleOnlyFloor))
  }

  lemma ScanFindsResembling(docs: map<string, Doc>, stored: map<string, Signature>, signature: Signature, trgm: string -> Option<real>,
                            kbId: string, docId: string, cfg: MinHashConfig, d: string)
    ensures TitlesOfKb(docs, TitleCandidates(docs, trgm, kbId), kbId)
    ensures ScanPasses(docs, stored, signature, TitleCandidates(docs, trgm, kbId), kbId, docId, cfg, d)
       <==> Resembles(docs, stored, signature, trgm, kbId, docId, cfg, d)
  {
    hide Jaccard;
  }

  /** Hence, with those thresholds, the stage answers `similar` exactly when some document resembles the
      incoming one, and names one that agrees with it most. */
  lemma DetectionFindsResembling(docs: map<string, Doc>, stored: map<string, Signature>, signature: Signature, trgm: string -> Option<real>,
                                 kbId: string, docId: string, cfg: MinHashConfig, r: DedupResult)
    requires ThresholdsCovered(cfg)
    requires var titles := TitleCandidates(docs, trgm, kbId);
      IsVerdict(r, stored, signature, PassedSet(stored, signature, titles, cfg, Judged(docs, stored, signature, titles, kbId, docId)))
    ensures r.bodyMatch == Similar <==> exists d :: Resembles(docs, stored, signature, trgm, kbId, docId, cfg, d)
    ensures r.bodyMatch == Similar ==>
      r.duplicateDocId.Some? && Resembles(docs, stored, signature, trgm, kbId, docId, cfg, r.duplicateDocId.value)
      && forall d :: Resembles(docs, stored, signature, trgm, kbId, docId, cfg, d) ==>
           Jaccard(signature, stored[d]) <= Jaccard(signature, stored[r.duplicateDocId.value])
  {
    hide Jaccard, IsVerdict, ScanPasses, ThresholdsCovered, PassedSet, Judged, TitlesOfKb;
    var titles := TitleCandidates(docs, trgm, kbId);
    forall d
      ensures ScanPasses(docs, stored, signature, titles, kbId, docId, cfg, d) <==> Resembles(docs, stored, signature, trgm, kbId, docId, cfg, d)
    {
      ScanFindsResembling(docs, stored, signature, trgm, kbId, docId, cfg, d);
    }
    ScanFindsResembling(docs, stored, signature, trgm, kbId, docId, cfg, docId);
    DetectionIsScan(docs, stored, signature, titles, kbId, docId, cfg, r);
  }

  /** With those thresholds and whatever title candidates, the stage answers `similar` exactly when a
      scan of the KB by the same rules finds a document, and names one of greatest Jaccard over the scan. */
  lemma DetectionIsScan(docs: map<string, Doc>, stored: map<string, Signature>, signature: Signature, titles: map<string, real>,
                        kbId: string, docId: string, cfg: MinHashConfig, r: DedupResult)
    requires ThresholdsCovered(cfg) && TitlesOfKb(docs, titles, kbId)
    requires IsVerdict(r, stored, signature,
                       PassedSet(stored, signature, titles, cfg, Judged(docs, stored, signature, titles, kbId, docId)))
    ensures r.bodyMatch == Similar <==> exists d :: ScanPasses(docs, stored, signature, titles, kbId, docId, cfg, d)
    ensures r.bodyMatch == Similar ==>
      r.duplicateDocId.Some? && ScanPasses(docs, stored, signature, titles, kbId, docId, cfg, r.duplicateDocId.value)
      && forall d :: ScanPasses(docs, stored, signature, titles, kbId, docId, cfg, d) ==>
           Jaccard(signature, stored[d]) <= Jaccard(signature, stored[r.duplicateDocId.value])
  {
    hide Jaccard, FindCandidates, ThresholdsCovered;
    var judged := Judged(docs, stored, signature, titles, kbId, docId);
    var passed := PassedSet(stored, signature, titles, cfg, judged);
    forall d | ScanPasses(docs, stored, signature, titles, kbId, docId, cfg, d)
      ensures d in passed
    {
      PassingIsJudged(docs, stored, signature, titles, kbId, docId, cfg, d);
    }
    forall d | d in passed
      ensures InScan(docs, stored, kbId, docId, d)
    {
      JudgedIsInScan(docs, stored, signature, titles, kbId, docId, d);
    }
    if r.bodyMatch == Similar {
      assert ScanPasses(docs, stored, signature, titles, kbId, docId, cfg, r.duplicateDocId.value);
    }
  }

  lemma JudgedIsInScan(docs: map<string, Doc>, stored: map<string, Signature>, signature: Signature, titles: map<string, real>,
                       kbId: string, docId: string, d: string)
    requires TitlesOfKb(docs, titles, kbId) && d in Judged(docs, stored, signature, titles, kbId, docId) && d in stored
    ensures InScan(docs, stored, kbId, docId, d)
  {
  }

  /** The stage misses nothing a scan would list, whatever the tables hold. */
  ghost predicate MissesNothing(cfg: MinHashConfig) {
    forall docs, stored, signature: Signature, titles, kbId, docId, d ::
      TitlesOfKb(docs, titles, kbId) && ScanPasses(docs, stored, signature, titles, kbId, docId, cfg, d) ==>
      d in Judged(docs, stored, signature, titles, kbId, docId)
  }

  /** It misses nothing exactly with those thresholds. */
  lemma MissesNothingIff(cfg: MinHashConfig)
    ensures MissesNothing(cfg) <==> ThresholdsCovered(cfg)
  {
    hide Jaccard, Judged, TitlesOfKb;
    if ThresholdsCovered(cfg) {
      forall docs, stored, signature: Signature, titles, kbId, docId, d |
        TitlesOfKb(docs, titles, kbId) && ScanPasses(docs, stored, signature, titles, kbId, docId, cfg, d)
        ensures d in Judged(docs, stored, signature, titles, kbId, docId)
      {
        PassingIsJudged(docs, stored, signature, titles, kbId, docId, cfg, d);
      }
    } else {
      CombIsMissed(cfg);
    }
  }

  /** A KB with one indexed document whose signature is all zero, against the comb. */
  lemma CombIsMissed(cfg: MinHashConfig)
    requires !ThresholdsCovered(cfg)
    ensures !MissesNothing(cfg)
  {
    var docs: map<string, Doc> := map["other" := Doc("kb", Indexed, None, None, None, None, None, "", "")];
    var stored: map<string, Signature> := map["other" := Flat()];
    CombIsApart();
    assert !SomeBandAgrees(Comb(), Flat(), NUM_BANDS, ROWS_PER_BAND);
    assert "other" !in FindCandidates(docs, stored, Comb(), "kb");
    assert "other" !in Judged(docs, stored, Comb(), map[], "kb", "new");
    assert TitlesOfKb(docs, map[], "kb");
    assert ScanPasses(docs, stored, Comb(), map[], "kb", "new", cfg, "other");
  }

  ghost predicate InScan(docs: map<string, Doc>, stored: map<string, Signature>, kbId: string, docId: string, d: string) {
    d in docs && d in stored && d != docId && docs[d].kbId == kbId && docs[d].status.Indexed?
  }

  lemma HighJaccardFewMismatches(s: Signature, t: Signature, threshold: real)
    requires threshold > 1.0 - NUM_BANDS as real / NUM_HASHES as real && Jaccard(s, t) >= threshold
    ensures |s| - Matches(s, t, 0, |s|) < NUM_BANDS
  {
  }

  /** A signature that differs from the all-zero one in the first position of every band only. */
  function Comb(): Signature {
    seq(NUM_HASHES, p => if p % ROWS_PER_BAND == 0 then 1 else 0)
  }

  function Flat(): Signature {
    seq(NUM_HASHES, _ => 0)
  }

  lemma {:induction false} CombAgreesAfter(lo: nat, hi: nat)
    requires lo < hi <= NUM_HASHES && lo % ROWS_PER_BAND == 0 && hi <= lo + ROWS_PER_BAND
    ensures Matches(Comb(), Flat(), lo, hi) == hi - lo - 1
    decreases hi
  {
    if hi == lo + 1 {
      assert Matches(Comb(), Flat(), lo, lo) == 0;
    } else {
      CombAgreesAfter(lo, hi - 1);
    }
  }

  lemma {:induction false} CombMatches(k: nat)
    requires k <= NUM_BANDS
    ensures Matches(Comb(), Flat(), 0, k * ROWS_PER_BAND) == 7 * k
  {
    if k > 0 {
      CombMatches(k - 1);
      CombAgreesAfter((k - 1) * ROWS_PER_BAND, k * ROWS_PER_BAND);
      MatchesSplit(Comb(), Flat(), 0, (k - 1) * ROWS_PER_BAND, k * ROWS_PER_BAND);
    }
  }

  /** The index finds every pair whose estimated Jaccard reaches `threshold` exactly when the
      threshold is above 1 - 16/128. */
  lemma BandingCompleteIff(threshold: real)
    ensures (forall s: Signature, t: Signature :: Jaccard(s, t) >= threshold ==> SomeBandAgrees(s, t, NUM_BANDS, ROWS_PER_BAND))
       <==> threshold > 1.0 - NUM_BANDS as real / NUM_HASHES as real
  {
    if threshold > 1.0 - NUM_BANDS as real / NUM_HASHES as real {
      forall s: Signature, t: Signature | Jaccard(s, t) >= threshold
        ensures SomeBandAgrees(s, t, NUM_BANDS, ROWS_PER_BAND)
      {
        HighJaccardFewMismatches(s, t, threshold);
        FewMismatchesGiveCandidate(s, t, NUM_BANDS);
      }
    } else {
      CombIsApart();
    }
  }

  /** The two signatures agree on 7 of 8 positions, but on no whole band. */
  lemma CombIsApart()
    ensures Jaccard(Comb(), Flat()) == 1.0 - NUM_BANDS as real / NUM_HASHES as real
    ensures !SomeBandAgrees(Comb(), Flat(), NUM_BANDS, ROWS_PER_BAND)
  {
    CombMatches(NUM_BANDS);
    forall b: nat | b < NUM_BANDS
      ensures !BandAgrees(Comb(), Flat(), b, ROWS_PER_BAND)
    {
      CombAgreesAfter(b * ROWS_PER_BAND, (b + 1) * ROWS_PER_BAND);
    }
  }
}
