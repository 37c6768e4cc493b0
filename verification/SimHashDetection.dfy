/** Near-duplicate detection over the band index: `run_simhash_detection` of
    `pipeline/steps/dedup/simhash.py` with the band and fingerprint queries of `infra/postgres.py`. */
module SimHashDetection {
  import opened Bits
  import opened DedupTypes
  import opened SimHash
  import opened StableSort
  import opened Wrappers

  // ---------------------------------------------------------------- sorting candidates

  function ByDistance(): ((string, nat)) -> real {
    (x: (string, nat)) => x.1 as real
  }

  function SortByDistance(xs: seq<(string, nat)>): seq<(string, nat)> {
    SortBy(xs, ByDistance())
  }

  ghost predicate Sorted(xs: seq<(string, nat)>) {
    forall i, j :: 0 <= i < j < |xs| ==> xs[i].1 <= xs[j].1
  }

  function Ids(xs: seq<(string, nat)>): seq<string> {
    if xs == [] then [] else Ids(xs[..|xs| - 1]) + [xs[|xs| - 1].0]
  }

  lemma {:induction false} IdsLength(xs: seq<(string, nat)>)
    ensures |Ids(xs)| == |xs|
    ensures forall i :: 0 <= i < |xs| ==> Ids(xs)[i] == xs[i].0
  {
    if xs != [] {
      IdsLength(xs[..|xs| - 1]);
    }
  }

  lemma IdsOfAppend(xs: seq<(string, nat)>, x: (string, nat))
    ensures Ids(xs + [x]) == Ids(xs) + [x.0]
  {
    assert (xs + [x])[..|xs|] == xs;
  }

  lemma {:induction false} InsertPermutesIds(xs: seq<(string, nat)>, x: (string, nat))
    ensures multiset(Ids(InsertBy(xs, x, ByDistance()))) == multiset(Ids(xs)) + multiset{x.0}
  {
    hide Ids;
    if xs == [] || xs[|xs| - 1].1 <= x.1 {
      IdsOfAppend(xs, x);
    } else {
      var front, last := xs[..|xs| - 1], xs[|xs| - 1];
      InsertPermutesIds(front, x);
      IdsOfAppend(InsertBy(front, x, ByDistance()), last);
      IdsOfAppend(front, last);
      assert xs == front + [last];
    }
  }

  lemma {:induction false} SortPermutesIds(xs: seq<(string, nat)>)
    ensures multiset(Ids(SortByDistance(xs))) == multiset(Ids(xs))
  {
    if xs != [] {
      var front, last := xs[..|xs| - 1], xs[|xs| - 1];
      SortPermutesIds(front);
      InsertPermutesIds(SortByDistance(front), last);
      assert Ids(xs) == Ids(front) + [last.0];
    }
  }

  // ---------------------------------------------------------------- detection

  datatype SimHashConfig = SimHashConfig(
    ngram: nat, bits: nat, numBands: nat, identicalThreshold: nat, similarThreshold: nat)
  {
    /** The largest distance at which detection can answer `identical_level`. */
    function IdenticalReach(): nat {
      if identicalThreshold <= similarThreshold then identicalThreshold else similarThreshold
    }
  }

  datatype BandRow = BandRow(kbId: string, value: nat)

  type BandTable = map<(string, nat), BandRow>

  predicate RowMatches(key: (string, nat), row: BandRow, bands: seq<(nat, string)>) {
    exists i :: 0 <= i < |bands| && bands[i].0 == key.1 && ParseHex(bands[i].1) == row.value
  }

  /** Documents of the KB that are indexed and own a band row equal to one of `bands`. */
  function FindCandidates(docs: map<string, Doc>, table: BandTable, bands: seq<(nat, string)>, kbId: string)
    : set<string>
  {
    set key | key in table && key.0 in docs && table[key].kbId == kbId && docs[key.0].status.Indexed?
              && RowMatches(key, table[key], bands) :: key.0
  }

  predicate HasFingerprint(docs: map<string, Doc>, d: string) {
    d in docs && docs[d].contentSimhash.Some?
  }

  /** Distance from `fingerprint` to the one stored for `d`. */
  function Distance(docs: map<string, Doc>, fingerprint: nat, d: string): nat {
    if HasFingerprint(docs, d) then HammingDistance(fingerprint, I64ToU64(docs[d].contentSimhash.value)) else 0
  }

  /** The candidates kept for the verdict: those within the similar threshold. */
  function CloseDocs(docs: map<string, Doc>, candidates: set<string>, fingerprint: nat, threshold: nat): set<string> {
    set d | d in candidates && HasFingerprint(docs, d) && Distance(docs, fingerprint, d) <= threshold
  }

  /** The close documents the index yields for a fingerprint. */
  function IndexedClose(docs: map<string, Doc>, table: BandTable, kbId: string, docId: string,
                        fingerprint: nat, cfg: SimHashConfig): set<string>
    requires cfg.numBands > 0
  {
    CloseDocs(docs, FindCandidates(docs, table, BandList(fingerprint, cfg.numBands, cfg.bits), kbId) - {docId},
              fingerprint, cfg.similarThreshold)
  }

  /** What the stage answers, given the close documents: nothing close means no match; otherwise
      the nearest one is named, and the identical threshold and its title decide. */
  ghost predicate IsVerdict(r: DedupResult, docs: map<string, Doc>, close: set<string>, fingerprint: nat,
                            title: string, identicalThreshold: nat)
  {
    && multiset(r.candidateDocIds) == multiset(close)
    && (forall i, j :: 0 <= i < j < |r.candidateDocIds| ==>
          Distance(docs, fingerprint, r.candidateDocIds[i]) <= Distance(docs, fingerprint, r.candidateDocIds[j]))
    && if r.candidateDocIds == [] then
         r.bodyMatch == NoMatch && r.titleMatch == Unknown && r.needsIndexing && r.duplicateDocId == None
       else
         var best := r.candidateDocIds[0];
         && r.duplicateDocId == Some(best) && !r.needsIndexing && best in docs
         && if Distance(docs, fingerprint, best) <= identicalThreshold then
              r.bodyMatch == IdenticalLevel
              && r.titleMatch == (if docs[best].titleHash == Some(title) then Same else Changed)
            else
              r.bodyMatch == Similar && r.titleMatch == Unknown
  }

  // ---------------------------------------------------------------- the index against the scan

  /** The other indexed documents of the KB that carry a fingerprint: what a scan would visit. */
  function ScanSet(docs: map<string, Doc>, kbId: string, docId: string): set<string> {
    set d | d in docs && d != docId && docs[d].status.Indexed? && docs[d].kbId == kbId && HasFingerprint(docs, d)
  }

  /** The stored bands of `d` are those of its stored fingerprint, under its KB. */
  ghost predicate Shows(docs: map<string, Doc>, table: BandTable, d: string, numBands: nat, bits: nat)
    requires numBands > 0
  {
    HasFingerprint(docs, d) && forall i: nat :: i < numBands ==>
      (d, i) in table
      && table[(d, i)] == BandRow(docs[d].kbId, BandValue(I64ToU64(docs[d].contentSimhash.value), i, bits / numBands))
  }

  /** A band row carries the KB of its document. */
  ghost predicate KbsMatch(docs: map<string, Doc>, table: BandTable) {
    forall key :: key in table && key.0 in docs ==> table[key].kbId == docs[key.0].kbId
  }

  /** The index is in step with what a scan would visit. */
  ghost predicate BandsMatch(docs: map<string, Doc>, table: BandTable, kbId: string, docId: string,
                             numBands: nat, bits: nat)
    requires numBands > 0
  {
    KbsMatch(docs, table) && forall d :: d in ScanSet(docs, kbId, docId) ==> Shows(docs, table, d, numBands, bits)
  }

  /** A scanned document that shows its bands and is closer than their number is always among the candidates. */
  lemma NearIsCandidate(docs: map<string, Doc>, table: BandTable, kbId: string,
                        docId: string, fingerprint: nat, numBands: nat, bits: nat, d: string)
    requires numBands > 0 && Shows(docs, table, d, numBands, bits)
    requires d in ScanSet(docs, kbId, docId) && Distance(docs, fingerprint, d) < numBands
    ensures d in FindCandidates(docs, table, BandList(fingerprint, numBands, bits), kbId) - {docId}
  {
    var bands := BandList(fingerprint, numBands, bits);
    BandListParses(fingerprint, numBands, bits);
    var stored := I64ToU64(docs[d].contentSimhash.value);
    if !SharesBand(fingerprint, stored, numBands, bits / numBands) {
      DistinctBandsCost(fingerprint, stored, numBands, bits / numBands);
    }
    var i: nat :| i < numBands && BandValue(fingerprint, i, bits / numBands) == BandValue(stored, i, bits / numBands);
    assert bands[i].0 == (d, i).1 && ParseHex(bands[i].1) == table[(d, i)].value;
    assert RowMatches((d, i), table[(d, i)], bands);
  }

  /** Everything the index returns would be visited by the scan. */
  lemma CandidateIsScanned(docs: map<string, Doc>, table: BandTable, bands: seq<(nat, string)>, kbId: string,
                           docId: string, d: string)
    requires KbsMatch(docs, table)
    requires d in FindCandidates(docs, table, bands, kbId) - {docId} && HasFingerprint(docs, d)
    ensures d in ScanSet(docs, kbId, docId)
  {
  }

  /** With the identical threshold reachable below the number of bands, an answer of `identical_level`
      always names a document a scan would find within it; every such document that shows its bands brings
      that answer about, and is no nearer than the one named. */
  lemma DetectionFindsShown(docs: map<string, Doc>, table: BandTable, kbId: string,
                            docId: string, fingerprint: nat, cfg: SimHashConfig, title: string, r: DedupResult)
    requires cfg.numBands > 0 && cfg.IdenticalReach() < cfg.numBands && KbsMatch(docs, table)
    requires IsVerdict(r, docs, IndexedClose(docs, table, kbId, docId, fingerprint, cfg), fingerprint, title, cfg.identicalThreshold)
    ensures r.bodyMatch == IdenticalLevel ==>
      && r.duplicateDocId.Some? && r.duplicateDocId.value in ScanSet(docs, kbId, docId)
      && Distance(docs, fingerprint, r.duplicateDocId.value) <= cfg.IdenticalReach()
    ensures forall d :: d in ScanSet(docs, kbId, docId) && Shows(docs, table, d, cfg.numBands, cfg.bits)
                        && Distance(docs, fingerprint, d) <= cfg.IdenticalReach() ==>
      r.bodyMatch == IdenticalLevel && r.duplicateDocId.Some?
      && Distance(docs, fingerprint, r.duplicateDocId.value) <= Distance(docs, fingerprint, d)
  {
    hide Distance, FindCandidates, Shows, KbsMatch;
    var close := IndexedClose(docs, table, kbId, docId, fingerprint, cfg);
    forall d | d in ScanSet(docs, kbId, docId) && Shows(docs, table, d, cfg.numBands, cfg.bits)
               && Distance(docs, fingerprint, d) <= cfg.IdenticalReach()
      ensures d in multiset(r.candidateDocIds)
    {
      NearIsCandidate(docs, table, kbId, docId, fingerprint, cfg.numBands, cfg.bits, d);
      assert d in close;
    }
    if r.bodyMatch == IdenticalLevel {
      var best := r.candidateDocIds[0];
      assert best in multiset(r.candidateDocIds);
      assert best in close;
      CandidateIsScanned(docs, table, BandList(fingerprint, cfg.numBands, cfg.bits), kbId, docId, best);
    }
  }

  /** Hence, while the index is in step, it answers `identical_level` exactly when a scan of the KB finds
      a document within the threshold, and then it names one at least distance over the whole scan. */
  lemma DetectionIsScan(docs: map<string, Doc>, table: BandTable, kbId: string,
                        docId: string, fingerprint: nat, cfg: SimHashConfig, title: string, r: DedupResult)
    requires cfg.numBands > 0 && cfg.IdenticalReach() < cfg.numBands
    requires BandsMatch(docs, table, kbId, docId, cfg.numBands, cfg.bits)
    requires IsVerdict(r, docs, IndexedClose(docs, table, kbId, docId, fingerprint, cfg), fingerprint, title, cfg.identicalThreshold)
    ensures r.bodyMatch == IdenticalLevel <==>
      exists d :: d in ScanSet(docs, kbId, docId) && Distance(docs, fingerprint, d) <= cfg.IdenticalReach()
    ensures r.bodyMatch == IdenticalLevel ==>
      && r.duplicateDocId.Some? && r.duplicateDocId.value in ScanSet(docs, kbId, docId)
      && forall d :: d in ScanSet(docs, kbId, docId) ==>
           Distance(docs, fingerprint, r.duplicateDocId.value) <= Distance(docs, fingerprint, d)
  {
    hide Distance, FindCandidates, Shows, KbsMatch, IsVerdict;
    DetectionFindsShown(docs, table, kbId, docId, fingerprint, cfg, title, r);
  }

  /** A KB holding one indexed document, `other`, with fingerprint 0 and matching bands. */
  function LoneDoc(other: string, kbId: string): map<string, Doc> {
    map[other := Doc(kbId, Indexed, Some(0), None, None, None, None, "", "")]
  }

  function LoneBands(other: string, kbId: string, numBands: nat, w: nat): BandTable {
    map i: nat | i < numBands :: (other, i) := BandRow(kbId, BandValue(0, i, w))
  }

  /** Past that threshold the index misses: the lone document's bands match its fingerprint and
      the scan would call it identical, yet detection finds nothing close. */
  lemma DetectionMissesBeyondBands(cfg: SimHashConfig, kbId: string, docId: string, other: string)
    requires 0 < cfg.numBands <= cfg.bits && cfg.numBands <= cfg.IdenticalReach() && other != docId
    ensures var w := cfg.bits / cfg.numBands;
      var docs, table, fp := LoneDoc(other, kbId), LoneBands(other, kbId, cfg.numBands, w), Comb(cfg.numBands, w);
      && fp < Pow2(cfg.bits)
      && BandsMatch(docs, table, kbId, docId, cfg.numBands, cfg.bits)
      && other in ScanSet(docs, kbId, docId) && Distance(docs, fp, other) <= cfg.IdenticalReach()
      && IndexedClose(docs, table, kbId, docId, fp, cfg) == {}
  {
    var w := cfg.bits / cfg.numBands;
    var fp, table := Comb(cfg.numBands, w), LoneBands(other, kbId, cfg.numBands, w);
    CombEvadesBands(cfg.numBands, w);
    CombBelow(cfg.numBands, w);
    Pow2Monotone(cfg.numBands * w, cfg.bits);
    var bands := BandList(fp, cfg.numBands, cfg.bits);
    BandListParses(fp, cfg.numBands, cfg.bits);
    forall key | key in table
      ensures !RowMatches(key, table[key], bands)
    {
      assert BandValue(fp, key.1, w) != BandValue(0, key.1, w);
    }
  }

  // ---------------------------------------------------------------- the stage itself

  lemma CloseOfOneMore(docs: map<string, Doc>, seen: set<string>, cid: string, fingerprint: nat, threshold: nat)
    requires cid !in seen
    ensures multiset(CloseDocs(docs, seen + {cid}, fingerprint, threshold))
         == multiset(CloseDocs(docs, seen, fingerprint, threshold))
          + (if HasFingerprint(docs, cid) && Distance(docs, fingerprint, cid) <= threshold then multiset{cid} else multiset{})
  {
    var before := CloseDocs(docs, seen, fingerprint, threshold);
    if HasFingerprint(docs, cid) && Distance(docs, fingerprint, cid) <= threshold {
      assert CloseDocs(docs, seen + {cid}, fingerprint, threshold) == before + {cid};
    } else {
      assert CloseDocs(docs, seen + {cid}, fingerprint, threshold) == before;
    }
  }

  lemma SortedListsClose(docs: map<string, Doc>, found: seq<(string, nat)>, fingerprint: nat)
    requires forall x :: x in found ==> x.1 == Distance(docs, fingerprint, x.0)
    ensures forall x :: x in SortByDistance(found) ==> x.1 == Distance(docs, fingerprint, x.0)
    ensures Sorted(SortByDistance(found))
    ensures multiset(Ids(SortByDistance(found))) == multiset(Ids(found))
  {
    hide Distance, Ids;
    SortOrders(found, ByDistance());
    SortMembers(found, ByDistance());
    SortPermutesIds(found);
    var sorted := SortByDistance(found);
    forall i, j | 0 <= i < j < |sorted|
      ensures sorted[i].1 <= sorted[j].1
    {
      assert ByDistance()(sorted[i]) <= ByDistance()(sorted[j]);
    }
  }

  /** The answer built from the close documents, nearest first. */
  function Answer(docs: map<string, Doc>, close: seq<(string, nat)>, title: string, identicalThreshold: nat): DedupResult {
    if close == [] then DedupResult(NoMatch, Unknown, None, true, [])
    else
      var (best, dist) := close[0];
      if dist <= identicalThreshold then
        var stored := if best in docs then docs[best].titleHash else None;
        DedupResult(IdenticalLevel, if stored == Some(title) then Same else Changed, Some(best), false, Ids(close))
      else
        DedupResult(Similar, Unknown, Some(best), false, Ids(close))
  }

  lemma AscendingIds(docs: map<string, Doc>, close: seq<(string, nat)>, fingerprint: nat)
    requires Sorted(close) && forall x :: x in close ==> x.1 == Distance(docs, fingerprint, x.0)
    ensures |Ids(close)| == |close|
    ensures forall i, j :: 0 <= i < j < |close| ==>
      Distance(docs, fingerprint, Ids(close)[i]) <= Distance(docs, fingerprint, Ids(close)[j])
  {
    hide Distance, Ids;
    IdsLength(close);
    forall i, j | 0 <= i < j < |close|
      ensures Distance(docs, fingerprint, Ids(close)[i]) <= Distance(docs, fingerprint, Ids(close)[j])
    {
      assert close[i] in close && close[j] in close;
    }
  }

  lemma AnswerIsVerdict(docs: map<string, Doc>, close: seq<(string, nat)>, closeSet: set<string>, fingerprint: nat,
                        title: string, identicalThreshold: nat)
    requires multiset(Ids(close)) == multiset(closeSet) && closeSet <= docs.Keys
    requires Sorted(close) && forall x :: x in close ==> x.1 == Distance(docs, fingerprint, x.0)
    ensures IsVerdict(Answer(docs, close, title, identicalThreshold), docs, closeSet, fingerprint, title, identicalThreshold)
    ensures close == [] <==> closeSet == {}
    ensures Answer(docs, close, title, identicalThreshold).bodyMatch == NoMatch <==> close == []
  {
    hide Distance, Ids, Sorted;
    IdsLength(close);
    AscendingIds(docs, close, fingerprint);
    if close == [] {
      assert forall d :: d in closeSet ==> multiset(closeSet)[d] == 1;
    } else {
      assert Ids(close)[0] in multiset(closeSet);
    }
  }

  /** The table after the first `n` bands of `docId` are upserted; an existing row keeps its KB. */
  function WriteBands(table: BandTable, docId: string, kbId: string, bands: seq<(nat, string)>, n: nat): BandTable
    requires n <= |bands|
  {
    if n == 0 then table
    else
      var done := WriteBands(table, docId, kbId, bands, n - 1);
      var key := (docId, bands[n - 1].0);
      done[key := BandRow(if key in done then done[key].kbId else kbId, ParseHex(bands[n - 1].1))]
  }

  /** Saving leaves exactly the new bands under the document's keys 0..n-1 and every other row alone. */
  lemma {:induction false} WriteBandsRows(table: BandTable, docId: string, kbId: string, bands: seq<(nat, string)>, n: nat)
    requires n <= |bands| && forall i :: 0 <= i < |bands| ==> bands[i].0 == i
    ensures forall i: nat :: i < n ==>
      (docId, i) in WriteBands(table, docId, kbId, bands, n)
      && WriteBands(table, docId, kbId, bands, n)[(docId, i)].value == ParseHex(bands[i].1)
    ensures forall key: (string, nat) :: key.0 != docId || key.1 >= n ==>
      (key in table <==> key in WriteBands(table, docId, kbId, bands, n))
      && (key in table ==> table[key] == WriteBands(table, docId, kbId, bands, n)[key])
  {
    if n > 0 {
      WriteBandsRows(table, docId, kbId, bands, n - 1);
    }
  }

  /** The INTEGER column holds every band value. */
  predicate BandsFit(fingerprint: nat, cfg: SimHashConfig)
    requires cfg.numBands > 0
  {
    forall i :: 0 <= i < cfg.numBands ==> BandValue(fingerprint, i, cfg.bits / cfg.numBands) < 0x8000_0000
  }

  predicate ValuesFit(bands: seq<(nat, string)>) {
    forall i :: 0 <= i < |bands| ==> ParseHex(bands[i].1) < 0x8000_0000
  }

  lemma ValuesFitIff(fingerprint: nat, cfg: SimHashConfig)
    requires cfg.numBands > 0
    ensures ValuesFit(BandList(fingerprint, cfg.numBands, cfg.bits)) <==> BandsFit(fingerprint, cfg)
  {
    hide ParseHex, BandValue, BandList;
    BandListParses(fingerprint, cfg.numBands, cfg.bits);
  }

  /** The BIGINT column holds the fingerprint. */
  predicate FingerprintFits(fingerprint: nat) {
    -TWO_63 <= U64ToI64(fingerprint) < TWO_63
  }

  /** The band table after the stage: the bands of the fingerprint are written only when nothing close
      was found. */
  function BandsAfter(docs: map<string, Doc>, table: BandTable, kbId: string, docId: string, fingerprint: nat, cfg: SimHashConfig): BandTable
    requires cfg.numBands > 0
  {
    if IndexedClose(docs, table, kbId, docId, fingerprint, cfg) == {} && docId in docs && BandsFit(fingerprint, cfg) then
      WriteBands(table, docId, docs[docId].kbId, BandList(fingerprint, cfg.numBands, cfg.bits), cfg.numBands)
    else table
  }

  /** The row after the stage has recorded what it computed. */
  function Recorded(docs: map<string, Doc>, docId: string, fingerprint: nat, titleHash: string): map<string, Doc> {
    if docId in docs && FingerprintFits(fingerprint) then
      docs[docId := docs[docId].(titleHash := Some(titleHash), contentSimhash := Some(U64ToI64(fingerprint)))]
    else docs
  }

  /** How the stage ends: a band count of 0, a missing document and a value its column cannot hold raise. */
  datatype Outcome = NoBands | DocumentNotFound | OutOfRange | Detected(result: DedupResult)

  /** How the stage ends on a fingerprint, and what it leaves in the tables. */
  ghost predicate IsStage(docs: map<string, Doc>, table: BandTable, docs': map<string, Doc>, table': BandTable, outcome: Outcome,
                          docId: string, kbId: string, fingerprint: nat, titleHash: string, cfg: SimHashConfig)
  {
    if cfg.numBands == 0 then outcome == NoBands && docs' == docs && table' == table
    else
      var close := IndexedClose(docs, table, kbId, docId, fingerprint, cfg);
      && table' == BandsAfter(docs, table, kbId, docId, fingerprint, cfg)
      && if close == {} && docId !in docs then outcome == DocumentNotFound && docs' == docs
         else if (close == {} && !BandsFit(fingerprint, cfg)) || !FingerprintFits(fingerprint) then outcome == OutOfRange && docs' == docs
         else
           && docs' == Recorded(docs, docId, fingerprint, titleHash)
           && outcome.Detected? && IsVerdict(outcome.result, docs, close, fingerprint, titleHash, cfg.identicalThreshold)
  }

  datatype SaveOutcome = Saved | UnknownDocument | BandOutOfRange

  /** The `documents` and `simhash_bands` tables. */
  class FingerprintStore {
    var docs: map<string, Doc>
    var table: BandTable

    /** Upserts one row per band, all or none. */
    method SaveBands(docId: string, bands: seq<(nat, string)>) returns (outcome: SaveOutcome)
      modifies this`table
      ensures outcome == (if docId !in docs then UnknownDocument else if ValuesFit(bands) then Saved else BandOutOfRange)
      ensures table ==
        if outcome == Saved then WriteBands(old(table), docId, docs[docId].kbId, bands, |bands|) else old(table)
    {
      hide ParseHex;
      if docId !in docs {
        return UnknownDocument;
      }
      var kbId := docs[docId].kbId;
      var pending := table;
      for n := 0 to |bands|
        invariant pending == WriteBands(old(table), docId, kbId, bands, n) && table == old(table)
        invariant forall i :: 0 <= i < n ==> ParseHex(bands[i].1) < 0x8000_0000
      {
        if ParseHex(bands[n].1) >= 0x8000_0000 {
          return BandOutOfRange;
        }
        var key := (docId, bands[n].0);
        pending := pending[key := BandRow(if key in pending then pending[key].kbId else kbId, ParseHex(bands[n].1))];
      }
      table := pending;
      outcome := Saved;
    }

    /** The candidates within the similar threshold, nearest first. */
    method CollectClose(candidates: set<string>, fingerprint: nat, threshold: nat) returns (close: seq<(string, nat)>)
      ensures multiset(Ids(close)) == multiset(CloseDocs(docs, candidates, fingerprint, threshold))
      ensures forall x :: x in close ==> x.1 == Distance(docs, fingerprint, x.0)
      ensures Sorted(close)
    {
      var found: seq<(string, nat)> := [];
      var todo := candidates;
      ghost var seen: set<string> := {};
      assert CloseDocs(docs, seen, fingerprint, threshold) == {};
      while todo != {}
        invariant seen == candidates - todo && todo <= candidates
        invariant multiset(Ids(found)) == multiset(CloseDocs(docs, seen, fingerprint, threshold))
        invariant forall x :: x in found ==> x.1 == Distance(docs, fingerprint, x.0)
        decreases todo
      {
        var cid :| cid in todo;
        CloseOfOneMore(docs, seen, cid, fingerprint, threshold);
        if HasFingerprint(docs, cid) {
          var dist := Distance(docs, fingerprint, cid);
          if dist <= threshold {
            IdsOfAppend(found, (cid, dist));
            found := found + [(cid, dist)];
          }
        }
        seen, todo := seen + {cid}, todo - {cid};
      }
      assert seen == candidates;
      close := SortByDistance(found);
      SortedListsClose(docs, found, fingerprint);
    }

    /** The whole stage: look up, compare, answer, then record the fingerprint; bands are written
        only when nothing close was found. */
    method RunSimhashDetection(docId: string, title: string, body: string, kbId: string, cfg: SimHashConfig,
                               md5: string -> nat, titleDigest: string -> string)
      returns (outcome: Outcome)
      modifies this
      ensures IsStage(old(docs), old(table), docs, table, outcome, docId, kbId,
                      Fingerprint(Shingles(body, cfg.ngram), md5, cfg.bits, cfg.bits), titleDigest(title), cfg)
    {
      hide Distance, FindCandidates, IsVerdict, Answer, WriteBands, Fingerprint, Shingles, Ids, Sorted, BandsFit, ValuesFit;
      var titleHash := titleDigest(title);
      var simhash := ComputeSimhash(body, cfg.ngram, cfg.bits, md5);
      if cfg.numBands == 0 {
        return NoBands;
      }
      var bands := GetBands(simhash, cfg.numBands, cfg.bits);
      var candidates := FindCandidates(docs, table, bands, kbId) - {docId};
      var close := CollectClose(candidates, simhash, cfg.similarThreshold);
      AnswerIsVerdict(docs, close, CloseDocs(docs, candidates, simhash, cfg.similarThreshold), simhash, titleHash,
                      cfg.identicalThreshold);
      var result := Answer(docs, close, titleHash, cfg.identicalThreshold);
      if result.bodyMatch == NoMatch {
        ValuesFitIff(simhash, cfg);
        var saved := SaveBands(docId, bands);
        if saved == UnknownDocument {
          return DocumentNotFound;
        }
        if saved == BandOutOfRange {
          return OutOfRange;
        }
      }
      if !FingerprintFits(simhash) {
        return OutOfRange;
      }
      if docId in docs {
        docs := docs[docId := docs[docId].(titleHash := Some(titleHash), contentSimhash := Some(U64ToI64(simhash)))];
      }
      outcome := Detected(result);
    }
  }

  /** The write made when nothing is close supplies those bands. */
  lemma SavedBandsAreOwned(docs: map<string, Doc>, table: BandTable, docId: string, fp: nat, numBands: nat, bits: nat)
    requires numBands > 0 && docId in docs
    ensures forall i: nat :: i < numBands ==>
      (docId, i) in WriteBands(table, docId, docs[docId].kbId, BandList(fp, numBands, bits), numBands)
      && WriteBands(table, docId, docs[docId].kbId, BandList(fp, numBands, bits), numBands)[(docId, i)].value
         == BandValue(fp, i, bits / numBands)
  {
    BandListParses(fp, numBands, bits);
    WriteBandsRows(table, docId, docs[docId].kbId, BandList(fp, numBands, bits), numBands);
  }

  /** Fingerprints of at most 64 bits always fit their column, and bands of at most 31 bits theirs. */
  lemma NarrowFingerprintsFit(body: string, cfg: SimHashConfig, md5: string -> nat)
    requires cfg.bits <= 64
    ensures var fp := Fingerprint(Shingles(body, cfg.ngram), md5, cfg.bits, cfg.bits);
      FingerprintFits(fp) && I64ToU64(U64ToI64(fp)) == fp
    ensures var fp := Fingerprint(Shingles(body, cfg.ngram), md5, cfg.bits, cfg.bits);
      cfg.numBands > 0 && cfg.bits / cfg.numBands <= 31 ==> BandsFit(fp, cfg)
  {
    hide Fingerprint, Pow2, BandValue;
    var fp := Fingerprint(Shingles(body, cfg.ngram), md5, cfg.bits, cfg.bits);
    FingerprintIsMajority(Shingles(body, cfg.ngram), md5, cfg.bits, cfg.bits, 0);
    Pow2Monotone(cfg.bits, 64);
    SignedRoundTripIff(fp);
    if cfg.numBands > 0 && cfg.bits / cfg.numBands <= 31 {
      NarrowBandsFit(fp, cfg);
    }
  }

  lemma NarrowBandsFit(fp: nat, cfg: SimHashConfig)
    requires cfg.numBands > 0 && cfg.bits / cfg.numBands <= 31
    ensures BandsFit(fp, cfg)
  {
    hide Pow2, Low, Shr;
    var w := cfg.bits / cfg.numBands;
    Pow2Monotone(w, 31);
    Pow2Of31();
    forall i | 0 <= i < cfg.numBands
      ensures BandValue(fp, i, w) < 0x8000_0000
    {
      LowBelow(Shr(fp, i * w), w);
    }
  }
}
