/** One dedup pass over a document: the routing of the stages (`pipeline/steps/dedup/__init__.py`) over
    the tables they read and write. */
module DedupPass {
  import opened DedupTypes
  import opened Wrappers
  import C = ChunkCompare
  import M = MinHash
  import S = SimHash
  import D = SimHashDetection

  /** What a pass is run with: settings, the KB, and what is computed from the document's title and body.
      `createdAt` is the creation instant the document itself states, which the run records beforehand; `trgm` is what pg_trgm reports for the title, `compare` the chunk comparison with a candidate. */
  datatype Pass = Pass(
    enabled: bool, isDocument: bool, kbId: string, createdAt: Option<int>, titleHash: string, fingerprint: nat, signature: M.Signature,
    trgm: string -> Option<real>, compare: string -> C.Comparison, sameTitle: string -> bool,
    simhash: D.SimHashConfig, minhash: M.MinHashConfig, chunks: C.Config)
  {
    predicate Runs() {
      enabled && isDocument
    }
  }

  const NOTHING_FOUND: DedupResult := DedupResult(NoMatch, Unknown, None, true, [])

  // ---------------------------------------------------------------- what the pass answers

  /** The documents the first stage finds close. */
  function Close(docs: map<string, Doc>, bands: D.BandTable, d: string, p: Pass): set<string>
    requires p.simhash.numBands > 0
  {
    D.IndexedClose(docs, bands, p.kbId, d, p.fingerprint, p.simhash)
  }

  /** The documents that pass the second stage. */
  function Alike(docs: map<string, Doc>, signatures: map<string, M.Signature>, d: string, p: Pass): set<string> {
    var titles := M.TitleCandidates(docs, p.trgm, p.kbId);
    M.PassedSet(signatures, p.signature, titles, p.minhash, M.Judged(docs, signatures, p.signature, titles, p.kbId, d))
  }

  /** The first stage comes through: there are bands, and every value it stores fits its column; bands
      are stored when nothing is close, and then the document must exist. */
  predicate ComesThrough(docs: map<string, Doc>, bands: D.BandTable, d: string, p: Pass) {
    && p.simhash.numBands > 0 && D.FingerprintFits(p.fingerprint)
    && (Close(docs, bands, d, p) == {} ==> d in docs && D.BandsFit(p.fingerprint, p.simhash))
  }

  /** `r` is what a stage answered, confirmed by chunks where that stage found the document similar. */
  ghost predicate IsConfirmed(r: DedupResult, stage: DedupResult, p: Pass) {
    if stage.bodyMatch == Similar then C.IsConfirmation(r, C.Candidates(stage, p.chunks), p.compare, p.chunks, p.sameTitle)
    else r == stage
  }

  ghost predicate IsFirst(docs: map<string, Doc>, bands: D.BandTable, d: string, p: Pass, r: DedupResult)
    requires p.simhash.numBands > 0
  {
    D.IsVerdict(r, docs, Close(docs, bands, d, p), p.fingerprint, p.titleHash, p.simhash.identicalThreshold)
  }

  ghost predicate IsSecond(docs: map<string, Doc>, signatures: map<string, M.Signature>, d: string, p: Pass, r: DedupResult) {
    M.IsVerdict(r, signatures, p.signature, Alike(docs, signatures, d, p))
  }

  /** What the pass may answer over these tables: the first stage's match, else the second's. */
  ghost predicate Answers(docs: map<string, Doc>, bands: D.BandTable, signatures: map<string, M.Signature>, d: string, p: Pass, r: DedupResult) {
    if !p.Runs() then r == NOTHING_FOUND
    else
      && ComesThrough(docs, bands, d, p)
      && if Close(docs, bands, d, p) != {} then exists first :: IsFirst(docs, bands, d, p, first) && IsConfirmed(r, first, p)
         else exists second :: IsSecond(docs, signatures, d, p, second) && IsConfirmed(r, second, p)
  }

  // ---------------------------------------------------------------- what the pass writes

  /** The three writes of a pass, in order: bands, fingerprint, signature. Bands and signature are
      written only when the first stage finds nothing close. */
  function BandsWritten(docs: map<string, Doc>, bands: D.BandTable, d: string, p: Pass, writes: nat): D.BandTable {
    if writes >= 1 && p.Runs() && p.simhash.numBands > 0 then D.BandsAfter(docs, bands, p.kbId, d, p.fingerprint, p.simhash) else bands
  }

  function DocsWritten(docs: map<string, Doc>, d: string, p: Pass, writes: nat): map<string, Doc> {
    if writes >= 2 && p.Runs() then D.Recorded(docs, d, p.fingerprint, p.titleHash) else docs
  }

  function SignaturesWritten(docs: map<string, Doc>, bands: D.BandTable, signatures: map<string, M.Signature>, d: string, p: Pass, writes: nat)
    : map<string, M.Signature>
  {
    if writes >= 3 && p.Runs() && d in docs && p.simhash.numBands > 0 && Close(docs, bands, d, p) == {} then signatures[d := p.signature]
    else signatures
  }

  /** Recording the fingerprint changes nothing the second stage looks at. */
  lemma SecondSeesTheSame(docs: map<string, Doc>, signatures: map<string, M.Signature>, d: string, p: Pass)
    ensures Alike(D.Recorded(docs, d, p.fingerprint, p.titleHash), signatures, d, p) == Alike(docs, signatures, d, p)
  {
    hide M.Passes, M.SomeBandAgrees;
    var docs' := D.Recorded(docs, d, p.fingerprint, p.titleHash);
    assert M.TitleCandidates(docs', p.trgm, p.kbId) == M.TitleCandidates(docs, p.trgm, p.kbId);
    assert M.FindCandidates(docs', signatures, p.signature, p.kbId) == M.FindCandidates(docs, signatures, p.signature, p.kbId);
  }

  // ---------------------------------------------------------------- what the answer guarantees

  /** The result names another document that is indexed, if it found any; so are all its candidates. */
  ghost predicate NamesAnother(docs: map<string, Doc>, d: string, r: DedupResult) {
    && (r.needsIndexing <==> r.bodyMatch == NoMatch)
    && (r.bodyMatch == NoMatch ==> r.duplicateDocId == None)
    && (r.bodyMatch != NoMatch ==> r.duplicateDocId.Some? && IsAnother(docs, d, r.duplicateDocId.value))
    && forall cid :: cid in r.candidateDocIds ==> IsAnother(docs, d, cid)
  }

  predicate IsAnother(docs: map<string, Doc>, d: string, x: string) {
    x in docs && docs[x].status.Indexed? && x != d
  }

  lemma FirstNamesAnother(docs: map<string, Doc>, bands: D.BandTable, d: string, p: Pass, r: DedupResult)
    requires p.simhash.numBands > 0 && IsFirst(docs, bands, d, p, r)
    ensures NamesAnother(docs, d, r)
    ensures Close(docs, bands, d, p) == {} <==> r.bodyMatch == NoMatch
  {
    hide D.Distance, D.RowMatches;
    var close := Close(docs, bands, d, p);
    forall cid | cid in r.candidateDocIds
      ensures cid in close
    {
      assert cid in multiset(r.candidateDocIds);
    }
    if r.candidateDocIds == [] {
      forall x
        ensures x !in close
      {
        assert multiset(r.candidateDocIds)[x] == 0;
      }
    } else {
      assert r.candidateDocIds[0] in r.candidateDocIds;
    }
  }

  lemma SecondNamesAnother(docs: map<string, Doc>, signatures: map<string, M.Signature>, d: string, p: Pass, r: DedupResult)
    requires IsSecond(docs, signatures, d, p, r)
    ensures NamesAnother(docs, d, r)
  {
    hide M.Jaccard, M.SomeBandAgrees;
    forall cid | cid in r.candidateDocIds
      ensures cid in Alike(docs, signatures, d, p)
    {
      assert cid in multiset(r.candidateDocIds);
    }
  }

  lemma ConfirmedNamesAnother(docs: map<string, Doc>, d: string, p: Pass, stage: DedupResult, r: DedupResult)
    requires NamesAnother(docs, d, stage) && IsConfirmed(r, stage, p)
    ensures NamesAnother(docs, d, r)
  {
    hide C.BandOf, C.AggregateScore, C.Passed;
    C.PassedAreCandidates(C.Candidates(stage, p.chunks), p.compare, p.chunks);
    assert forall cid :: cid in C.Candidates(stage, p.chunks) ==> IsAnother(docs, d, cid);
  }

  /** Whatever the pass answers, the document it names is another one, and indexed. */
  lemma PassNamesAnother(docs: map<string, Doc>, bands: D.BandTable, signatures: map<string, M.Signature>, d: string, p: Pass, r: DedupResult)
    requires Answers(docs, bands, signatures, d, p, r)
    ensures NamesAnother(docs, d, r)
  {
    hide IsFirst, IsSecond, IsConfirmed, NamesAnother;
    if !p.Runs() {
      NothingNamesAnother(docs, d);
    } else if Close(docs, bands, d, p) != {} {
      var first :| IsFirst(docs, bands, d, p, first) && IsConfirmed(r, first, p);
      FirstNamesAnother(docs, bands, d, p, first);
      ConfirmedNamesAnother(docs, d, p, first, r);
    } else {
      var second :| IsSecond(docs, signatures, d, p, second) && IsConfirmed(r, second, p);
      SecondNamesAnother(docs, signatures, d, p, second);
      ConfirmedNamesAnother(docs, d, p, second, r);
    }
  }

  lemma NothingNamesAnother(docs: map<string, Doc>, d: string)
    ensures NamesAnother(docs, d, NOTHING_FOUND)
  {
  }

  /** A match stands on evidence: an identical body within the Hamming threshold of an indexed
      document, or chunks that put the named document into the band answered. */
  lemma MatchHasEvidence(docs: map<string, Doc>, bands: D.BandTable, signatures: map<string, M.Signature>, d: string, p: Pass, r: DedupResult)
    requires Answers(docs, bands, signatures, d, p, r) && r.bodyMatch != NoMatch
    ensures r.duplicateDocId.Some?
    ensures (r.bodyMatch == IdenticalLevel && D.HasFingerprint(docs, r.duplicateDocId.value)
             && D.Distance(docs, p.fingerprint, r.duplicateDocId.value) <= p.simhash.identicalThreshold)
         || C.BandOf(r.duplicateDocId.value, p.compare, p.chunks) == r.bodyMatch
  {
    hide D.Distance, C.BandOf, M.Jaccard, D.FindCandidates;
    if Close(docs, bands, d, p) != {} {
      var first :| IsFirst(docs, bands, d, p, first) && IsConfirmed(r, first, p);
      if first.bodyMatch != Similar {
        assert first.candidateDocIds[0] in multiset(first.candidateDocIds);
      }
    }
  }

  /** A pass that is switched off, or over anything but a document, finds nothing and writes nothing. */
  lemma IdlePassDoesNothing(docs: map<string, Doc>, bands: D.BandTable, signatures: map<string, M.Signature>, d: string, p: Pass, r: DedupResult, writes: nat)
    requires !p.enabled || !p.isDocument
    ensures Answers(docs, bands, signatures, d, p, r) <==>
      r.bodyMatch == NoMatch && r.titleMatch == Unknown && r.duplicateDocId == None && r.needsIndexing && r.candidateDocIds == []
    ensures BandsWritten(docs, bands, d, p, writes) == bands && DocsWritten(docs, d, p, writes) == docs
    ensures SignaturesWritten(docs, bands, signatures, d, p, writes) == signatures
  {
  }

  /** Under settings of at most 64 bits in bands of at most 31, a pass over an existing document always comes
      through. */
  lemma NarrowPassComesThrough(docs: map<string, Doc>, bands: D.BandTable, d: string, p: Pass, body: string, md5: string -> nat)
    requires d in docs && p.simhash.numBands >= 1 && p.simhash.bits <= 64 && p.simhash.bits / p.simhash.numBands <= 31
    requires p.fingerprint == S.Fingerprint(S.Shingles(body, p.simhash.ngram), md5, p.simhash.bits, p.simhash.bits)
    ensures ComesThrough(docs, bands, d, p)
  {
    hide S.Fingerprint, S.Shingles, Close, D.FingerprintFits, D.BandsFit;
    D.NarrowFingerprintsFit(body, p.simhash, md5);
  }

  /** The writes come one by one: the bands, then the row, then the signature. */
  lemma WritesComeInOrder(docs: map<string, Doc>, bands: D.BandTable, signatures: map<string, M.Signature>, d: string, p: Pass, writes: nat)
    ensures writes < 1 ==> BandsWritten(docs, bands, d, p, writes) == bands
    ensures writes >= 1 ==> BandsWritten(docs, bands, d, p, writes) == BandsWritten(docs, bands, d, p, 3)
    ensures writes < 2 ==> DocsWritten(docs, d, p, writes) == docs
    ensures writes >= 2 ==> DocsWritten(docs, d, p, writes) == DocsWritten(docs, d, p, 3)
    ensures writes < 3 ==> SignaturesWritten(docs, bands, signatures, d, p, writes) == signatures
  {
    hide D.BandsAfter, D.Recorded, Close;
  }

  // ---------------------------------------------------------------- the pass as it runs

  datatype PassOutcome = Raised | Done(result: DedupResult)

  /** The second and third stage of a pass: what they answer is confirmed by chunks where need be. */
  method Confirm(stage: DedupResult, p: Pass) returns (r: DedupResult)
    ensures IsConfirmed(r, stage, p)
  {
    r := stage;
    if r.bodyMatch == Similar {
      r := C.RunChunkCompare(r, p.compare, p.chunks, p.sameTitle);
    }
  }

  /** Runs the stages over the stores. `settings` gives the pass but for what is computed here from title,
      body and tokens; `p` is the pass with that filled in, and `writes` how far it got. */
  method RunDedupPipeline(fps: D.FingerprintStore, sigs: M.SignatureStore, d: string, title: string, body: string, tokens: seq<string>,
                          settings: Pass, md5: string -> nat, titleDigest: string -> string, hash: M.HashFamily)
    returns (outcome: PassOutcome, ghost p: Pass, ghost writes: nat)
    modifies fps, sigs
    ensures p == settings.(titleHash := titleDigest(title), signature := p.signature, fingerprint :=
                           S.Fingerprint(S.Shingles(body, settings.simhash.ngram), md5, settings.simhash.bits, settings.simhash.bits))
    ensures outcome.Raised? <==> p.Runs() && !ComesThrough(old(fps.docs), old(fps.table), d, p)
    ensures writes == if outcome.Raised? then 1 else 3
    ensures outcome.Done? ==> Answers(old(fps.docs), old(fps.table), old(sigs.stored), d, p, outcome.result)
    ensures outcome.Done? && p.Runs() && Close(old(fps.docs), old(fps.table), d, p) == {} ==>
      M.IsSignature(hash, M.TokenSet(tokens), M.NUM_HASHES, p.signature)
    ensures fps.table == BandsWritten(old(fps.docs), old(fps.table), d, p, writes)
    ensures fps.docs == DocsWritten(old(fps.docs), d, p, writes)
    ensures sigs.stored == SignaturesWritten(old(fps.docs), old(fps.table), old(sigs.stored), d, p, writes)
  {
    hide D.IsVerdict, M.IsVerdict, D.IndexedClose, D.BandsFit, S.Fingerprint, S.Shingles, D.BandsAfter, IsConfirmed, M.IsSignature, D.Recorded;
    ghost var docs, bands := fps.docs, fps.table;
    p := settings.(titleHash := titleDigest(title), fingerprint :=
                   S.Fingerprint(S.Shingles(body, settings.simhash.ngram), md5, settings.simhash.bits, settings.simhash.bits));
    writes := 0;
    if !settings.enabled || !settings.isDocument {
      writes := 3;
      return Done(NOTHING_FOUND), p, writes;
    }
    var first := fps.RunSimhashDetection(d, title, body, settings.kbId, settings.simhash, md5, titleDigest);
    if !first.Detected? {
      writes := 1;
      return Raised, p, writes;
    }
    writes := 3;
    RecordedRows(docs, d, p);
    ClosedByFirst(docs, bands, d, p, first.result);
    if first.result.bodyMatch != NoMatch {
      assert IsFirst(docs, bands, d, p, first.result);
      var r := Confirm(first.result, settings);
      ConfirmedAlike(r, first.result, settings, p);
      outcome := Done(r);
    } else {
      var second, signature := sigs.RunMinhashDetection(fps.docs, d, tokens, settings.trgm, settings.kbId, settings.minhash, hash);
      p := p.(signature := signature);
      if second == M.DocumentNotFound {
        assert false;
      }
      SecondSeesTheSame(docs, old(sigs.stored), d, p);
      assert IsSecond(docs, old(sigs.stored), d, p, second.result);
      var r := Confirm(second.result, settings);
      ConfirmedAlike(r, second.result, settings, p);
      outcome := Done(r);
    }
  }

  lemma RecordedRows(docs: map<string, Doc>, d: string, p: Pass)
    ensures D.Recorded(docs, d, p.fingerprint, p.titleHash).Keys == docs.Keys
  {
  }

  lemma ClosedByFirst(docs: map<string, Doc>, bands: D.BandTable, d: string, p: Pass, r: DedupResult)
    requires p.simhash.numBands > 0 && IsFirst(docs, bands, d, p, r)
    ensures Close(docs, bands, d, p) == {} <==> r.bodyMatch == NoMatch
  {
    FirstNamesAnother(docs, bands, d, p, r);
  }

  /** Confirmation looks only at the settings of the pass. */
  lemma ConfirmedAlike(r: DedupResult, stage: DedupResult, p: Pass, p': Pass)
    requires IsConfirmed(r, stage, p) && p'.compare == p.compare && p'.chunks == p.chunks && p'.sameTitle == p.sameTitle
    ensures IsConfirmed(r, stage, p')
  {
  }
}
