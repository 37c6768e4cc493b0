/** Whether the band index keeps in step with the stored fingerprints: what each step of a run does to the
    indexed documents whose bands are not those of their fingerprint. */
module BandUpkeep {
  import opened Bits
  import opened DedupPass
  import opened DedupTypes
  import opened SimHash
  import opened Verdict
  import opened VerdictLaws
  import opened Wrappers
  import D = SimHashDetection

  // ---------------------------------------------------------------- documents the index may not show

  /** The table holds the bands of `fingerprint` for `d`. */
  ghost predicate Owns(bands: D.BandTable, d: string, fingerprint: nat, cfg: D.SimHashConfig)
    requires cfg.numBands > 0
  {
    forall i: nat :: i < cfg.numBands ==> (d, i) in bands && bands[(d, i)].value == BandValue(fingerprint, i, cfg.bits / cfg.numBands)
  }

  /** `d` has a fingerprint whose bands it does not own: it was indexed without them, or with others. */
  ghost predicate OutOfStep(s: State, d: string, cfg: D.SimHashConfig)
    requires cfg.numBands > 0
  {
    D.HasFingerprint(s.docs, d) && !Owns(s.bands, d, I64ToU64(s.docs[d].contentSimhash.value), cfg)
  }

  /** The indexed documents among them: a scan visits these, the index need not. */
  ghost function Hidden(s: State, cfg: D.SimHashConfig): set<string>
    requires cfg.numBands > 0
  {
    set d | d in s.docs && s.docs[d].status.Indexed? && OutOfStep(s, d, cfg)
  }

  /** Every band row belongs to an existing document and carries its KB. */
  ghost predicate RowsPlaced(s: State) {
    forall key :: key in s.bands ==> key.0 in s.docs && s.bands[key].kbId == s.docs[key.0].kbId
  }

  /** The bands match for a lookup exactly when none of the documents it should see is hidden. */
  lemma BandsMatchIff(s: State, kbId: string, d: string, cfg: D.SimHashConfig)
    requires cfg.numBands > 0 && RowsPlaced(s)
    ensures D.BandsMatch(s.docs, s.bands, kbId, d, cfg.numBands, cfg.bits) <==> D.ScanSet(s.docs, kbId, d) !! Hidden(s, cfg)
  {
    hide Owns, D.Shows;
    forall x | x in D.ScanSet(s.docs, kbId, d)
      ensures D.Shows(s.docs, s.bands, x, cfg.numBands, cfg.bits) <==> x !in Hidden(s, cfg)
    {
      ShowsIff(s, x, cfg);
    }
  }

  /** A document shows its bands exactly when it owns them. */
  lemma ShowsIff(s: State, x: string, cfg: D.SimHashConfig)
    requires cfg.numBands > 0 && RowsPlaced(s) && D.HasFingerprint(s.docs, x)
    ensures D.Shows(s.docs, s.bands, x, cfg.numBands, cfg.bits) <==> !OutOfStep(s, x, cfg)
  {
    hide BandValue, I64ToU64;
  }

  /** A document without band rows is close to nothing, not even to a body with its own fingerprint. */
  lemma UnbandedIsInvisible(docs: map<string, Doc>, bands: D.BandTable, x: string, kbId: string, d: string, fingerprint: nat,
                            cfg: D.SimHashConfig)
    requires cfg.numBands > 0 && forall i: nat :: (x, i) !in bands
    ensures x !in D.IndexedClose(docs, bands, kbId, d, fingerprint, cfg)
  {
    hide D.RowMatches, D.Distance;
  }

  // ---------------------------------------------------------------- what a step leaves alone

  ghost predicate SameRows(bands: D.BandTable, bands': D.BandTable, x: string) {
    forall i: nat :: ((x, i) in bands <==> (x, i) in bands') && ((x, i) in bands ==> bands[(x, i)] == bands'[(x, i)])
  }

  /** As far as the index is concerned, nothing happens to `x`. */
  ghost predicate SameFor(s: State, s': State, x: string) {
    && (x in s.docs <==> x in s'.docs)
    && (x in s.docs ==> s'.docs[x].status == s.docs[x].status && s'.docs[x].contentSimhash == s.docs[x].contentSimhash)
    && SameRows(s.bands, s'.bands, x)
  }

  lemma SameHidden(s: State, s': State, x: string, cfg: D.SimHashConfig)
    requires cfg.numBands > 0 && SameFor(s, s', x)
    ensures x in Hidden(s', cfg) <==> x in Hidden(s, cfg)
  {
    hide BandValue, I64ToU64;
  }

  lemma SameThrough(s: State, s': State, s'': State, x: string)
    requires SameFor(s, s', x) && SameFor(s', s'', x)
    ensures SameFor(s, s'', x)
  {
  }

  // ---------------------------------------------------------------- the stage

  /** After the stage a document is in step if and only if nothing close was found, so that its bands
      were written, or it already owned the bands of this fingerprint. */
  lemma StageKeepsStepIff(s: State, d: string, p: Pass)
    requires d in s.docs && p.Runs() && ComesThrough(s.docs, s.bands, d, p) && p.fingerprint < Pow2(64)
    ensures var s' := Detecting(s, d, p, 3);
      && D.HasFingerprint(s'.docs, d) && I64ToU64(s'.docs[d].contentSimhash.value) == p.fingerprint
      && (!OutOfStep(s', d, p.simhash) <==> Close(s.docs, s.bands, d, p) == {} || Owns(s.bands, d, p.fingerprint, p.simhash))
  {
    hide Pow2, BandValue, Close, D.BandsFit, D.FingerprintFits, D.WriteBands, D.BandsAfter;
    StoredAs(s.docs, d, p);
    var bands := BandsWritten(s.docs, s.bands, d, p, 3);
    if Close(s.docs, s.bands, d, p) == {} {
      WrittenAreOwned(s.docs, s.bands, d, p);
    } else {
      NoneWritten(s.docs, s.bands, d, p);
    }
  }

  lemma StoredAs(docs: map<string, Doc>, d: string, p: Pass)
    requires p.Runs() && d in docs && D.FingerprintFits(p.fingerprint) && p.fingerprint < Pow2(64)
    ensures var docs' := DocsWritten(docs, d, p, 3);
      D.HasFingerprint(docs', d) && I64ToU64(docs'[d].contentSimhash.value) == p.fingerprint
  {
    hide Pow2;
    SignedRoundTripIff(p.fingerprint);
  }

  lemma WrittenAreOwned(docs: map<string, Doc>, bands: D.BandTable, d: string, p: Pass)
    requires p.Runs() && ComesThrough(docs, bands, d, p) && Close(docs, bands, d, p) == {}
    ensures Owns(BandsWritten(docs, bands, d, p, 3), d, p.fingerprint, p.simhash)
  {
    hide BandValue, D.WriteBands, D.IndexedClose, D.FingerprintFits, D.BandsFit, BandList;
    D.SavedBandsAreOwned(docs, bands, d, p.fingerprint, p.simhash.numBands, p.simhash.bits);
  }

  lemma NoneWritten(docs: map<string, Doc>, bands: D.BandTable, d: string, p: Pass)
    requires p.simhash.numBands > 0 && Close(docs, bands, d, p) != {}
    ensures BandsWritten(docs, bands, d, p, 3) == bands
  {
  }

  /** A pass touches only its document's rows. */
  lemma DetectingIsLocal(s: State, d: string, p: Pass, writes: nat)
    ensures forall x :: x != d ==> SameFor(s, Detecting(s, d, p, writes), x)
    ensures RowsPlaced(s) ==> RowsPlaced(Detecting(s, d, p, writes))
  {
    hide D.BandsAfter, D.Recorded, Close;
    DetectingKeepsRows(s, d, p, writes);
    if p.simhash.numBands > 0 {
      WritingIsLocal(s.docs, s.bands, d, p);
    }
  }

  lemma WritingIsLocal(docs: map<string, Doc>, bands: D.BandTable, d: string, p: Pass)
    requires p.simhash.numBands > 0
    ensures var bands' := D.BandsAfter(docs, bands, p.kbId, d, p.fingerprint, p.simhash);
      && (forall x :: x != d ==> SameRows(bands, bands', x))
      && (forall key :: key in bands' ==>
           || (key in bands && bands'[key] == bands[key])
           || (key.0 == d && d in docs && bands'[key].kbId == if key in bands then bands[key].kbId else docs[d].kbId))
  {
    hide D.WriteBands, D.IndexedClose, D.BandsFit, BandList;
    if d in docs {
      var list := BandList(p.fingerprint, p.simhash.numBands, p.simhash.bits);
      BandListParses(p.fingerprint, p.simhash.numBands, p.simhash.bits);
      D.WriteBandsRows(bands, d, docs[d].kbId, list, p.simhash.numBands);
      WriteBandsKb(bands, d, docs[d].kbId, list, p.simhash.numBands);
    }
  }

  /** An upserted row keeps its KB; a new one gets the document's. */
  lemma {:induction false} WriteBandsKb(table: D.BandTable, d: string, kbId: string, bands: seq<(nat, string)>, n: nat)
    requires n <= |bands|
    ensures table.Keys <= D.WriteBands(table, d, kbId, bands, n).Keys
    ensures forall key :: key in D.WriteBands(table, d, kbId, bands, n) ==>
      (key in table || key.0 == d) && D.WriteBands(table, d, kbId, bands, n)[key].kbId == if key in table then table[key].kbId else kbId
  {
    hide ParseHex;
    if n > 0 {
      WriteBandsKb(table, d, kbId, bands, n - 1);
    }
  }

  // ---------------------------------------------------------------- the verdict

  ghost predicate PurgedBy(es: seq<Effect>, x: string, done: nat)
    requires done <= |es|
  {
    exists j :: 0 <= j < done && es[j].Purge? && es[j].d == x
  }

  lemma ApplyBands(s: State, e: Effect)
    ensures Apply(s, e).bands == if e.Purge? then WithoutBands(s.bands, e.d) else s.bands
    ensures Apply(s, e).docs.Keys == s.docs.Keys
    ensures forall x :: x in s.docs ==> Apply(s, e).docs[x].contentSimhash == s.docs[x].contentSimhash
  {
  }

  /** The writes of a verdict remove the bands of the documents they purge, and change no fingerprint. */
  lemma {:induction false} PrefixBands(s: State, es: seq<Effect>, done: nat)
    requires done <= |es|
    ensures var s' := ApplyAll(s, es[..done]);
      && (forall key :: key in s'.bands <==> key in s.bands && !PurgedBy(es, key.0, done))
      && (forall key :: key in s'.bands ==> s'.bands[key] == s.bands[key])
      && s'.docs.Keys == s.docs.Keys
      && forall x :: x in s.docs ==> s'.docs[x].contentSimhash == s.docs[x].contentSimhash
    decreases done
  {
    hide Apply;
    if done > 0 {
      PrefixBands(s, es, done - 1);
      assert es[..done][..done - 1] == es[..done - 1];
      ApplyBands(ApplyAll(s, es[..done - 1]), es[done - 1]);
      OnePurgeMore(es, done);
    }
  }

  lemma OnePurgeMore(es: seq<Effect>, done: nat)
    requires 0 < done <= |es|
    ensures forall x :: PurgedBy(es, x, done) <==> PurgedBy(es, x, done - 1) || (es[done - 1].Purge? && es[done - 1].d == x)
  {
    forall x | PurgedBy(es, x, done)
      ensures PurgedBy(es, x, done - 1) || (es[done - 1].Purge? && es[done - 1].d == x)
    {
      var j :| 0 <= j < done && es[j].Purge? && es[j].d == x;
      if j < done - 1 {
        assert PurgedBy(es, x, done - 1);
      }
    }
    forall x | PurgedBy(es, x, done - 1)
      ensures PurgedBy(es, x, done)
    {
      var j :| 0 <= j < done - 1 && es[j].Purge? && es[j].d == x;
    }
  }

  /** What a verdict's writes do to the rows of other documents: nothing, but for the one it names. That one
      loses its bands to the first write of a similar takeover, and its status to the second write of any. */
  lemma JudgedFor(s: State, d: string, r: DedupResult, done: nat, x: string)
    requires d in s.docs && NamesIndexed(s, d, r) && s.docs[d].status == Running && done <= |Plan(s.docs, d, r)|
    ensures var s', takesAll := ApplyAll(s, Plan(s.docs, d, r)[..done]), IncomingTakesAll(s.docs, d, r);
      && s'.docs.Keys == s.docs.Keys
      && (x in s.docs ==> s'.docs[x].contentSimhash == s.docs[x].contentSimhash)
      && (x != d && (x != r.duplicateDocId.value || !takesAll || done == 0 || (done == 1 && r.bodyMatch != Similar)) ==> SameFor(s, s', x))
      && (x == r.duplicateDocId.value && takesAll && done >= 2 ==> s'.docs[x].status == Outdated)
      && (x == r.duplicateDocId.value && takesAll && done == 1 && r.bodyMatch == Similar ==>
            s'.docs[x].status == Indexed && forall i: nat :: (x, i) !in s'.bands)
      && (x == d && takesAll ==> SameRows(s.bands, s'.bands, d))
  {
    hide Plan, ResolveNewer, Apply, ApplyAll, PurgedBy;
    var plan := Plan(s.docs, d, r);
    PlanShape(s.docs, d, r);
    PairAfter(s, d, r, done);
    PrefixBands(s, plan, done);
    FewPurges(plan, x, done);
    if x in s.docs {
      PrefixStatus(s, plan, x, done);
      FourSteps(plan, x, s.docs[x].status, done);
    }
  }

  lemma FewPurges(es: seq<Effect>, x: string, done: nat)
    requires done <= |es|
    ensures |es| == 1 ==> (PurgedBy(es, x, done) <==> done >= 1 && es[0].Purge? && es[0].d == x)
    ensures |es| == 2 ==>
      (PurgedBy(es, x, done) <==> (done >= 1 && es[0].Purge? && es[0].d == x) || (done >= 2 && es[1].Purge? && es[1].d == x))
    ensures |es| == 4 && !es[0].Purge? && !es[1].Purge? && !es[3].Purge? ==>
      (PurgedBy(es, x, done) <==> done >= 3 && es[2].Purge? && es[2].d == x)
  {
  }

  /** The named document once the verdict has marked it outdated. */
  ghost function Superseded(s: State, d: string, c: Course): set<string> {
    if ResultOf(c).Some? && IncomingTakesAll(Detected(s, d, c.pass).docs, d, c.result) && (c.FailsInVerdict? ==> c.done >= 2)
    then {c.result.duplicateDocId.value} else {}
  }

  /** The named document when a similar takeover breaks off after purging it. */
  ghost function PurgedEarly(s: State, d: string, c: Course): set<string> {
    if c.FailsInVerdict? && c.done == 1 && c.result.bodyMatch == Similar && IncomingTakesAll(Detected(s, d, c.pass).docs, d, c.result)
       && D.HasFingerprint(s.docs, c.result.duplicateDocId.value)
    then {c.result.duplicateDocId.value} else {}
  }

  /** The verdict's completed writes. */
  function Writes(s: State, d: string, c: Course): seq<Effect>
    requires Fits(s, d, c) && ResultOf(c).Some?
  {
    var plan := Plan(Detected(s, d, c.pass).docs, d, c.result);
    if c.FailsInVerdict? then plan[..c.done] else plan
  }

  lemma HiddenAfterVerdict(s: State, d: string, c: Course, x: string, cfg: D.SimHashConfig)
    requires d in s.docs && "" !in s.docs && Fits(s, d, c) && IsFound(s, d, c) && ResultOf(c).Some? && cfg.numBands > 0 && x != d
    ensures x in Hidden(ApplyAll(Detected(s, d, c.pass), Writes(s, d, c)), cfg)
      <==> (x in Hidden(s, cfg) && x !in Superseded(s, d, c)) || x in PurgedEarly(s, d, c)
  {
    hide Plan, ApplyAll, IncomingTakesAll, Answers, Detecting, NeedsIndexing, Owns;
    var s0, s1, r := Processing(s, d), Detected(s, d, c.pass), c.result;
    var plan := Plan(s1.docs, d, r);
    DetectingIsLocal(s0, d, c.pass, 3);
    DetectingKeepsRows(s0, d, c.pass, 3);
    FoundNamesIndexed(s, d, c);
    NoMatchPlansNothing(s1.docs, d, r);
    assert SameFor(s, s0, x);
    SameThrough(s, s0, s1, x);
    SameHidden(s, s1, x, cfg);
    assert plan[..|plan|] == plan;
    if r.bodyMatch == NoMatch {
      NothingApplied(s1);
      NoMatchTakesNothing(s1.docs, d, r);
    } else {
      var done := if c.FailsInVerdict? then c.done else |plan|;
      PairAfter(s1, d, r, done);
      JudgedFor(s1, d, r, done, x);
      NamedIsHidden(s1, ApplyAll(s1, plan[..done]), x, cfg);
    }
  }

  lemma NoMatchTakesNothing(docs: map<string, Doc>, d: string, r: DedupResult)
    ensures r.bodyMatch == NoMatch ==> !IncomingTakesAll(docs, d, r)
  {
  }

  /** A document is hidden as before if nothing happens to it, never when outdated, and surely when it is
      indexed with a fingerprint and no rows. */
  lemma NamedIsHidden(s: State, s': State, x: string, cfg: D.SimHashConfig)
    requires cfg.numBands > 0
    ensures SameFor(s, s', x) ==> (x in Hidden(s', cfg) <==> x in Hidden(s, cfg))
    ensures x in s'.docs && s'.docs[x].status == Outdated ==> x !in Hidden(s', cfg)
    ensures x in s'.docs && s'.docs[x].status == Indexed && (forall i: nat :: (x, i) !in s'.bands) ==>
      (x in Hidden(s', cfg) <==> D.HasFingerprint(s'.docs, x))
  {
    hide BandValue, I64ToU64;
    if SameFor(s, s', x) {
      SameHidden(s, s', x, cfg);
    }
    if forall i: nat :: (x, i) !in s'.bands {
      assert (x, 0) !in s'.bands;
    }
  }

  // ---------------------------------------------------------------- an ingest run

  lemma FailureIsLocal(s: State, d: string, how: Marking)
    ensures forall x :: x != d ==> SameFor(s, SetFailed(s, d, how), x)
    ensures RowsPlaced(s) ==> RowsPlaced(SetFailed(s, d, how))
  {
    hide Apply;
    if d in s.docs {
      ApplyBands(s, Purge(d, s.docs[d].kbId, true));
      PurgeKeepsDocs(s, Purge(d, s.docs[d].kbId, true));
    }
  }

  lemma UpsertIsLocal(s: State, d: string, u: Upsert)
    ensures Upserted(s, d, u).docs == s.docs && Upserted(s, d, u).bands == s.bands
    ensures forall x :: x != d ==> SameFor(s, Index(s, d, u), x)
    ensures d in s.docs ==>
      d in Index(s, d, u).docs && Index(s, d, u).docs[d].status == Indexed
      && Index(s, d, u).docs[d].contentSimhash == s.docs[d].contentSimhash
    ensures Index(s, d, u).bands == s.bands
    ensures RowsPlaced(s) ==> RowsPlaced(Index(s, d, u))
  {
    hide Upserted;
    UpsertKeepsTables(s, d, u);
  }

  lemma UpsertKeepsTables(s: State, d: string, u: Upsert)
    ensures Upserted(s, d, u).docs == s.docs && Upserted(s, d, u).bands == s.bands
  {
  }

  lemma SameTables(s: State, s': State, x: string, cfg: D.SimHashConfig)
    requires cfg.numBands > 0 && s'.docs == s.docs && s'.bands == s.bands
    ensures x in Hidden(s', cfg) <==> x in Hidden(s, cfg)
  {
  }

  /** The run ends with the document indexed. */
  ghost predicate EndsIndexed(s: State, d: string, c: Course) {
    c.Completes? && (c.result.bodyMatch == NoMatch || IncomingTakesAll(Detected(s, d, c.pass).docs, d, c.result))
  }

  /** The run leaves its own document hidden: indexed after something close was found, though not taken for a
      match or replaced by it, without owning the bands of its fingerprint; indexed by a pass that does
      not run; or purged while indexed by a failure that is not recorded. */
  ghost predicate LeavesHidden(s: State, d: string, c: Course, cfg: D.SimHashConfig)
    requires d in s.docs && cfg.numBands > 0
  {
    match c
    case Invalid(how) => how == Unwritten && s.docs[d].status.Indexed? && D.HasFingerprint(s.docs, d)
    case Completes(p, r, _) =>
      && EndsIndexed(s, d, c)
      && if p.Runs() then p.simhash.numBands > 0 && Close(Processing(s, d).docs, s.bands, d, p) != {} && !Owns(s.bands, d, p.fingerprint, cfg)
         else OutOfStep(s, d, cfg)
    case _ => false
  }

  /** The documents a run hides. */
  ghost function HiddenByRun(s: State, d: string, c: Course, cfg: D.SimHashConfig): set<string>
    requires d in s.docs && cfg.numBands > 0
  {
    PurgedEarly(s, d, c) + if LeavesHidden(s, d, c, cfg) then {d} else {}
  }

  /** The documents a run decides anew, or that it outdates. */
  ghost function SettledByRun(s: State, d: string, c: Course): set<string> {
    if c.NeverStarts? || c == Invalid(Unread) then {} else Superseded(s, d, c) + {d}
  }

  /** The run's pass works under these settings, and its fingerprint has at most 64 bits. */
  ghost predicate Under(c: Course, cfg: D.SimHashConfig) {
    PassOf(c).Some? ==> c.pass.simhash == cfg && c.pass.fingerprint < Pow2(64)
  }

  lemma OthersHidden(s: State, d: string, c: Course, x: string, cfg: D.SimHashConfig)
    requires d in s.docs && "" !in s.docs && Fits(s, d, c) && IsFound(s, d, c) && cfg.numBands > 0 && x != d
    ensures x in Hidden(IngestRun(s, d, c), cfg) <==> (x in Hidden(s, cfg) && x !in SettledByRun(s, d, c)) || x in PurgedEarly(s, d, c)
  {
    hide Plan, ApplyAll, IncomingTakesAll, Answers, Detecting, NeedsIndexing, Hidden, Upserted, Index, SetFailed, SameFor, PurgedEarly;
    match c
    case NeverStarts => NothingPurged(s, d, c);
    case Invalid(how) =>
      NothingPurged(s, d, c);
      FailureIsLocal(s, d, how);
      SameHidden(s, SetFailed(s, d, how), x, cfg);
    case FailsBeforeVerdict(p, writes, how) =>
      NothingPurged(s, d, c);
      HiddenAfterFailedPass(s, d, p, writes, how, x, cfg);
    case FailsInVerdict(p, r, done, how) =>
      HiddenAfterVerdict(s, d, c, x, cfg);
      var judged := ApplyAll(Detected(s, d, p), Writes(s, d, c));
      FailureIsLocal(judged, d, how);
      SameHidden(judged, SetFailed(judged, d, how), x, cfg);
    case FailsAfterVerdict(p, r, partial, how) =>
      HiddenAfterVerdict(s, d, c, x, cfg);
      var judged := ApplyAll(Detected(s, d, p), Writes(s, d, c));
      var upserted := if partial.Some? then Upserted(judged, d, partial.value) else judged;
      if partial.Some? {
        UpsertIsLocal(judged, d, partial.value);
      }
      SameTables(judged, upserted, x, cfg);
      FailureIsLocal(upserted, d, how);
      SameHidden(upserted, SetFailed(upserted, d, how), x, cfg);
    case Completes(p, r, u) =>
      HiddenAfterVerdict(s, d, c, x, cfg);
      var judged := ApplyAll(Detected(s, d, p), Writes(s, d, c));
      UpsertIsLocal(judged, d, u);
      SameHidden(judged, Index(judged, d, u), x, cfg);
  }

  lemma NothingPurged(s: State, d: string, c: Course)
    ensures !c.FailsInVerdict? ==> PurgedEarly(s, d, c) == {}
    ensures ResultOf(c) == None ==> Superseded(s, d, c) == {}
  {
  }

  lemma HiddenAfterFailedPass(s: State, d: string, p: Pass, writes: nat, how: Marking, x: string, cfg: D.SimHashConfig)
    requires cfg.numBands > 0 && x != d
    ensures x in Hidden(SetFailed(Detecting(Processing(s, d), d, p, writes), d, how), cfg) <==> x in Hidden(s, cfg)
  {
    hide Detecting, Hidden, SetFailed;
    var s0, s1 := Processing(s, d), Detecting(Processing(s, d), d, p, writes);
    assert SameFor(s, s0, x);
    DetectingIsLocal(s0, d, p, writes);
    FailureIsLocal(s1, d, how);
    SameThrough(s, s0, s1, x);
    SameThrough(s, s1, SetFailed(s1, d, how), x);
    SameHidden(s, SetFailed(s1, d, how), x, cfg);
  }

  /** Of its own document a run makes a hidden one exactly as said above. */
  lemma OwnHidden(s: State, d: string, c: Course, cfg: D.SimHashConfig)
    requires d in s.docs && "" !in s.docs && Fits(s, d, c) && IsFound(s, d, c) && cfg.numBands > 0 && Under(c, cfg)
    ensures d in Hidden(IngestRun(s, d, c), cfg) <==> (d in Hidden(s, cfg) && d !in SettledByRun(s, d, c)) || LeavesHidden(s, d, c, cfg)
  {
    hide Plan, ApplyAll, IncomingTakesAll, Answers, Detecting, NeedsIndexing, Upserted, Index, SetFailed, OutOfStep, Owns, Superseded, EndsIndexed;
    match c
    case NeverStarts =>
    case Invalid(how) => OwnAfterInvalid(s, d, how, cfg);
    case FailsBeforeVerdict(p, writes, how) =>
      DetectingKeepsRows(Processing(s, d), d, p, writes);
      FailureKeepsOthers(Detecting(Processing(s, d), d, p, writes), d, how);
    case FailsInVerdict(p, r, done, how) => BrokenVerdictStatus(s, d, c);
    case FailsAfterVerdict(p, r, partial, how) => FailedAfterStatus(s, d, c);
    case Completes(p, r, u) => OwnAfterCompletion(s, d, p, r, u, cfg);
  }

  lemma OwnAfterInvalid(s: State, d: string, how: Marking, cfg: D.SimHashConfig)
    requires d in s.docs && cfg.numBands > 0
    ensures d in Hidden(SetFailed(s, d, how), cfg)
      <==> (how == Unread && d in Hidden(s, cfg)) || (how == Unwritten && s.docs[d].status.Indexed? && D.HasFingerprint(s.docs, d))
  {
    hide BandValue, I64ToU64;
    if how != Unread {
      assert (d, 0) !in SetFailed(s, d, how).bands;
    }
  }

  /** A completed run leaves its document indexed exactly when nothing matched or it took over, with the
      rows the pass left. */
  lemma OwnAfterJudgement(s: State, d: string, p: Pass, r: DedupResult, u: Upsert)
    requires d in s.docs && "" !in s.docs && IsFound(s, d, Completes(p, r, u))
    ensures var s', s1 := IngestRun(s, d, Completes(p, r, u)), Detected(s, d, p);
      && d in s1.docs && d in s'.docs
      && (s'.docs[d].status == Indexed <==> EndsIndexed(s, d, Completes(p, r, u)))
      && (EndsIndexed(s, d, Completes(p, r, u)) ==>
            SameRows(s1.bands, s'.bands, d) && s'.docs[d].contentSimhash == s1.docs[d].contentSimhash)
  {
    hide Plan, ApplyAll, IncomingTakesAll, Answers, Detecting, NeedsIndexing, Upserted, Index;
    var c := Completes(p, r, u);
    var s1 := Detected(s, d, p);
    var plan := Plan(s1.docs, d, r);
    DetectingKeepsRows(Processing(s, d), d, p, 3);
    FoundNamesIndexed(s, d, c);
    NoMatchPlansNothing(s1.docs, d, r);
    assert plan[..|plan|] == plan;
    if r.bodyMatch == NoMatch {
      NothingApplied(s1);
    } else {
      PairAfter(s1, d, r, |plan|);
      JudgedFor(s1, d, r, |plan|, d);
    }
    UpsertIsLocal(ApplyAll(s1, plan), d, u);
  }

  lemma OwnAfterCompletion(s: State, d: string, p: Pass, r: DedupResult, u: Upsert, cfg: D.SimHashConfig)
    requires d in s.docs && "" !in s.docs && IsFound(s, d, Completes(p, r, u)) && cfg.numBands > 0 && Under(Completes(p, r, u), cfg)
    ensures d in Hidden(IngestRun(s, d, Completes(p, r, u)), cfg) <==> LeavesHidden(s, d, Completes(p, r, u), cfg)
  {
    hide IngestRun, Close, Detecting, EndsIndexed, Owns, IsFirst, IsSecond, IsConfirmed, Pow2;
    var s0, s1, s' := Processing(s, d), Detected(s, d, p), IngestRun(s, d, Completes(p, r, u));
    OwnAfterJudgement(s, d, p, r, u);
    if EndsIndexed(s, d, Completes(p, r, u)) {
      StepFollowsRows(s1, s', d, cfg);
      if p.Runs() {
        StageKeepsStepIff(s0, d, p);
      } else {
        IdlePass(s, d, p);
        StepFollowsRows(s, s1, d, cfg);
      }
    }
  }

  lemma StepFollowsRows(s: State, s': State, d: string, cfg: D.SimHashConfig)
    requires cfg.numBands > 0 && d in s.docs && d in s'.docs
    requires SameRows(s.bands, s'.bands, d) && s'.docs[d].contentSimhash == s.docs[d].contentSimhash
    ensures OutOfStep(s', d, cfg) <==> OutOfStep(s, d, cfg)
  {
    hide BandValue, I64ToU64;
  }

  lemma IdlePass(s: State, d: string, p: Pass)
    requires d in s.docs && !p.Runs()
    ensures var s1 := Detected(s, d, p); d in s1.docs && SameRows(s.bands, s1.bands, d) && s1.docs[d].contentSimhash == s.docs[d].contentSimhash
  {
  }

  /** What an ingest run does to the hidden documents, whole. */
  lemma IngestHides(s: State, d: string, c: Course, cfg: D.SimHashConfig)
    requires d in s.docs && "" !in s.docs && Fits(s, d, c) && IsFound(s, d, c) && cfg.numBands > 0 && Under(c, cfg)
    ensures Hidden(IngestRun(s, d, c), cfg) == (Hidden(s, cfg) - SettledByRun(s, d, c)) + HiddenByRun(s, d, c, cfg)
  {
    hide Hidden, IngestRun, IsFound, Fits, Under, PurgedEarly, LeavesHidden, SettledByRun;
    forall x
      ensures x in Hidden(IngestRun(s, d, c), cfg) <==> (x in Hidden(s, cfg) && x !in SettledByRun(s, d, c)) || x in HiddenByRun(s, d, c, cfg)
    {
      if x == d {
        OwnHidden(s, d, c, cfg);
        PurgesAnother(s, d, c);
      } else {
        OthersHidden(s, d, c, x, cfg);
      }
    }
  }

  lemma PurgesAnother(s: State, d: string, c: Course)
    requires "" !in s.docs && IsFound(s, d, c)
    ensures d !in PurgedEarly(s, d, c)
  {
    hide Answers, Detecting, ResolveNewer, Plan;
    if c.FailsInVerdict? {
      FoundNamesIndexed(s, d, c);
    }
  }

  /** A title-changed takeover of a document the index found close moves the points and drops the bands of
      the other, and writes none: afterwards no lookup finds the new document, not even one for its own body,
      nor the old one. */
  lemma TakeoverIsInvisible(s: State, d: string, p: Pass, r: DedupResult, u: Upsert, kbId: string, looking: string)
    requires d in s.docs && "" !in s.docs && IsFound(s, d, Completes(p, r, u)) && p.Runs() && p.fingerprint < Pow2(64)
    requires p.simhash.numBands > 0 && Close(Processing(s, d).docs, s.bands, d, p) != {} && forall i: nat :: (d, i) !in s.bands
    requires r.bodyMatch == IdenticalLevel && IncomingTakesAll(Detected(s, d, p).docs, d, r)
    ensures var s' := IngestRun(s, d, Completes(p, r, u));
      && d in s'.docs && s'.docs[d].status == Indexed && D.HasFingerprint(s'.docs, d) && D.Distance(s'.docs, p.fingerprint, d) == 0
      && r.duplicateDocId.Some?
      && var close := D.IndexedClose(s'.docs, s'.bands, kbId, looking, p.fingerprint, p.simhash);
        d !in close && r.duplicateDocId.value !in close
  {
    hide IsFound, IncomingTakesAll, Close, Detecting, IngestRun, D.IndexedClose, Pow2;
    IncomingTakesAllNames(Detected(s, d, p).docs, d, r);
    TakerHasNoRows(s, d, p, r, u);
    var s' := IngestRun(s, d, Completes(p, r, u));
    UnbandedIsInvisible(s'.docs, s'.bands, d, kbId, looking, p.fingerprint, p.simhash);
    TakenOverIsOutdated(s, d, p, r, u);
    OutdatedIsInvisible(s'.docs, s'.bands, r.duplicateDocId.value, kbId, looking, p.fingerprint, p.simhash);
  }

  lemma TakerHasNoRows(s: State, d: string, p: Pass, r: DedupResult, u: Upsert)
    requires d in s.docs && "" !in s.docs && IsFound(s, d, Completes(p, r, u)) && p.Runs() && p.fingerprint < Pow2(64)
    requires p.simhash.numBands > 0 && Close(Processing(s, d).docs, s.bands, d, p) != {} && forall i: nat :: (d, i) !in s.bands
    requires r.bodyMatch == IdenticalLevel && IncomingTakesAll(Detected(s, d, p).docs, d, r)
    ensures var s' := IngestRun(s, d, Completes(p, r, u));
      && d in s'.docs && s'.docs[d].status == Indexed && D.HasFingerprint(s'.docs, d) && D.Distance(s'.docs, p.fingerprint, d) == 0
      && forall i: nat :: (d, i) !in s'.bands
  {
    hide IncomingTakesAll, Answers, Close, Detecting, Owns, OutOfStep, HammingDistance, IngestRun, Pow2;
    OwnAfterJudgement(s, d, p, r, u);
    RanThrough(s, d, p, r);
    StageKeepsStepIff(Processing(s, d), d, p);
    HammingZero(p.fingerprint, p.fingerprint);
    NoRowsFromPass(s, d, p);
  }

  lemma NoRowsFromPass(s: State, d: string, p: Pass)
    requires p.simhash.numBands > 0 && Close(Processing(s, d).docs, s.bands, d, p) != {} && forall i: nat :: (d, i) !in s.bands
    ensures forall i: nat :: (d, i) !in Detected(s, d, p).bands
  {
    hide Close;
    NoneWritten(Processing(s, d).docs, s.bands, d, p);
  }

  lemma RanThrough(s: State, d: string, p: Pass, r: DedupResult)
    requires Answers(Processing(s, d).docs, s.bands, s.signatures, d, p, r) && p.Runs()
    ensures ComesThrough(Processing(s, d).docs, s.bands, d, p)
  {
  }

  lemma TakenOverIsOutdated(s: State, d: string, p: Pass, r: DedupResult, u: Upsert)
    requires d in s.docs && "" !in s.docs && IsFound(s, d, Completes(p, r, u))
    requires r.bodyMatch == IdenticalLevel && IncomingTakesAll(Detected(s, d, p).docs, d, r)
    ensures var s', other := IngestRun(s, d, Completes(p, r, u)), r.duplicateDocId.value;
      other in s'.docs && s'.docs[other].status == Outdated
  {
    hide Plan, ApplyAll, IncomingTakesAll, Answers, Detecting, NeedsIndexing, Index;
    var s1 := Detected(s, d, p);
    var plan := Plan(s1.docs, d, r);
    DetectingKeepsRows(Processing(s, d), d, p, 3);
    FoundNamesIndexed(s, d, Completes(p, r, u));
    assert plan[..|plan|] == plan;
    PairAfter(s1, d, r, |plan|);
    IncomingTakesAllNames(s1.docs, d, r);
  }

  lemma IncomingTakesAllNames(docs: map<string, Doc>, d: string, r: DedupResult)
    requires IncomingTakesAll(docs, d, r)
    ensures r.duplicateDocId.Some?
  {
  }

  lemma OutdatedIsInvisible(docs: map<string, Doc>, bands: D.BandTable, x: string, kbId: string, d: string, fingerprint: nat,
                            cfg: D.SimHashConfig)
    requires cfg.numBands > 0 && x in docs && docs[x].status == Outdated
    ensures x !in D.IndexedClose(docs, bands, kbId, d, fingerprint, cfg)
  {
    hide D.RowMatches, D.Distance;
  }

  // ---------------------------------------------------------------- whole runs

  /** The documents a step hides. */
  ghost function HiddenBy(s: State, step: Step, cfg: D.SimHashConfig): set<string>
    requires cfg.numBands > 0 && Enabled(s, step)
  {
    match step
    case Create(d, row) => if row.status.Indexed? && row.contentSimhash.Some? then {d} else {}
    case SetStatus(d, status) => if status.Indexed? && OutOfStep(s, d, cfg) then {d} else {}
    case Ingest(d, c) => HiddenByRun(s, d, c, cfg)
    case _ => {}
  }

  /** The documents a step decides anew, or that it outdates. */
  ghost function SettledBy(s: State, step: Step): set<string> {
    match step
    case Delete(d) => {d}
    case SetStatus(d, _) => {d}
    case Ingest(d, c) => SettledByRun(s, d, c)
    case _ => {}
  }

  lemma PlacedThroughVerdict(s: State, es: seq<Effect>)
    requires RowsPlaced(s)
    ensures RowsPlaced(ApplyAll(s, es))
  {
    hide ApplyAll, PurgedBy;
    PrefixBands(s, es, |es|);
    ApplyAllKeepsRows(s, es);
    assert es[..|es|] == es;
  }

  lemma IngestKeepsPlaced(s: State, d: string, c: Course)
    requires RowsPlaced(s) && Fits(s, d, c)
    ensures RowsPlaced(IngestRun(s, d, c))
  {
    hide Plan, ApplyAll, Detecting, NeedsIndexing, Upserted, Index, SetFailed, RowsPlaced;
    var s0 := Processing(s, d);
    ProcessingKeepsPlaced(s, d);
    match c
    case NeverStarts =>
    case Invalid(how) => FailureIsLocal(s, d, how);
    case FailsBeforeVerdict(p, writes, how) =>
      DetectingIsLocal(s0, d, p, writes);
      FailureIsLocal(Detecting(s0, d, p, writes), d, how);
    case FailsInVerdict(p, r, done, how) =>
      DetectingIsLocal(s0, d, p, 3);
      PlacedThroughVerdict(Detected(s, d, p), Writes(s, d, c));
      FailureIsLocal(ApplyAll(Detected(s, d, p), Writes(s, d, c)), d, how);
    case FailsAfterVerdict(p, r, partial, how) =>
      DetectingIsLocal(s0, d, p, 3);
      PlacedThroughVerdict(Detected(s, d, p), Writes(s, d, c));
      var judged := ApplyAll(Detected(s, d, p), Writes(s, d, c));
      FailureIsLocal(judged, d, how);
      if partial.Some? {
        UpsertKeepsTables(judged, d, partial.value);
        PlacedAlike(judged, Upserted(judged, d, partial.value));
        FailureIsLocal(Upserted(judged, d, partial.value), d, how);
      }
    case Completes(p, r, u) =>
      DetectingIsLocal(s0, d, p, 3);
      PlacedThroughVerdict(Detected(s, d, p), Writes(s, d, c));
      UpsertIsLocal(ApplyAll(Detected(s, d, p), Writes(s, d, c)), d, u);
  }

  lemma ProcessingKeepsPlaced(s: State, d: string)
    requires RowsPlaced(s)
    ensures RowsPlaced(Processing(s, d))
  {
  }

  lemma PlacedAlike(s: State, s': State)
    requires RowsPlaced(s) && s'.docs == s.docs && s'.bands == s.bands
    ensures RowsPlaced(s')
  {
  }

  lemma NextKeepsPlaced(s: State, step: Step)
    requires RowsPlaced(s) && Enabled(s, step)
    ensures RowsPlaced(Next(s, step))
  {
    hide IngestRun, Fits, IsFound;
    match step
    case Ingest(d, c) => IngestKeepsPlaced(s, d, c);
    case _ =>
  }

  lemma SmallStepHides(s: State, step: Step, x: string, cfg: D.SimHashConfig)
    requires cfg.numBands > 0 && Enabled(s, step) && !step.Ingest? && RowsPlaced(s)
    ensures x in Hidden(Next(s, step), cfg) <==> (x in Hidden(s, cfg) && x !in SettledBy(s, step)) || x in HiddenBy(s, step, cfg)
  {
    if x != step.d {
      hide Hidden, SameFor, Next;
      SmallStepIsLocal(s, step, x);
      SameHidden(s, Next(s, step), x, cfg);
    } else {
      hide Owns, SameRows;
      OwnSmallStep(s, step, cfg);
    }
  }

  lemma SmallStepIsLocal(s: State, step: Step, x: string)
    requires !step.Ingest? && x != step.d
    ensures SameFor(s, Next(s, step), x)
  {
  }

  lemma OwnSmallStep(s: State, step: Step, cfg: D.SimHashConfig)
    requires cfg.numBands > 0 && Enabled(s, step) && !step.Ingest? && RowsPlaced(s)
    ensures step.Create? ==> forall fp: nat :: !Owns(s.bands, step.d, fp, cfg)
    ensures step.SetStatus? && step.d in s.docs ==> (OutOfStep(Next(s, step), step.d, cfg) <==> OutOfStep(s, step.d, cfg))
  {
    hide BandValue, I64ToU64;
    if step.Create? {
      assert (step.d, 0) !in s.bands;
    } else if step.SetStatus? && step.d in s.docs {
      StepFollowsRows(s, Next(s, step), step.d, cfg);
    }
  }

  /** Every step hides and settles exactly the documents named above. */
  lemma NextHides(s: State, step: Step, cfg: D.SimHashConfig)
    requires cfg.numBands > 0 && Enabled(s, step) && RowsPlaced(s) && "" !in s.docs && (step.Ingest? ==> Under(step.course, cfg))
    ensures Hidden(Next(s, step), cfg) == (Hidden(s, cfg) - SettledBy(s, step)) + HiddenBy(s, step, cfg)
  {
    if step.Ingest? {
      hide Hidden, IngestRun, IsFound, Fits, Under, SettledByRun, HiddenByRun;
      IngestHides(s, step.d, step.course, cfg);
    } else {
      hide Hidden, Next, HiddenBy, SettledBy;
      forall x
        ensures x in Hidden(Next(s, step), cfg) <==> (x in Hidden(s, cfg) && x !in SettledBy(s, step)) || x in HiddenBy(s, step, cfg)
      {
        SmallStepHides(s, step, x, cfg);
      }
    }
  }

  /** A run under one set of fingerprint settings. */
  ghost predicate IsRunUnder(states: seq<State>, steps: seq<Step>, cfg: D.SimHashConfig) {
    IsRun(states, steps) && forall i :: 0 <= i < |steps| && steps[i].Ingest? ==> Under(steps[i].course, cfg)
  }

  /** After step `i` no step before state `n` settles `x`. */
  ghost predicate Unsettled(states: seq<State>, steps: seq<Step>, x: string, i: nat, n: nat)
    requires n <= |steps| <= |states|
  {
    forall j :: i < j < n ==> x !in SettledBy(states[j], steps[j])
  }

  lemma {:induction false} RowsStayPlaced(states: seq<State>, steps: seq<Step>, n: nat)
    requires IsRun(states, steps) && n <= |steps|
    ensures RowsPlaced(states[n])
  {
    hide Next, RowsPlaced;
    if n > 0 {
      RowsStayPlaced(states, steps, n - 1);
      NextKeepsPlaced(states[n - 1], steps[n - 1]);
    } else {
      NothingPlaced();
    }
  }

  lemma NothingPlaced()
    ensures RowsPlaced(EMPTY)
  {
  }

  /** In every run a document is hidden exactly when some step hid it and none has settled it since. */
  lemma {:induction false} HiddenIff(states: seq<State>, steps: seq<Step>, n: nat, x: string, cfg: D.SimHashConfig)
    requires cfg.numBands > 0 && IsRunUnder(states, steps, cfg) && n <= |steps|
    ensures x in Hidden(states[n], cfg) <==>
      exists i :: 0 <= i < n && x in HiddenBy(states[i], steps[i], cfg) && Unsettled(states, steps, x, i, n)
  {
    hide Next, Hidden, HiddenBy, SettledBy, Enabled, RowsPlaced;
    if n == 0 {
      NothingHidden(cfg);
    } else {
      var s, step := states[n - 1], steps[n - 1];
      HiddenIff(states, steps, n - 1, x, cfg);
      RowsStayPlaced(states, steps, n - 1);
      RunsKeepForest(states, steps, n - 1);
      NextHides(s, step, cfg);
      assert Unsettled(states, steps, x, n - 1, n);
      assert forall i :: 0 <= i < n - 1 ==>
        (Unsettled(states, steps, x, i, n) <==> Unsettled(states, steps, x, i, n - 1) && x !in SettledBy(s, step));
    }
  }

  lemma NothingHidden(cfg: D.SimHashConfig)
    requires cfg.numBands > 0
    ensures Hidden(EMPTY, cfg) == {}
  {
  }

  /** Hence in every run the bands match for a lookup exactly when no document it should see was hidden by
      a step and not settled since. */
  lemma BandsMatchInRunsIff(states: seq<State>, steps: seq<Step>, n: nat, kbId: string, d: string, cfg: D.SimHashConfig)
    requires cfg.numBands > 0 && IsRunUnder(states, steps, cfg) && n <= |steps|
    ensures D.BandsMatch(states[n].docs, states[n].bands, kbId, d, cfg.numBands, cfg.bits) <==>
      forall x, i :: x in D.ScanSet(states[n].docs, kbId, d) && 0 <= i < n && x in HiddenBy(states[i], steps[i], cfg) ==>
        !Unsettled(states, steps, x, i, n)
  {
    hide Next, Hidden, HiddenBy, SettledBy, Enabled, RowsPlaced, D.BandsMatch, D.ScanSet;
    RowsStayPlaced(states, steps, n);
    BandsMatchIff(states[n], kbId, d, cfg);
    forall x
      ensures x in Hidden(states[n], cfg) <==>
        exists i :: 0 <= i < n && x in HiddenBy(states[i], steps[i], cfg) && Unsettled(states, steps, x, i, n)
    {
      HiddenIff(states, steps, n, x, cfg);
    }
  }

  /** In every run the first stage answers soundly, and never overlooks a document within reach that is not
      among the hidden ones. */
  lemma DetectionInRuns(states: seq<State>, steps: seq<Step>, n: nat, d: string, p: Pass, r: DedupResult, x: string)
    requires p.simhash.numBands > 0 && p.simhash.IdenticalReach() < p.simhash.numBands
    requires IsRunUnder(states, steps, p.simhash) && n <= |steps| && IsFirst(states[n].docs, states[n].bands, d, p, r)
    ensures r.bodyMatch == IdenticalLevel ==>
      && r.duplicateDocId.Some? && r.duplicateDocId.value in D.ScanSet(states[n].docs, p.kbId, d)
      && D.Distance(states[n].docs, p.fingerprint, r.duplicateDocId.value) <= p.simhash.IdenticalReach()
    ensures x in D.ScanSet(states[n].docs, p.kbId, d) && D.Distance(states[n].docs, p.fingerprint, x) <= p.simhash.IdenticalReach() ==>
      || (r.bodyMatch == IdenticalLevel && r.duplicateDocId.Some?
          && D.Distance(states[n].docs, p.fingerprint, r.duplicateDocId.value) <= D.Distance(states[n].docs, p.fingerprint, x))
      || exists i :: 0 <= i < n && x in HiddenBy(states[i], steps[i], p.simhash) && Unsettled(states, steps, x, i, n)
  {
    hide Next, HiddenBy, SettledBy, Enabled, D.Distance, D.Shows, D.IsVerdict, Close, OutOfStep, Under, Unsettled;
    var s := states[n];
    RowsStayPlaced(states, steps, n);
    FirstIsVerdict(s, d, p, r);
    D.DetectionFindsShown(s.docs, s.bands, p.kbId, d, p.fingerprint, p.simhash, p.titleHash, r);
    if x in D.ScanSet(s.docs, p.kbId, d) {
      ShowsIff(s, x, p.simhash);
      HiddenIff(states, steps, n, x, p.simhash);
    }
  }

  lemma FirstIsVerdict(s: State, d: string, p: Pass, r: DedupResult)
    requires p.simhash.numBands > 0 && IsFirst(s.docs, s.bands, d, p, r)
    ensures D.IsVerdict(r, s.docs, D.IndexedClose(s.docs, s.bands, p.kbId, d, p.fingerprint, p.simhash), p.fingerprint, p.titleHash,
                        p.simhash.identicalThreshold)
  {
  }
}
