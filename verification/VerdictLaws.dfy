/** What verdicts keep: when a run ends stable, at most one indexed document of a pair, exact chunk
    movement, and the forest of `duplicate_of` links. */
module VerdictLaws {
  import opened DedupPass
  import opened DedupTypes
  import opened Verdict
  import opened Wrappers

  // ---------------------------------------------------------------- detection changes no status

  /** The creation instant a run goes by: the one its document states, else the one in its row. */
  function InstantOf(s: State, d: string, p: Pass): Option<int>
    requires d in s.docs
  {
    if p.createdAt.Some? then p.createdAt else s.docs[d].createdAt
  }

  /** The dedup pass records hashes in the document's own row, and touches no points. */
  lemma DetectingKeepsRows(s: State, d: string, p: Pass, writes: nat)
    ensures var s' := Detecting(s, d, p, writes);
      && s'.docs.Keys == s.docs.Keys && s'.chunks == s.chunks && s'.parents == s.parents
      && (forall x :: x in s.docs && x != d ==> s'.docs[x] == s.docs[x])
      && (d in s.docs ==> s'.docs[d] == s.docs[d].(contentSimhash := s'.docs[d].contentSimhash, titleHash := s'.docs[d].titleHash,
                                                   createdAt := InstantOf(s, d, p)))
  {
  }

  lemma {:induction false} ApplyAllKeepsRows(s: State, es: seq<Effect>)
    ensures ApplyAll(s, es).docs.Keys == s.docs.Keys
    ensures forall d :: d in s.docs ==> ApplyAll(s, es).docs[d].kbId == s.docs[d].kbId
  {
    if es != [] {
      ApplyAllKeepsRows(s, es[..|es| - 1]);
    }
  }

  lemma UpsertKeepsDocs(s: State, d: string, u: Upsert)
    ensures Upserted(s, d, u).docs == s.docs
  {
  }

  lemma FailureKeepsOthers(s: State, d: string, how: Marking)
    ensures SetFailed(s, d, how).docs.Keys == s.docs.Keys
    ensures forall x :: x in s.docs && x != d ==> SetFailed(s, d, how).docs[x] == s.docs[x]
    ensures d in s.docs ==> SetFailed(s, d, how).docs[d] == s.docs[d].(status := if how == Marked then Failed else s.docs[d].status)
  {
    hide Apply;
    if d in s.docs {
      PurgeKeepsDocs(s, Purge(d, s.docs[d].kbId, true));
    }
  }

  lemma IngestKeepsKeys(s: State, d: string, c: Course)
    requires Fits(s, d, c)
    ensures IngestRun(s, d, c).docs.Keys == s.docs.Keys
  {
    hide Plan, NeedsIndexing, ApplyAll, Detecting, SetFailed, Upserted;
    var s0 := Processing(s, d);
    forall s1: State, how
      ensures SetFailed(s1, d, how).docs.Keys == s1.docs.Keys
    {
      FailureKeepsOthers(s1, d, how);
    }
    forall s1: State, es
      ensures ApplyAll(s1, es).docs.Keys == s1.docs.Keys
    {
      ApplyAllKeepsRows(s1, es);
    }
    forall s1: State, u
      ensures Upserted(s1, d, u).docs == s1.docs
    {
      UpsertKeepsDocs(s1, d, u);
    }
    forall p, writes
      ensures Detecting(s0, d, p, writes).docs.Keys == s0.docs.Keys
    {
      DetectingKeepsRows(s0, d, p, writes);
    }
  }

  // ---------------------------------------------------------------- one of the pair

  /** The stages named another, indexed document. */
  ghost predicate NamesIndexed(s: State, d: string, r: DedupResult) {
    && r.bodyMatch != NoMatch && r.duplicateDocId.Some? && r.duplicateDocId.value != ""
    && r.duplicateDocId.value != d && r.duplicateDocId.value in s.docs
    && s.docs[r.duplicateDocId.value].status == Indexed
    && (r.bodyMatch == IdenticalLevel ==> !r.needsIndexing)
  }

  /** The verdict is one the newer document can win, and the incoming one is newer. */
  predicate IncomingTakesAll(docs: map<string, Doc>, d: string, r: DedupResult) {
    && r.duplicateDocId.Some?
    && (r.bodyMatch == Similar || (r.bodyMatch == IdenticalLevel && r.titleMatch == Changed))
    && ResolveNewer(docs, d, r.duplicateDocId.value) == IncomingWins
  }

  lemma PrefixOfPlan(s: State, es: seq<Effect>, done: nat)
    requires done <= |es| && (|es| == 1 || |es| == 2 || |es| == 4)
    ensures done == 0 ==> ApplyAll(s, es[..done]) == s
    ensures done == 1 ==> ApplyAll(s, es[..done]) == Apply(s, es[0])
    ensures done == 2 ==> ApplyAll(s, es[..done]) == Apply(Apply(s, es[0]), es[1])
    ensures done == 3 ==> ApplyAll(s, es[..done]) == Apply(Apply(Apply(s, es[0]), es[1]), es[2])
    ensures done == 4 ==> ApplyAll(s, es[..done]) == Apply(Apply(Apply(Apply(s, es[0]), es[1]), es[2]), es[3])
  {
    if done == 1 {
      assert es[..1] == [es[0]];
      AppliedOne(s, es[0]);
    } else if done == 2 {
      assert es[..2] == [es[0], es[1]];
      AppliedTwo(s, es[0], es[1]);
    } else if done == 3 {
      assert es[..3][..2] == [es[0], es[1]];
      AppliedTwo(s, es[0], es[1]);
    } else if done == 4 {
      assert es[..4] == [es[0], es[1], es[2], es[3]];
      AppliedFour(s, es[0], es[1], es[2], es[3]);
    }
  }

  /** What one write does to a status. */
  function StatusAfter(e: Effect, x: string, status: Status): Status {
    match e
    case Outdate(d, _) => if d == x then Outdated else status
    case Reindexed(d, _) => if d == x then Indexed else status
    case _ => status
  }

  lemma ApplyStatus(s: State, e: Effect, x: string)
    requires x in s.docs
    ensures x in Apply(s, e).docs && Apply(s, e).docs[x].status == StatusAfter(e, x, s.docs[x].status)
  {
  }

  /** The status of `x` after the first `done` writes. */
  function StatusAfterAll(es: seq<Effect>, x: string, status: Status, done: nat): Status
    requires done <= |es|
  {
    if done == 0 then status else StatusAfter(es[done - 1], x, StatusAfterAll(es, x, status, done - 1))
  }

  lemma {:induction false} PrefixStatus(s: State, es: seq<Effect>, x: string, done: nat)
    requires x in s.docs && done <= |es|
    ensures x in ApplyAll(s, es[..done]).docs
    ensures ApplyAll(s, es[..done]).docs[x].status == StatusAfterAll(es, x, s.docs[x].status, done)
    decreases done
  {
    hide Apply, StatusAfter;
    if done > 0 {
      PrefixStatus(s, es, x, done - 1);
      assert es[..done][..done - 1] == es[..done - 1];
      ApplyStatus(ApplyAll(s, es[..done - 1]), es[done - 1], x);
    }
  }

  /** The four plans a verdict on a named document can have. */
  lemma PlanShape(docs: map<string, Doc>, d: string, r: DedupResult)
    requires r.bodyMatch != NoMatch && Named(r.duplicateDocId)
    ensures var plan, other := Plan(docs, d, r), r.duplicateDocId.value;
      if IncomingTakesAll(docs, d, r) then
        if r.bodyMatch == Similar then |plan| == 2 && plan[0].Purge? && plan[0].d == other && plan[1] == Outdate(other, Some(d))
        else
          && |plan| == 4 && plan[0].Transfer? && plan[1] == Outdate(other, Some(d)) && plan[2].Purge? && plan[2].d == other
          && plan[3].Reindexed? && plan[3].d == d
      else
        |plan| == (if r.bodyMatch == Similar then 2 else 1)
        && plan[0] == Outdate(d, r.duplicateDocId) && (|plan| == 2 ==> plan[1].Purge? && plan[1].d == d)
  {
  }

  /** Statuses of the pair after the first `done` writes of the verdict. */
  lemma PairAfter(s: State, d: string, r: DedupResult, done: nat)
    requires d in s.docs && NamesIndexed(s, d, r) && s.docs[d].status == Running && done <= |Plan(s.docs, d, r)|
    ensures var s' := ApplyAll(s, Plan(s.docs, d, r)[..done]);
      var other := r.duplicateDocId.value;
      && s'.docs.Keys == s.docs.Keys
      && s'.docs[other].status == (if IncomingTakesAll(s.docs, d, r) && done >= 2 then Outdated else Indexed)
      && s'.docs[d].status ==
           (if IncomingTakesAll(s.docs, d, r) then (if done == 4 then Indexed else Running)
            else if done >= 1 then Outdated else Running)
    ensures |Plan(s.docs, d, r)| ==
      if !IncomingTakesAll(s.docs, d, r) then (if r.bodyMatch == Similar then 2 else 1) else if r.bodyMatch == Similar then 2 else 4
    ensures NeedsIndexing(s.docs, d, r) <==> IncomingTakesAll(s.docs, d, r) && r.bodyMatch == Similar
  {
    hide Plan, ResolveNewer, Apply, ApplyAll;
    var plan, other := Plan(s.docs, d, r), r.duplicateDocId.value;
    PlanShape(s.docs, d, r);
    ApplyAllKeepsRows(s, plan[..done]);
    PrefixStatus(s, plan, d, done);
    PrefixStatus(s, plan, other, done);
    FourSteps(plan, d, s.docs[d].status, done);
    FourSteps(plan, other, s.docs[other].status, done);
  }

  lemma FourSteps(es: seq<Effect>, x: string, status: Status, done: nat)
    requires done <= |es| <= 4
    ensures done == 0 ==> StatusAfterAll(es, x, status, done) == status
    ensures done == 1 ==> StatusAfterAll(es, x, status, done) == StatusAfter(es[0], x, status)
    ensures done == 2 ==> StatusAfterAll(es, x, status, done) == StatusAfter(es[1], x, StatusAfter(es[0], x, status))
    ensures done == 3 ==>
      StatusAfterAll(es, x, status, done) == StatusAfter(es[2], x, StatusAfter(es[1], x, StatusAfter(es[0], x, status)))
    ensures done == 4 ==>
      StatusAfterAll(es, x, status, done)
      == StatusAfter(es[3], x, StatusAfter(es[2], x, StatusAfter(es[1], x, StatusAfter(es[0], x, status))))
  {
    hide StatusAfter;
    if done == 4 {
      assert StatusAfterAll(es, x, status, 3) == StatusAfter(es[2], x, StatusAfterAll(es, x, status, 2));
    }
  }

  /** The run breaks off after the named document has been marked outdated. */
  predicate FailsPastOutdating(docs: map<string, Doc>, d: string, c: Course) {
    match c
    case FailsInVerdict(_, r, done, _) => IncomingTakesAll(docs, d, r) && done >= 2
    case FailsAfterVerdict(_, _, _, _) => true
    case _ => false
  }

  /** The pass of a run that got to its verdict. */
  function PassOf(c: Course): Option<Pass> {
    if c.FailsInVerdict? || c.FailsAfterVerdict? || c.Completes? then Some(c.pass) else None
  }

  function ResultOf(c: Course): Option<DedupResult> {
    if c.FailsInVerdict? || c.FailsAfterVerdict? || c.Completes? then Some(c.result) else None
  }

  /** The run's result, if it got one, is an answer of its pass over the stores as they were. */
  ghost predicate IsFound(s: State, d: string, c: Course) {
    var s1 := Processing(s, d);
    ResultOf(c).Some? ==> Answers(s1.docs, s1.bands, s1.signatures, d, c.pass, c.result)
  }

  /** Then it names another document that is indexed, with no link of its own. */
  lemma FoundNamesIndexed(s: State, d: string, c: Course)
    requires "" !in s.docs && IsFound(s, d, c) && ResultOf(c).Some?
    ensures NamesAnother(Processing(s, d).docs, d, c.result)
    ensures c.result.bodyMatch != NoMatch ==> NamesIndexed(Detected(s, d, c.pass), d, c.result)
  {
    hide Answers, Detecting;
    var s1 := Processing(s, d);
    PassNamesAnother(s1.docs, s1.bands, s1.signatures, d, c.pass, c.result);
    DetectingKeepsRows(s1, d, c.pass, 3);
  }

  /** After a verdict naming a document, never both are indexed; and exactly one is, unless the run
      breaks off after that document was marked outdated, which leaves neither. */
  lemma PairOutcomeIff(s: State, d: string, c: Course)
    requires d in s.docs && "" !in s.docs && Fits(s, d, c) && IsFound(s, d, c)
    requires ResultOf(c).Some? && c.result.bodyMatch != NoMatch
    ensures c.result.duplicateDocId.Some?
    ensures var s', other := IngestRun(s, d, c), c.result.duplicateDocId.value;
      && other in s'.docs && d in s'.docs && other != d
      && !(s'.docs[d].status == Indexed && s'.docs[other].status == Indexed)
      && (s'.docs[d].status == Indexed || s'.docs[other].status == Indexed
          <==> !FailsPastOutdating(Detected(s, d, c.pass).docs, d, c))
  {
    hide Plan, NeedsIndexing, ApplyAll, IncomingTakesAll, Answers, Detecting, SetFailed, Upserted;
    FoundNamesIndexed(s, d, c);
    DetectingKeepsRows(Processing(s, d), d, c.pass, 3);
    var s1, r := Detected(s, d, c.pass), c.result;
    var plan, other := Plan(s1.docs, d, r), r.duplicateDocId.value;
    assert plan[..|plan|] == plan;
    PairAfter(s1, d, r, |plan|);
    var judged := ApplyAll(s1, plan);
    match c
    case FailsInVerdict(p, _, done, how) =>
      PairAfter(s1, d, r, done);
      FailureKeepsOthers(ApplyAll(s1, plan[..done]), d, how);
    case FailsAfterVerdict(p, _, partial, how) =>
      FailureKeepsOthers(judged, d, how);
      if partial.Some? {
        UpsertKeepsDocs(judged, d, partial.value);
        FailureKeepsOthers(Upserted(judged, d, partial.value), d, how);
      }
    case Completes(p, _, u) =>
      UpsertKeepsDocs(judged, d, u);
  }

  /** Of a completed run's pair the newer document ends indexed, and the other outdated with a link to
      it: the incoming one must have been created later, unless the instant of the other is unknown. The
      instant the incoming document states counts before the one in its row.
      An identical title always leaves the document found in place. */
  lemma NewerEndsIndexed(s: State, d: string, c: Course)
    requires d in s.docs && "" !in s.docs && Fits(s, d, c) && IsFound(s, d, c) && c.Completes? && c.result.bodyMatch != NoMatch
    ensures c.result.duplicateDocId.Some? && c.result.duplicateDocId.value in s.docs && c.result.duplicateDocId.value != d
    ensures var s', r, other := IngestRun(s, d, c), c.result, c.result.duplicateDocId.value;
      var incoming, existing := if c.pass.createdAt.Some? then c.pass.createdAt else s.docs[d].createdAt, s.docs[other].createdAt;
      && d in s'.docs && other in s'.docs
      && if (r.bodyMatch == Similar || r.titleMatch == Changed)
            && (existing == None || (incoming.Some? && incoming.value > existing.value)) then
           s'.docs[d].status == Indexed && s'.docs[other].status == Outdated && s'.docs[other].duplicateOf == Some(d)
         else
           s'.docs[d].status == Outdated && s'.docs[d].duplicateOf == Some(other) && s'.docs[other] == s.docs[other]
  {
    hide Plan, ApplyAll, Answers, Detecting, Upserted, NeedsIndexing;
    FoundNamesIndexed(s, d, c);
    DetectingKeepsRows(Processing(s, d), d, c.pass, 3);
    var s1, r := Detected(s, d, c.pass), c.result;
    var plan, other := Plan(s1.docs, d, r), r.duplicateDocId.value;
    PlanShape(s1.docs, d, r);
    PrefixOfPlan(s1, plan, |plan|);
    assert plan[..|plan|] == plan;
    PairAfter(s1, d, r, |plan|);
    LinksAfter(s1, d, r);
    UpsertKeepsDocs(ApplyAll(s1, plan), d, c.upserted);
  }

  /** The loser of a verdict is linked to the winner, whose row keeps its own link. */
  lemma LinksAfter(s: State, d: string, r: DedupResult)
    requires d in s.docs && NamesIndexed(s, d, r)
    ensures var s', other := ApplyAll(s, Plan(s.docs, d, r)), r.duplicateDocId.value;
      && other in s'.docs && d in s'.docs
      && if IncomingTakesAll(s.docs, d, r) then s'.docs[other].duplicateOf == Some(d)
         else s'.docs[d].duplicateOf == Some(other) && s'.docs[other] == s.docs[other]
  {
    hide Plan, ApplyAll, ResolveNewer;
    var plan := Plan(s.docs, d, r);
    PlanShape(s.docs, d, r);
    PrefixOfPlan(s, plan, |plan|);
    assert plan[..|plan|] == plan;
  }

  // ---------------------------------------------------------------- stable endings

  /** A verdict that stops indexing leaves its document outdated or indexed. */
  lemma StoppedIsStable(s: State, d: string, r: DedupResult)
    requires d in s.docs && !NeedsIndexing(s.docs, d, r) && r.bodyMatch != NoMatch
    ensures ApplyAll(s, Plan(s.docs, d, r)).docs.Keys == s.docs.Keys
    ensures ApplyAll(s, Plan(s.docs, d, r)).docs[d].status == Outdated || ApplyAll(s, Plan(s.docs, d, r)).docs[d].status == Indexed
  {
    hide ApplyAll, Apply, ResolveNewer;
    var plan := Plan(s.docs, d, r);
    assert plan[..|plan|] == plan;
    ApplyAllKeepsRows(s, plan);
    PrefixStatus(s, plan, d, |plan|);
    FourSteps(plan, d, s.docs[d].status, |plan|);
  }

  /** Nothing escapes the run's failure handling, or what escapes finds the document stable: as it was
      before the run started, or outdated by the first write of a verdict it loses. */
  predicate EndsStable(s: State, d: string, c: Course)
    requires d in s.docs
  {
    match c
    case NeverStarts => !IsActive(s.docs[d].status)
    case Invalid(how) => how == Marked || !IsActive(s.docs[d].status)
    case FailsBeforeVerdict(p, writes, how) => how == Marked
    case FailsInVerdict(p, r, done, how) => how == Marked || (done >= 1 && !IncomingTakesAll(Detected(s, d, p).docs, d, r))
    case FailsAfterVerdict(p, r, partial, how) => how == Marked
    case Completes(p, r, u) => true
  }

  /** An ingest run on an existing row ends in a stable status if and only if nothing escapes its failure
      handling, save when the document is left as stable as it was, or outdated already. */
  lemma IngestEndsStableIff(s: State, d: string, c: Course)
    requires d in s.docs && "" !in s.docs && Fits(s, d, c) && IsFound(s, d, c)
    ensures IngestRun(s, d, c).docs.Keys == s.docs.Keys
    ensures !IsActive(IngestRun(s, d, c).docs[d].status) <==> EndsStable(s, d, c)
  {
    hide Plan, NeedsIndexing, ApplyAll, SetFailed, Detecting, Upserted, Answers, IncomingTakesAll;
    IngestKeepsKeys(s, d, c);
    match c
    case NeverStarts =>
    case Invalid(how) => FailureKeepsOthers(s, d, how);
    case FailsBeforeVerdict(p, writes, how) =>
      DetectingKeepsRows(Processing(s, d), d, p, writes);
      FailureKeepsOthers(Detecting(Processing(s, d), d, p, writes), d, how);
    case FailsInVerdict(p, r, done, how) => BrokenVerdictStatus(s, d, c);
    case FailsAfterVerdict(p, r, partial, how) => FailedAfterStatus(s, d, c);
    case Completes(p, r, u) => CompletedStatus(s, d, p, r, u);
  }

  lemma BrokenVerdictStatus(s: State, d: string, c: Course)
    requires d in s.docs && "" !in s.docs && Fits(s, d, c) && IsFound(s, d, c) && c.FailsInVerdict?
    ensures IngestRun(s, d, c).docs.Keys == s.docs.Keys
    ensures IngestRun(s, d, c).docs[d].status ==
      if c.how == Marked then Failed
      else if c.done >= 1 && !IncomingTakesAll(Detected(s, d, c.pass).docs, d, c.result) then Outdated else Running
  {
    hide Plan, NeedsIndexing, ApplyAll, SetFailed, Detecting, Answers, IncomingTakesAll;
    IngestKeepsKeys(s, d, c);
    FoundNamesIndexed(s, d, c);
    DetectingKeepsRows(Processing(s, d), d, c.pass, 3);
    var s1 := Detected(s, d, c.pass);
    NoMatchPlansNothing(s1.docs, d, c.result);
    PairAfter(s1, d, c.result, c.done);
    FailureKeepsOthers(ApplyAll(s1, Plan(s1.docs, d, c.result)[..c.done]), d, c.how);
  }

  lemma NoMatchPlansNothing(docs: map<string, Doc>, d: string, r: DedupResult)
    ensures r.bodyMatch == NoMatch <==> Plan(docs, d, r) == []
    ensures r.bodyMatch == NoMatch ==> NeedsIndexing(docs, d, r)
  {
  }

  lemma FailedAfterStatus(s: State, d: string, c: Course)
    requires d in s.docs && "" !in s.docs && Fits(s, d, c) && IsFound(s, d, c) && c.FailsAfterVerdict?
    ensures IngestRun(s, d, c).docs.Keys == s.docs.Keys
    ensures IngestRun(s, d, c).docs[d].status == if c.how == Marked then Failed else Running
  {
    hide Plan, NeedsIndexing, ApplyAll, SetFailed, Detecting, Answers, IncomingTakesAll, Upserted;
    IngestKeepsKeys(s, d, c);
    FoundNamesIndexed(s, d, c);
    DetectingKeepsRows(Processing(s, d), d, c.pass, 3);
    var s1 := Detected(s, d, c.pass);
    var plan := Plan(s1.docs, d, c.result);
    NoMatchPlansNothing(s1.docs, d, c.result);
    assert plan[..|plan|] == plan;
    var judged := ApplyAll(s1, plan);
    if c.result.bodyMatch == NoMatch {
      NothingApplied(s1);
    } else {
      PairAfter(s1, d, c.result, |plan|);
    }
    FailureKeepsOthers(judged, d, c.how);
    if c.partial.Some? {
      UpsertKeepsDocs(judged, d, c.partial.value);
      FailureKeepsOthers(Upserted(judged, d, c.partial.value), d, c.how);
    }
  }

  lemma NothingApplied(s: State)
    ensures ApplyAll(s, []) == s
  {
  }

  lemma CompletedStatus(s: State, d: string, p: Pass, r: DedupResult, u: Upsert)
    requires d in s.docs
    ensures IngestRun(s, d, Completes(p, r, u)).docs.Keys == s.docs.Keys
    ensures !IsActive(IngestRun(s, d, Completes(p, r, u)).docs[d].status)
  {
    hide Plan, ApplyAll, Detecting, Upserted, NeedsIndexing;
    IngestKeepsKeys(s, d, Completes(p, r, u));
    DetectingKeepsRows(Processing(s, d), d, p, 3);
    var s1 := Detected(s, d, p);
    ApplyAllKeepsRows(s1, Plan(s1.docs, d, r));
    NoMatchPlansNothing(s1.docs, d, r);
    if NeedsIndexing(s1.docs, d, r) {
      UpsertKeepsDocs(ApplyAll(s1, Plan(s1.docs, d, r)), d, u);
    } else {
      StoppedIsStable(s1, d, r);
    }
  }

  /** A run the worker dispatched, and whose start already fails, leaves its row running: what is raised
      there is caught by nothing that marks the document. */
  lemma EscapedRunStaysRunning(s: State, d: string)
    requires d in s.docs && s.docs[d].status == Running
    ensures IngestRun(s, d, NeverStarts) == s && IsActive(s.docs[d].status)
    ensures IngestRun(s, d, Invalid(Unread)).docs[d].status == Running
  {
  }

  // ---------------------------------------------------------------- chunks

  function Owned(s: State, kbId: string, d: string): set<ChunkKey> {
    set k | k in s.chunks && k.0 == kbId && s.chunks[k].docId == d
  }

  /** A title-changed win hands exactly the other document's points to the incoming one, relabelled,
      and leaves every other point as it was. */
  lemma TitleWinMovesChunks(s: State, d: string, dup: string)
    requires d != dup && dup != "" && d in s.docs && dup in s.docs && ResolveNewer(s.docs, d, dup) == IncomingWins
    ensures var s', kb := ApplyAll(s, PlanTitleChanged(s.docs, d, Some(dup))), s.docs[dup].kbId;
      && s'.chunks.Keys == s.chunks.Keys
      && Owned(s', kb, d) == Owned(s, kb, d) + Owned(s, kb, dup) && Owned(s', kb, dup) == {}
      && (forall k :: k in s.chunks && k in Owned(s, kb, dup) ==> s'.chunks[k] == Chunk(d, s.docs[d].title, s.docs[d].source))
      && (forall k :: k in s.chunks && k !in Owned(s, kb, dup) ==> s'.chunks[k] == s.chunks[k])
  {
    var plan := PlanTitleChanged(s.docs, d, Some(dup));
    AppliedFour(s, plan[0], plan[1], plan[2], plan[3]);
  }

  /** The chunk count copied with them is right exactly when the incoming document owned no points of
      its own before: those of an earlier ingest stay behind, uncounted. */
  lemma TitleWinCountIff(s: State, d: string, dup: string)
    requires d != dup && dup != "" && d in s.docs && dup in s.docs && ResolveNewer(s.docs, d, dup) == IncomingWins
    requires s.docs[dup].chunkCount == Some(|Owned(s, s.docs[dup].kbId, dup)|)
    ensures var s', kb := ApplyAll(s, PlanTitleChanged(s.docs, d, Some(dup))), s.docs[dup].kbId;
      d in s'.docs && (s'.docs[d].chunkCount == Some(|Owned(s', kb, d)|) <==> Owned(s, kb, d) == {})
  {
    var plan, kb := PlanTitleChanged(s.docs, d, Some(dup)), s.docs[dup].kbId;
    TitleWinMovesChunks(s, d, dup);
    AppliedFour(s, plan[0], plan[1], plan[2], plan[3]);
    assert Owned(s, kb, d) !! Owned(s, kb, dup);
  }

  /** A similar win removes exactly the other document's points. */
  lemma SimilarWinRemovesChunks(s: State, d: string, dup: string)
    requires d != dup && dup != "" && d in s.docs && dup in s.docs && ResolveNewer(s.docs, d, dup) == IncomingWins
    requires s.docs[dup].kbId != ""
    ensures var s' := ApplyAll(s, PlanSimilar(s.docs, d, Some(dup)));
      && s'.chunks.Keys == s.chunks.Keys - Owned(s, s.docs[dup].kbId, dup)
      && forall k :: k in s'.chunks ==> s'.chunks[k] == s.chunks[k]
  {
    var plan := PlanSimilar(s.docs, d, Some(dup));
    AppliedTwo(s, plan[0], plan[1]);
  }

  /** The upsert's points are fresh ones in the document's collection, labelled with its row. */
  ghost predicate IsUpsertOf(s: State, d: string, u: Upsert)
    requires d in s.docs
  {
    forall k :: k in u.points ==> k !in s.chunks && k.0 == s.docs[d].kbId && u.points[k] == Chunk(d, s.docs[d].title, s.docs[d].source)
  }

  /** The points a similar win removes: those of the other document, if it has a KB. */
  ghost function Lost(s: State, r: DedupResult): set<ChunkKey> {
    if r.bodyMatch == Similar && r.duplicateDocId.Some? && r.duplicateDocId.value in s.docs && s.docs[r.duplicateDocId.value].kbId != ""
    then Owned(s, s.docs[r.duplicateDocId.value].kbId, r.duplicateDocId.value) else {}
  }

  /** A run that finds nothing, or wins over a similar document, replaces exactly its document's points
      by the new ones, counts them, and keeps every other point but those of a document it replaces. */
  lemma IndexedRunStoresPoints(s: State, d: string, c: Course)
    requires d in s.docs && "" !in s.docs && Fits(s, d, c) && IsFound(s, d, c) && c.Completes? && IsUpsertOf(s, d, c.upserted)
    requires c.result.bodyMatch == NoMatch
          || (c.result.bodyMatch == Similar && IncomingTakesAll(Detected(s, d, c.pass).docs, d, c.result))
    ensures StoresPoints(s, IngestRun(s, d, c), d, c.upserted, s.chunks.Keys - Lost(s, c.result))
  {
    hide Plan, ApplyAll, Answers, Detecting, Index, NeedsIndexing, IncomingTakesAll, StoresPoints, Owned, Lost;
    var s1, r := Detected(s, d, c.pass), c.result;
    var judged := ApplyAll(s1, Plan(s1.docs, d, r));
    GoesOnToUpsert(s, d, c);
    JudgedPoints(s, d, c);
    IndexedPoints(judged, d, c.upserted);
    PointsAlike(s, judged, Index(judged, d, c.upserted), d, c.upserted);
  }

  /** Afterwards `d` is indexed with the points of `u`, all counted, and of the points `kept` all others stay. */
  ghost predicate StoresPoints(s: State, s': State, d: string, u: Upsert, kept: set<ChunkKey>)
    requires d in s.docs
  {
    var kb := s.docs[d].kbId;
    && d in s'.docs && s'.docs[d].status == Indexed && s'.docs[d].chunkCount == Some(|Owned(s', kb, d)|)
    && Owned(s', kb, d) == u.points.Keys && (d in s'.parents <==> u.hasParents)
    && s'.chunks.Keys == kept - Owned(s, kb, d) + u.points.Keys
    && KeepsLabels(s, s', u)
  }

  /** Every point is one of `u`, or as it was. */
  ghost predicate KeepsLabels(s: State, s': State, u: Upsert) {
    forall k :: k in s'.chunks ==> (k in u.points || k in s.chunks) && s'.chunks[k] == if k in u.points then u.points[k] else s.chunks[k]
  }

  lemma PointsAlike(s: State, judged: State, s': State, d: string, u: Upsert)
    requires d in s.docs && d in judged.docs && judged.docs[d].kbId == s.docs[d].kbId
    requires judged.chunks.Keys <= s.chunks.Keys && forall k :: k in judged.chunks ==> judged.chunks[k] == s.chunks[k]
    requires StoresPoints(judged, s', d, u, judged.chunks.Keys)
    ensures StoresPoints(s, s', d, u, judged.chunks.Keys)
  {
    hide Owned, KeepsLabels;
    var kb := s.docs[d].kbId;
    OwnedAlike(s, judged, kb, d);
    LabelsAlike(s, judged, s', u);
  }

  lemma LabelsAlike(s: State, judged: State, s': State, u: Upsert)
    requires judged.chunks.Keys <= s.chunks.Keys && forall k :: k in judged.chunks ==> judged.chunks[k] == s.chunks[k]
    requires KeepsLabels(judged, s', u)
    ensures KeepsLabels(s, s', u)
  {
  }

  lemma OwnedAlike(s: State, s': State, kbId: string, d: string)
    requires s'.chunks.Keys <= s.chunks.Keys && forall k :: k in s'.chunks ==> s'.chunks[k] == s.chunks[k]
    ensures s'.chunks.Keys - Owned(s', kbId, d) == s'.chunks.Keys - Owned(s, kbId, d)
  {
  }

  lemma GoesOnToUpsert(s: State, d: string, c: Course)
    requires d in s.docs && "" !in s.docs && IsFound(s, d, c) && c.Completes?
    requires c.result.bodyMatch == NoMatch
          || (c.result.bodyMatch == Similar && IncomingTakesAll(Detected(s, d, c.pass).docs, d, c.result))
    ensures NeedsIndexing(Detected(s, d, c.pass).docs, d, c.result)
  {
    hide Answers, Detecting, ResolveNewer, Plan;
    if c.result.bodyMatch == Similar {
      FoundNamesIndexed(s, d, c);
    }
  }

  lemma JudgedPoints(s: State, d: string, c: Course)
    requires d in s.docs && "" !in s.docs && IsFound(s, d, c) && c.Completes? && c.result.bodyMatch != IdenticalLevel
    requires NeedsIndexing(Detected(s, d, c.pass).docs, d, c.result)
    ensures var s1 := Detected(s, d, c.pass);
      var judged := ApplyAll(s1, Plan(s1.docs, d, c.result));
      && d in judged.docs && judged.docs[d].kbId == s.docs[d].kbId
      && judged.chunks.Keys == s.chunks.Keys - Lost(s, c.result) && forall k :: k in judged.chunks ==> judged.chunks[k] == s.chunks[k]
  {
    hide Answers, Detecting, ApplyAll, Apply, Plan, NeedsIndexing;
    DetectingKeepsRows(Processing(s, d), d, c.pass, 3);
    var s1, r := Detected(s, d, c.pass), c.result;
    var plan := Plan(s1.docs, d, r);
    ApplyAllKeepsRows(s1, plan);
    NoMatchPlansNothing(s1.docs, d, r);
    if r.bodyMatch == NoMatch {
      NothingApplied(s1);
    } else {
      FoundNamesIndexed(s, d, c);
      WinPurges(s1, d, r);
    }
  }

  lemma WinPurges(s: State, d: string, r: DedupResult)
    requires d in s.docs && NamesIndexed(s, d, r) && r.bodyMatch == Similar && NeedsIndexing(s.docs, d, r)
    ensures var judged := ApplyAll(s, Plan(s.docs, d, r));
      judged.chunks.Keys == s.chunks.Keys - Lost(s, r) && forall k :: k in judged.chunks ==> judged.chunks[k] == s.chunks[k]
  {
    hide ResolveNewer, ApplyAll;
    var plan := Plan(s.docs, d, r);
    AppliedTwo(s, plan[0], plan[1]);
  }

  lemma IndexedPoints(s: State, d: string, u: Upsert)
    requires d in s.docs && forall k :: k in u.points ==> k !in s.chunks && k.0 == s.docs[d].kbId && u.points[k].docId == d
    ensures StoresPoints(s, Index(s, d, u), d, u, s.chunks.Keys)
  {
    hide Upserted, Owned;
    UpsertedPoints(s, d, u);
    UpsertKeepsDocs(s, d, u);
    IndexIsUpsert(s, d, u);
    OwnedByChunks(Upserted(s, d, u), Index(s, d, u), s.docs[d].kbId, d);
  }

  lemma IndexIsUpsert(s: State, d: string, u: Upsert)
    requires d in s.docs && Upserted(s, d, u).docs == s.docs
    ensures var s', s1 := Index(s, d, u), Upserted(s, d, u);
      && s'.chunks == s1.chunks && s'.parents == s1.parents
      && d in s'.docs && s'.docs[d].status == Indexed && s'.docs[d].chunkCount == Some(|u.points.Keys|)
  {
    hide Upserted;
    assert |u.points| == |u.points.Keys|;
  }

  lemma OwnedByChunks(s: State, s': State, kbId: string, d: string)
    requires s'.chunks == s.chunks
    ensures Owned(s', kbId, d) == Owned(s, kbId, d)
  {
  }

  lemma UpsertedPoints(s: State, d: string, u: Upsert)
    requires d in s.docs && forall k :: k in u.points ==> k !in s.chunks && k.0 == s.docs[d].kbId && u.points[k].docId == d
    ensures var s', kb := Upserted(s, d, u), s.docs[d].kbId;
      && Owned(s', kb, d) == u.points.Keys && (d in s'.parents <==> u.hasParents)
      && s'.chunks.Keys == s.chunks.Keys - Owned(s, kb, d) + u.points.Keys
      && forall k :: k in s'.chunks ==> (k in u.points || k in s.chunks) && s'.chunks[k] == if k in u.points then u.points[k] else s.chunks[k]
  {
    var cleared := DeleteChunks(s, s.docs[d].kbId, d);
    assert cleared.chunks.Keys == s.chunks.Keys - Owned(s, s.docs[d].kbId, d);
  }

  /** A takeover that breaks off keeps the other document's points exactly when its verdict had written
      nothing yet. After one write they are gone, moved and purged with the incoming document or purged
      outright, although the other document is still indexed. */
  lemma BrokenTakeoverKeepsChunksIff(s: State, d: string, p: Pass, r: DedupResult, done: nat, how: Marking)
    requires d in s.docs && NamesIndexed(Detected(s, d, p), d, r) && IncomingTakesAll(Detected(s, d, p).docs, d, r)
    requires how != Unread && s.docs[d].kbId != "" && done < |Plan(Detected(s, d, p).docs, d, r)|
    requires s.docs[r.duplicateDocId.value].kbId == s.docs[d].kbId
    ensures Fits(s, d, FailsInVerdict(p, r, done, how))
    ensures var s', kb, other := IngestRun(s, d, FailsInVerdict(p, r, done, how)), s.docs[d].kbId, r.duplicateDocId.value;
      && Owned(s', kb, d) + Owned(s', kb, other) == (if done == 0 then Owned(s, kb, other) else {})
      && other in s'.docs && (s'.docs[other].status == Indexed <==> done < 2)
  {
    hide Detecting, ResolveNewer, Plan, ApplyAll, IncomingTakesAll, SetFailed;
    DetectingKeepsRows(Processing(s, d), d, p, 3);
    var s1 := Detected(s, d, p);
    var broken := ApplyAll(s1, Plan(s1.docs, d, r)[..done]);
    BrokenChunks(s1, d, r, done);
    StatusOfOther(s1, d, r, done);
    FailureKeepsOthers(broken, d, how);
    FailurePurges(broken, d, how);
  }

  lemma FailurePurges(s: State, d: string, how: Marking)
    requires d in s.docs && how != Unread && s.docs[d].kbId != ""
    ensures SetFailed(s, d, how).chunks == DeleteChunks(s, s.docs[d].kbId, d).chunks
  {
  }

  lemma BrokenChunks(s: State, d: string, r: DedupResult, done: nat)
    requires d in s.docs && NamesIndexed(s, d, r) && IncomingTakesAll(s.docs, d, r) && done < |Plan(s.docs, d, r)|
    requires s.docs[d].kbId != "" && s.docs[r.duplicateDocId.value].kbId == s.docs[d].kbId
    ensures var s', other := ApplyAll(s, Plan(s.docs, d, r)[..done]), r.duplicateDocId.value;
      && d in s'.docs && s'.docs[d].kbId == s.docs[d].kbId
      && if done == 0 then s'.chunks == s.chunks
         else Owned(s', s.docs[d].kbId, other) == {}
  {
    hide Plan, Apply, ApplyAll, ResolveNewer, IncomingTakesAll, Owned;
    var plan, kb, other := Plan(s.docs, d, r), s.docs[d].kbId, r.duplicateDocId.value;
    PlanShape(s.docs, d, r);
    PrefixOfPlan(s, plan, done);
    ApplyAllKeepsRows(s, plan[..done]);
    FirstWriteTakes(s, d, r);
    var s1 := Apply(s, plan[0]);
    WriteGivesNone(s1, plan[1], kb, other);
    if done == 3 {
      WriteGivesNone(Apply(s1, plan[1]), plan[2], kb, other);
    }
  }

  /** The first write of a takeover leaves the other document without points. */
  lemma FirstWriteTakes(s: State, d: string, r: DedupResult)
    requires d in s.docs && NamesIndexed(s, d, r) && IncomingTakesAll(s.docs, d, r)
    requires s.docs[d].kbId != "" && s.docs[r.duplicateDocId.value].kbId == s.docs[d].kbId
    ensures Plan(s.docs, d, r) != [] && Owned(Apply(s, Plan(s.docs, d, r)[0]), s.docs[d].kbId, r.duplicateDocId.value) == {}
  {
    hide ResolveNewer;
  }

  lemma WriteGivesNone(s: State, e: Effect, kbId: string, x: string)
    requires !e.Transfer? && Owned(s, kbId, x) == {}
    ensures Owned(Apply(s, e), kbId, x) == {}
  {
    assert forall k :: k in Apply(s, e).chunks ==> k in s.chunks && Apply(s, e).chunks[k] == s.chunks[k];
    assert forall k :: k in s.chunks && k !in Owned(s, kbId, x) ==> !(k.0 == kbId && s.chunks[k].docId == x);
  }

  lemma StatusOfOther(s: State, d: string, r: DedupResult, done: nat)
    requires d in s.docs && NamesIndexed(s, d, r) && IncomingTakesAll(s.docs, d, r) && done < |Plan(s.docs, d, r)|
    ensures var s', other := ApplyAll(s, Plan(s.docs, d, r)[..done]), r.duplicateDocId.value;
      other in s'.docs && (s'.docs[other].status == Indexed <==> done < 2)
  {
    var plan := Plan(s.docs, d, r);
    PrefixOfPlan(s, plan, done);
    ApplyAllKeepsRows(s, plan[..done]);
  }

  // ---------------------------------------------------------------- what is left of a loser

  /** The dedup tables and the ancestor rows know nothing of `d`. */
  ghost predicate Forgotten(s: State, d: string) {
    (forall i: nat :: (d, i) !in s.bands) && d !in s.signatures && d !in s.parents
  }

  lemma PurgedIsForgotten(s: State, e: Effect)
    requires e.Purge?
    ensures Forgotten(Apply(s, e), e.d)
    ensures forall x :: Forgotten(s, x) ==> Forgotten(Apply(s, e), x)
  {
  }

  lemma OutdateForgets(s: State, e: Effect, x: string)
    requires e.Outdate? || e.Reindexed?
    ensures Forgotten(Apply(s, e), x) <==> Forgotten(s, x)
  {
  }

  /** A completed run leaves nothing of the document it outdates in the dedup tables and the ancestor rows,
      unless that is the incoming one and only its title or date told against it: its body was that of
      the other. */
  lemma LoserIsForgotten(s: State, d: string, c: Course)
    requires d in s.docs && "" !in s.docs && Fits(s, d, c) && IsFound(s, d, c) && c.Completes? && c.result.bodyMatch != NoMatch
    requires c.result.bodyMatch == Similar || IncomingTakesAll(Detected(s, d, c.pass).docs, d, c.result)
    ensures c.result.duplicateDocId.Some?
    ensures var s' := IngestRun(s, d, c);
      Forgotten(s', if IncomingTakesAll(Detected(s, d, c.pass).docs, d, c.result) then c.result.duplicateDocId.value else d)
  {
    hide Plan, ApplyAll, Apply, Answers, Detecting, Upserted, NeedsIndexing, Forgotten, ResolveNewer;
    FoundNamesIndexed(s, d, c);
    DetectingKeepsRows(Processing(s, d), d, c.pass, 3);
    var s1, r := Detected(s, d, c.pass), c.result;
    var plan := Plan(s1.docs, d, r);
    PlanShape(s1.docs, d, r);
    PrefixOfPlan(s1, plan, |plan|);
    assert plan[..|plan|] == plan;
    PairAfter(s1, d, r, |plan|);
    if IncomingTakesAll(s1.docs, d, r) {
      if r.bodyMatch == Similar {
        PurgedIsForgotten(s1, plan[0]);
        OutdateForgets(Apply(s1, plan[0]), plan[1], plan[0].d);
      } else {
        var s3 := Apply(Apply(s1, plan[0]), plan[1]);
        PurgedIsForgotten(s3, plan[2]);
        OutdateForgets(Apply(s3, plan[2]), plan[3], plan[2].d);
      }
      UpsertForgets(ApplyAll(s1, plan), d, c.upserted, r.duplicateDocId.value);
    } else {
      PurgedIsForgotten(Apply(s1, plan[0]), plan[1]);
    }
  }

  lemma UpsertForgets(s: State, d: string, u: Upsert, x: string)
    requires x != d && Forgotten(s, x)
    ensures Forgotten(Index(s, d, u), x)
  {
  }

  /** A run whose failure handling got past reading the row leaves nothing of its document: no points, no
      bands, no signature, no ancestor rows. */
  lemma FailedIsForgotten(s: State, d: string, c: Course)
    requires d in s.docs && s.docs[d].kbId != "" && Fits(s, d, c)
    requires (c.Invalid? || c.FailsBeforeVerdict? || c.FailsInVerdict? || c.FailsAfterVerdict?) && c.how != Unread
    ensures Forgotten(IngestRun(s, d, c), d) && Owned(IngestRun(s, d, c), s.docs[d].kbId, d) == {}
  {
    hide Plan, ApplyAll, Detecting, Upserted, NeedsIndexing, Forgotten, Owned, SetFailed;
    match c
    case Invalid(how) => FailureForgets(s, d, s.docs[d].kbId, how);
    case FailsBeforeVerdict(p, writes, how) =>
      DetectingKeepsRows(Processing(s, d), d, p, writes);
      FailureForgets(Detecting(Processing(s, d), d, p, writes), d, s.docs[d].kbId, how);
    case FailsInVerdict(p, r, done, how) =>
      DetectingKeepsRows(Processing(s, d), d, p, 3);
      var s1 := Detected(s, d, p);
      var plan := Plan(s1.docs, d, r)[..done];
      ApplyAllKeepsRows(s1, plan);
      FailureForgets(ApplyAll(s1, plan), d, s.docs[d].kbId, how);
    case FailsAfterVerdict(p, r, partial, how) =>
      DetectingKeepsRows(Processing(s, d), d, p, 3);
      var s1 := Detected(s, d, p);
      var judged := ApplyAll(s1, Plan(s1.docs, d, r));
      ApplyAllKeepsRows(s1, Plan(s1.docs, d, r));
      FailureForgets(judged, d, s.docs[d].kbId, how);
      if partial.Some? {
        UpsertKeepsDocs(judged, d, partial.value);
        FailureForgets(Upserted(judged, d, partial.value), d, s.docs[d].kbId, how);
      }
  }

  lemma FailureForgets(s: State, d: string, kbId: string, how: Marking)
    requires d in s.docs && s.docs[d].kbId == kbId != "" && how != Unread
    ensures Forgotten(SetFailed(s, d, how), d) && Owned(SetFailed(s, d, how), kbId, d) == {}
  {
    hide Forgotten;
    PurgedIsForgotten(s, Purge(d, kbId, true));
    FailurePurges(s, d, how);
    SameTablesForget(Apply(s, Purge(d, kbId, true)), SetFailed(s, d, how), d);
  }

  lemma SameTablesForget(s: State, s': State, d: string)
    requires s'.bands == s.bands && s'.signatures == s.signatures && s'.parents == s.parents && Forgotten(s, d)
    ensures Forgotten(s', d)
  {
  }

  // ---------------------------------------------------------------- the forest of links

  /** Where the link of an outdated document leads; None where it stops. */
  function Link(docs: map<string, Doc>, d: string): Option<string> {
    if d in docs && docs[d].status == Outdated && Named(docs[d].duplicateOf) then docs[d].duplicateOf else None
  }

  /** Following links from `d` stops within `n` steps. */
  ghost predicate Ends(docs: map<string, Doc>, d: string, n: nat)
    decreases n
  {
    match Link(docs, d)
    case None => true
    case Some(next) => n > 0 && Ends(docs, next, n - 1)
  }

  ghost predicate Stops(docs: map<string, Doc>, d: string) {
    exists n: nat :: Ends(docs, d, n)
  }

  ghost predicate IsForest(docs: map<string, Doc>) {
    forall d :: Stops(docs, d)
  }

  function Follow(docs: map<string, Doc>, d: string, n: nat): string
    decreases n
  {
    if n == 0 then d
    else match Link(docs, d)
      case None => d
      case Some(next) => Follow(docs, next, n - 1)
  }

  /** Every path of links stops at a document that is not outdated, at a missing row, or at an empty link. */
  lemma {:induction false} PathsEnd(docs: map<string, Doc>, d: string, n: nat)
    requires Ends(docs, d, n)
    ensures var last := Follow(docs, d, n);
      last !in docs || docs[last].status != Outdated || !Named(docs[last].duplicateOf)
    decreases n
  {
    match Link(docs, d)
    case None =>
    case Some(next) =>
      if n > 0 {
        PathsEnd(docs, next, n - 1);
      }
  }

  lemma {:induction false} EndsAlong(docs: map<string, Doc>, d: string, n: nat, k: nat)
    requires Ends(docs, d, n) && k <= n
    ensures Ends(docs, Follow(docs, d, k), n - k)
    decreases k
  {
    match Link(docs, d)
    case None =>
    case Some(next) =>
      if k > 0 {
        EndsAlong(docs, next, n - 1, k - 1);
      }
  }

  /** No cycle: a document with a link is never reached from itself. */
  lemma {:induction false} NoCycle(docs: map<string, Doc>, d: string, n: nat, k: nat)
    requires Ends(docs, d, n) && k > 0 && Link(docs, d).Some?
    ensures Follow(docs, d, k) != d
    decreases n
  {
    if Follow(docs, d, k) == d {
      if k <= n {
        EndsAlong(docs, d, n, k);
        NoCycle(docs, d, n - k, k);
      } else {
        PathsEnd(docs, d, n);
        FollowPast(docs, d, n, k);
      }
      assert false;
    }
  }

  lemma {:induction false} FollowPast(docs: map<string, Doc>, d: string, n: nat, k: nat)
    requires Ends(docs, d, n) && n <= k
    ensures Follow(docs, d, k) == Follow(docs, d, n)
    decreases n
  {
    match Link(docs, d)
    case None =>
    case Some(next) => FollowPast(docs, next, n - 1, k - 1);
  }

  /** Adding a link from `u` to a document with none, and cutting any others, keeps every path finite. */
  lemma {:induction false} EndsAfterLinking(docs: map<string, Doc>, docs': map<string, Doc>, u: string, v: Option<string>, d: string, n: nat)
    requires Ends(docs, d, n)
    requires forall x :: x != u ==> Link(docs', x) == Link(docs, x) || Link(docs', x) == None
    requires Link(docs', u) == v || Link(docs', u) == None
    requires v.Some? ==> v.value != u && Link(docs, v.value) == None
    ensures Ends(docs', d, n + 1)
    decreases n
  {
    if d == u {
      match Link(docs', u)
      case None =>
      case Some(next) => assert Link(docs', next) == None;
    } else {
      match Link(docs', d)
      case None =>
      case Some(next) => EndsAfterLinking(docs, docs', u, v, next, n - 1);
    }
  }

  lemma ForestAfterLinking(docs: map<string, Doc>, docs': map<string, Doc>, u: string, v: Option<string>)
    requires IsForest(docs)
    requires forall x :: x != u ==> Link(docs', x) == Link(docs, x) || Link(docs', x) == None
    requires Link(docs', u) == v || Link(docs', u) == None
    requires v.Some? ==> v.value != u && Link(docs, v.value) == None
    ensures IsForest(docs')
  {
    forall d
      ensures Stops(docs', d)
    {
      assert Stops(docs, d);
      var n: nat :| Ends(docs, d, n);
      EndsAfterLinking(docs, docs', u, v, d, n);
    }
  }

  /** Detection names a document other than the incoming one, and one that has no link (it was indexed). */
  ghost predicate MayName(docs: map<string, Doc>, d: string, dup: Option<string>) {
    Named(dup) ==> dup.value != d && Link(docs, dup.value) == None
  }

  lemma OutdateKeepsForest(s: State, u: string, v: Option<string>)
    requires IsForest(s.docs) && MayName(s.docs, u, v)
    ensures IsForest(Apply(s, Outdate(u, v)).docs)
  {
    ForestAfterLinking(s.docs, Apply(s, Outdate(u, v)).docs, u, if Named(v) then v else None);
  }

  lemma UnlinkKeepsForest(docs: map<string, Doc>, docs': map<string, Doc>)
    requires IsForest(docs) && forall x :: Link(docs', x) == Link(docs, x) || Link(docs', x) == None
    ensures IsForest(docs')
  {
    forall d
      ensures Stops(docs', d)
    {
      assert Stops(docs, d);
      var n: nat :| Ends(docs, d, n);
      EndsAfterCutting(docs, docs', d, n);
    }
  }

  lemma {:induction false} EndsAfterCutting(docs: map<string, Doc>, docs': map<string, Doc>, d: string, n: nat)
    requires Ends(docs, d, n) && forall x :: Link(docs', x) == Link(docs, x) || Link(docs', x) == None
    ensures Ends(docs', d, n)
    decreases n
  {
    match Link(docs', d)
    case None =>
    case Some(next) => EndsAfterCutting(docs, docs', next, n - 1);
  }

  /** Every write of every verdict, even of one that breaks off, keeps the links a forest. */
  lemma VerdictKeepsForest(s: State, d: string, r: DedupResult, done: nat)
    requires IsForest(s.docs) && Link(s.docs, d) == None && MayName(s.docs, d, r.duplicateDocId)
    requires done <= |Plan(s.docs, d, r)|
    ensures IsForest(ApplyAll(s, Plan(s.docs, d, r)[..done]).docs)
  {
    hide IsForest, Link, Apply, ResolveNewer;
    var plan := Plan(s.docs, d, r);
    if plan != [] && done > 0 {
      PrefixOfPlan(s, plan, done);
      if plan[0].Outdate? {
        OutdateKeepsForest(s, plan[0].d, plan[0].duplicateOf);
        if done == 2 {
          PurgeKeepsDocs(Apply(s, plan[0]), plan[1]);
        }
      } else {
        TakeoverKeepsForest(s, d, r.duplicateDocId.value, plan, done);
      }
    }
  }

  lemma PurgeKeepsDocs(s: State, e: Effect)
    requires e.Purge? || e.Transfer?
    ensures Apply(s, e).docs == s.docs
  {
  }

  lemma ReindexKeepsForest(s: State, e: Effect)
    requires e.Reindexed? && IsForest(s.docs)
    ensures IsForest(Apply(s, e).docs)
  {
    hide IsForest;
    UnlinkKeepsForest(s.docs, Apply(s, e).docs);
  }

  /** The writes of a takeover: the other document is linked to the incoming one, which has no link. */
  lemma TakeoverKeepsForest(s: State, d: string, other: string, plan: seq<Effect>, done: nat)
    requires IsForest(s.docs) && Link(s.docs, d) == None && other != d && done <= |plan|
    requires |plan| == 2 || (|plan| == 4 && plan[2].Purge? && plan[3].Reindexed?)
    requires (plan[0].Purge? || plan[0].Transfer?) && plan[1] == Outdate(other, Some(d))
    ensures done >= 1 ==> IsForest(Apply(s, plan[0]).docs)
    ensures done >= 2 ==> IsForest(Apply(Apply(s, plan[0]), plan[1]).docs)
    ensures done >= 3 ==> IsForest(Apply(Apply(Apply(s, plan[0]), plan[1]), plan[2]).docs)
    ensures done >= 4 ==> IsForest(Apply(Apply(Apply(Apply(s, plan[0]), plan[1]), plan[2]), plan[3]).docs)
  {
    hide IsForest, Link, Apply;
    PurgeKeepsDocs(s, plan[0]);
    var s1 := Apply(s, plan[0]);
    OutdateKeepsForest(s1, other, Some(d));
    if done >= 3 {
      PurgeKeepsDocs(Apply(s1, plan[1]), plan[2]);
    }
    if done == 4 {
      ReindexKeepsForest(Apply(Apply(s1, plan[1]), plan[2]), plan[3]);
    }
  }

  // ---------------------------------------------------------------- whole runs

  /** What happens to document rows: a row is created or removed, gets a status other than outdated
      (requests, polls, deletes, failures, re-ingests), is stripped of its artifacts by a delete, or is
      ingested. */
  datatype Step =
    | Create(d: string, row: Doc)
    | Delete(d: string)
    | SetStatus(d: string, status: Status)
    | Strip(d: string)
    | Ingest(d: string, course: Course)

  ghost predicate Enabled(s: State, step: Step) {
    match step
    case Create(d, row) => d != "" && d !in s.docs && row.status != Outdated
    case Delete(d) => true
    case SetStatus(d, status) => status != Outdated
    case Strip(d) => d in s.docs && s.docs[d].status == Deleting
    case Ingest(d, c) => d in s.docs && Fits(s, d, c) && IsFound(s, d, c)
  }

  function Next(s: State, step: Step): State
    requires step.Ingest? ==> Fits(s, step.d, step.course)
  {
    match step
    case Create(d, row) => s.(docs := s.docs[d := row])
    case Delete(d) =>
      s.(docs := s.docs - {d}, bands := WithoutBands(s.bands, d), signatures := s.signatures - {d}, parents := s.parents - {d})
    case SetStatus(d, status) => UpdateDoc(s, d, (doc: Doc) => doc.(status := status))
    case Strip(d) => if d in s.docs then Apply(s, Purge(d, s.docs[d].kbId, true)) else s
    case Ingest(d, c) => IngestRun(s, d, c)
  }

  const EMPTY: State := State(map[], map[], map[], map[], {})

  ghost predicate IsRun(states: seq<State>, steps: seq<Step>) {
    && |states| == |steps| + 1 && states[0] == EMPTY
    && forall i :: 0 <= i < |steps| ==> Enabled(states[i], steps[i]) && states[i + 1] == Next(states[i], steps[i])
  }

  lemma FailedKeepsForest(s: State, d: string, how: Marking)
    requires IsForest(s.docs)
    ensures IsForest(SetFailed(s, d, how).docs)
  {
    hide IsForest, SetFailed;
    FailureKeepsOthers(s, d, how);
    UnlinkKeepsForest(s.docs, SetFailed(s, d, how).docs);
  }

  lemma DetectingKeepsForest(s: State, d: string, p: Pass, writes: nat)
    requires IsForest(s.docs)
    ensures IsForest(Detecting(s, d, p, writes).docs)
    ensures forall x :: Link(Detecting(s, d, p, writes).docs, x) == Link(s.docs, x)
  {
    hide IsForest, Detecting;
    DetectingKeepsRows(s, d, p, writes);
    UnlinkKeepsForest(s.docs, Detecting(s, d, p, writes).docs);
  }

  /** What the pass names is no link's source and another document, so the verdict keeps the forest. */
  lemma JudgedKeepsForest(s: State, d: string, c: Course, done: nat)
    requires IsForest(s.docs) && d in s.docs && "" !in s.docs && IsFound(s, d, c) && ResultOf(c).Some?
    requires done <= |Plan(Detected(s, d, c.pass).docs, d, c.result)|
    ensures var s1 := Detected(s, d, c.pass);
      IsForest(ApplyAll(s1, Plan(s1.docs, d, c.result)[..done]).docs)
  {
    hide IsForest, Plan, ApplyAll, Answers, Detecting;
    var s0 := Processing(s, d);
    UnlinkKeepsForest(s.docs, s0.docs);
    DetectingKeepsForest(s0, d, c.pass, 3);
    DetectingKeepsRows(s0, d, c.pass, 3);
    FoundNamesIndexed(s, d, c);
    VerdictKeepsForest(Detected(s, d, c.pass), d, c.result, done);
  }

  lemma IngestKeepsForest(s: State, d: string, c: Course)
    requires IsForest(s.docs) && "" !in s.docs && Enabled(s, Ingest(d, c))
    ensures IsForest(IngestRun(s, d, c).docs)
  {
    hide IsForest, Plan, NeedsIndexing, ApplyAll, SetFailed, Detecting, Answers, Upserted;
    var s0 := Processing(s, d);
    UnlinkKeepsForest(s.docs, s0.docs);
    match c
    case NeverStarts =>
    case Invalid(how) => FailedKeepsForest(s, d, how);
    case FailsBeforeVerdict(p, writes, how) =>
      DetectingKeepsForest(s0, d, p, writes);
      FailedKeepsForest(Detecting(s0, d, p, writes), d, how);
    case FailsInVerdict(p, r, done, how) =>
      JudgedKeepsForest(s, d, c, done);
      FailedKeepsForest(ApplyAll(Detected(s, d, p), Plan(Detected(s, d, p).docs, d, r)[..done]), d, how);
    case FailsAfterVerdict(p, r, partial, how) =>
      var plan := Plan(Detected(s, d, p).docs, d, r);
      assert plan[..|plan|] == plan;
      JudgedKeepsForest(s, d, c, |plan|);
      var judged := ApplyAll(Detected(s, d, p), plan);
      FailedKeepsForest(judged, d, how);
      if partial.Some? {
        UpsertKeepsDocs(judged, d, partial.value);
        FailedKeepsForest(Upserted(judged, d, partial.value), d, how);
      }
    case Completes(p, r, u) =>
      var plan := Plan(Detected(s, d, p).docs, d, r);
      assert plan[..|plan|] == plan;
      JudgedKeepsForest(s, d, c, |plan|);
      var judged := ApplyAll(Detected(s, d, p), plan);
      UpsertKeepsDocs(judged, d, u);
      UnlinkKeepsForest(judged.docs, Index(judged, d, u).docs);
  }

  /** Across all creations, deletions, status changes and ingest runs, complete or broken off, each with
      its dedup pass over the stores of the moment, the links of outdated documents stay a forest. */
  lemma {:induction false} RunsKeepForest(states: seq<State>, steps: seq<Step>, n: nat)
    requires IsRun(states, steps) && n <= |steps|
    ensures IsForest(states[n].docs) && "" !in states[n].docs
  {
    hide IsForest, IngestRun, IsFound, Fits;
    if n == 0 {
      NoLinks();
    } else {
      RunsKeepForest(states, steps, n - 1);
      var s, s' := states[n - 1], states[n];
      match steps[n - 1]
      case Ingest(d, c) =>
        IngestKeepsForest(s, d, c);
        IngestKeepsKeys(s, d, c);
      case Create(d, row) => UnlinkKeepsForest(s.docs, s'.docs);
      case Delete(d) => UnlinkKeepsForest(s.docs, s'.docs);
      case SetStatus(d, status) => UnlinkKeepsForest(s.docs, s'.docs);
      case Strip(d) => PurgeKeepsDocs(s, Purge(d, s.docs[d].kbId, true));
    }
  }

  lemma NoLinks()
    ensures IsForest(EMPTY.docs)
  {
    forall d
      ensures Stops(EMPTY.docs, d)
    {
      assert Ends(EMPTY.docs, d, 0);
    }
  }
}
