/** Acting on a dedup result: `pipeline/steps/dedup/verdict.py` and `pipeline/utils/purge.py`, inside
    an ingest run (`pipeline/runner.py`) any of whose steps may raise. */
module Verdict {
  import opened DedupPass
  import opened DedupTypes
  import opened Wrappers
  import D = SimHashDetection
  import M = MinHash

  datatype Chunk = Chunk(docId: string, title: string, source: string)

  /** A point of a KB's collection. */
  type ChunkKey = (string, nat)

  /** Document rows, the vector collections, the tables of the dedup stages, and the documents that own
      ancestor rows. */
  datatype State = State(
    docs: map<string, Doc>, chunks: map<ChunkKey, Chunk>, bands: D.BandTable, signatures: map<string, M.Signature>, parents: set<string>)

  // ---------------------------------------------------------------- effects

  /** One external write of a handler. */
  datatype Effect =
    | Outdate(d: string, duplicateOf: Option<string>)
    | Reindexed(d: string, chunkCount: Option<nat>)
    | Transfer(kbId: string, from: string, to: string, title: string, source: string)
    | Purge(d: string, kbId: string, includeChunks: bool)

  /** `update_doc_fields`: a missing row is not an error. */
  function UpdateDoc(s: State, d: string, f: Doc -> Doc): State {
    if d in s.docs then s.(docs := s.docs[d := f(s.docs[d])]) else s
  }

  function DeleteChunks(s: State, kbId: string, d: string): State {
    s.(chunks := map k | k in s.chunks && !(k.0 == kbId && s.chunks[k].docId == d) :: s.chunks[k])
  }

  function WithoutBands(bands: D.BandTable, d: string): D.BandTable {
    map k | k in bands && k.0 != d :: bands[k]
  }

  function Apply(s: State, e: Effect): State {
    match e
    case Outdate(d, dup) => UpdateDoc(s, d, (doc: Doc) => doc.(status := Outdated, duplicateOf := dup))
    case Reindexed(d, n) => UpdateDoc(s, d, (doc: Doc) => doc.(status := Indexed, chunkCount := n))
    case Transfer(kbId, from, to, title, source) =>
      s.(chunks := map k | k in s.chunks ::
        if k.0 == kbId && s.chunks[k].docId == from then Chunk(to, title, source) else s.chunks[k])
    case Purge(d, kbId, includeChunks) =>
      var s' := if includeChunks && kbId != "" then DeleteChunks(s, kbId, d) else s;
      s'.(bands := WithoutBands(s'.bands, d), signatures := s'.signatures - {d}, parents := s'.parents - {d})
  }

  function ApplyAll(s: State, es: seq<Effect>): State {
    if es == [] then s else Apply(ApplyAll(s, es[..|es| - 1]), es[|es| - 1])
  }

  // ---------------------------------------------------------------- the handlers' plans

  datatype Winner = IncomingWins | ExistingWins | UnknownWinner

  /** `_resolve_newer`, on creation instants. */
  function ResolveNewer(docs: map<string, Doc>, incoming: string, existing: string): Winner {
    if incoming !in docs || existing !in docs then UnknownWinner
    else
      var a, b := docs[incoming].createdAt, docs[existing].createdAt;
      if b == None || (a.Some? && a.value > b.value) then IncomingWins else ExistingWins
  }

  predicate Named(dup: Option<string>) {
    dup.Some? && dup.value != ""
  }

  function PlanIdentical(d: string, dup: Option<string>): seq<Effect> {
    [Outdate(d, dup)]
  }

  function PlanTitleChanged(docs: map<string, Doc>, d: string, dup: Option<string>): seq<Effect> {
    if !Named(dup) then [Outdate(d, None)]
    else if ResolveNewer(docs, d, dup.value) != IncomingWins then [Outdate(d, dup)]
    else
      var incoming, existing := docs[d], docs[dup.value];
      [Transfer(existing.kbId, dup.value, d, incoming.title, incoming.source),
       Outdate(dup.value, Some(d)),
       Purge(dup.value, "", false),
       Reindexed(d, existing.chunkCount)]
  }

  function PlanSimilar(docs: map<string, Doc>, d: string, dup: Option<string>): seq<Effect> {
    if !Named(dup) then [Outdate(d, None), Purge(d, "", false)]
    else if ResolveNewer(docs, d, dup.value) == IncomingWins then
      [Purge(dup.value, docs[dup.value].kbId, true), Outdate(dup.value, Some(d))]
    else [Outdate(d, dup), Purge(d, "", false)]
  }

  /** The writes `run_verdict` makes, in order. */
  function Plan(docs: map<string, Doc>, d: string, r: DedupResult): seq<Effect> {
    match r.bodyMatch
    case NoMatch => []
    case IdenticalLevel =>
      if r.titleMatch == Changed then PlanTitleChanged(docs, d, r.duplicateDocId) else PlanIdentical(d, r.duplicateDocId)
    case Similar => PlanSimilar(docs, d, r.duplicateDocId)
  }

  /** `result.needs_indexing` once the verdict has been applied. */
  function NeedsIndexing(docs: map<string, Doc>, d: string, r: DedupResult): bool {
    match r.bodyMatch
    case NoMatch => true
    case IdenticalLevel => r.needsIndexing
    case Similar => Named(r.duplicateDocId) && ResolveNewer(docs, d, r.duplicateDocId.value) == IncomingWins
  }

  lemma AppliedOne(s: State, a: Effect)
    ensures ApplyAll(s, [a]) == Apply(s, a)
  {
    assert [a][..0] == [];
  }

  lemma AppliedTwo(s: State, a: Effect, b: Effect)
    ensures ApplyAll(s, [a, b]) == Apply(Apply(s, a), b)
  {
    assert [a, b][..1] == [a];
    AppliedOne(s, a);
  }

  lemma AppliedFour(s: State, a: Effect, b: Effect, c: Effect, d: Effect)
    ensures ApplyAll(s, [a, b, c, d]) == Apply(Apply(Apply(Apply(s, a), b), c), d)
  {
    assert [a, b, c, d][..3] == [a, b, c];
    assert [a, b, c][..2] == [a, b];
    AppliedTwo(s, a, b);
  }

  // ---------------------------------------------------------------- the handlers as they run

  /** The stores, and the handlers as they run. */
  class Store {
    var docs: map<string, Doc>
    var chunks: map<ChunkKey, Chunk>
    var bands: D.BandTable
    var signatures: map<string, M.Signature>
    var parents: set<string>

    ghost function View(): State
      reads this
    {
      State(docs, chunks, bands, signatures, parents)
    }

    method MarkOutdated(d: string, dup: Option<string>)
      modifies this
      ensures View() == Apply(old(View()), Outdate(d, dup))
    {
      if d in docs {
        docs := docs[d := docs[d].(status := Outdated, duplicateOf := dup)];
      }
    }

    method PurgeDocArtifacts(d: string, kbId: string, includeChunks: bool)
      modifies this
      ensures View() == Apply(old(View()), Purge(d, kbId, includeChunks))
    {
      if includeChunks && kbId != "" {
        chunks := map k | k in chunks && !(k.0 == kbId && chunks[k].docId == d) :: chunks[k];
      }
      bands, signatures, parents := WithoutBands(bands, d), signatures - {d}, parents - {d};
    }

    method HandleTitleChanged(d: string, dup: Option<string>)
      modifies this
      ensures View() == ApplyAll(old(View()), PlanTitleChanged(old(docs), d, dup))
    {
      ghost var start, plan := View(), PlanTitleChanged(docs, d, dup);
      if !Named(dup) {
        MarkOutdated(d, None);
        AppliedOne(start, plan[0]);
        return;
      }
      if ResolveNewer(docs, d, dup.value) != IncomingWins {
        MarkOutdated(d, dup);
        AppliedOne(start, plan[0]);
        return;
      }
      var incoming, existing := docs[d], docs[dup.value];
      chunks := map k | k in chunks ::
        if k.0 == existing.kbId && chunks[k].docId == dup.value then Chunk(d, incoming.title, incoming.source) else chunks[k];
      MarkOutdated(dup.value, Some(d));
      PurgeDocArtifacts(dup.value, "", false);
      docs := docs[d := docs[d].(status := Indexed, chunkCount := existing.chunkCount)];
      AppliedFour(start, plan[0], plan[1], plan[2], plan[3]);
    }

    method HandleSimilar(d: string, dup: Option<string>) returns (needsIndexing: bool)
      modifies this
      ensures View() == ApplyAll(old(View()), PlanSimilar(old(docs), d, dup))
      ensures needsIndexing <==> Named(dup) && ResolveNewer(old(docs), d, dup.value) == IncomingWins
    {
      ghost var start, plan := View(), PlanSimilar(docs, d, dup);
      if !Named(dup) {
        MarkOutdated(d, None);
        PurgeDocArtifacts(d, "", false);
        needsIndexing := false;
      } else if ResolveNewer(docs, d, dup.value) == IncomingWins {
        PurgeDocArtifacts(dup.value, docs[dup.value].kbId, true);
        MarkOutdated(dup.value, Some(d));
        needsIndexing := true;
      } else {
        MarkOutdated(d, dup);
        PurgeDocArtifacts(d, "", false);
        needsIndexing := false;
      }
      AppliedTwo(start, plan[0], plan[1]);
    }

    method RunVerdict(d: string, r: DedupResult) returns (needsIndexing: bool)
      modifies this
      ensures View() == ApplyAll(old(View()), Plan(old(docs), d, r))
      ensures needsIndexing == NeedsIndexing(old(docs), d, r)
    {
      match r.bodyMatch
      case NoMatch =>
        needsIndexing := true;
      case IdenticalLevel =>
        needsIndexing := r.needsIndexing;
        if r.titleMatch == Changed {
          HandleTitleChanged(d, r.duplicateDocId);
        } else {
          AppliedOne(View(), Outdate(d, r.duplicateDocId));
          MarkOutdated(d, r.duplicateDocId);
        }
      case Similar =>
        needsIndexing := HandleSimilar(d, r.duplicateDocId);
    }
  }

  // ---------------------------------------------------------------- one ingest run

  /** How far `set_failed` gets: it may raise when it reads the row, before it has purged anything, or
      when it writes the status, the last thing it does. */
  datatype Marking = Marked | Unread | Unwritten

  /** `set_failed`: purges the document's artifacts, errors ignored, and marks it. */
  function SetFailed(s: State, d: string, how: Marking): State {
    if how == Unread then s
    else
      var purged := if d in s.docs then Apply(s, Purge(d, s.docs[d].kbId, true)) else s;
      if how == Unwritten then purged else UpdateDoc(purged, d, (doc: Doc) => doc.(status := Failed))
  }

  /** How an ingest run unfolds. `writes` counts the dedup pass's completed writes, `done` the verdict's;
      `how` is how far the failure handling got. */
  datatype Course =
    | NeverStarts                       // the row is not read, validation raises an unforeseen error, or set_processing raises
    | Invalid(how: Marking)             // validation refuses the document
    | FailsBeforeVerdict(pass: Pass, writes: nat, how: Marking)                     // parsing or detection raises
    | FailsInVerdict(pass: Pass, result: DedupResult, done: nat, how: Marking)      // a write of the verdict raises
    | FailsAfterVerdict(pass: Pass, result: DedupResult, partial: Option<Upsert>, how: Marking)   // chunking or upsert raises
    | Completes(pass: Pass, result: DedupResult, upserted: Upsert)                  // nothing raises

  /** What an upsert stores: points, and whether there are ancestor rows. */
  datatype Upsert = Upsert(points: map<ChunkKey, Chunk>, hasParents: bool)

  /** `set_processing`. */
  function Processing(s: State, d: string): State {
    UpdateDoc(s, d, (doc: Doc) => doc.(status := Running))
  }

  /** A creation instant stated in the document replaces the one of its row. */
  function Dated(s: State, d: string, p: Pass): State {
    if p.createdAt.Some? then UpdateDoc(s, d, (doc: Doc) => doc.(createdAt := p.createdAt)) else s
  }

  /** The stores once the date is recorded, which the pass does not look at, and after its first `writes`
      writes. */
  function Detecting(s: State, d: string, p: Pass, writes: nat): State {
    s.(docs := DocsWritten(Dated(s, d, p).docs, d, p, writes),
       bands := BandsWritten(s.docs, s.bands, d, p, writes),
       signatures := SignaturesWritten(s.docs, s.bands, s.signatures, d, p, writes))
  }

  /** The stores when the verdict begins. */
  function Detected(s: State, d: string, p: Pass): State {
    Detecting(Processing(s, d), d, p, 3)
  }

  predicate Fits(s: State, d: string, c: Course) {
    match c
    case FailsInVerdict(p, r, done, _) => done < |Plan(Detected(s, d, p).docs, d, r)|
    case FailsAfterVerdict(p, r, _, _) => NeedsIndexing(Detected(s, d, p).docs, d, r)
    case _ => true
  }

  /** Replacing the document's ancestor rows and points. */
  function Upserted(s: State, d: string, u: Upsert): State {
    if d !in s.docs then s
    else
      var cleared := DeleteChunks(s, s.docs[d].kbId, d);
      cleared.(chunks := cleared.chunks + u.points, parents := cleared.parents - {d} + if u.hasParents then {d} else {})
  }

  /** The upsert and `set_indexed`. */
  function Index(s: State, d: string, u: Upsert): State {
    UpdateDoc(Upserted(s, d, u), d, (doc: Doc) => doc.(status := Indexed, chunkCount := Some(|u.points|)))
  }

  /** The stores after `run_ingest_pipeline` on an existing row. */
  function IngestRun(s: State, d: string, c: Course): State
    requires Fits(s, d, c)
  {
    match c
    case NeverStarts => s
    case Invalid(how) => SetFailed(s, d, how)
    case FailsBeforeVerdict(p, writes, how) => SetFailed(Detecting(Processing(s, d), d, p, writes), d, how)
    case FailsInVerdict(p, r, done, how) =>
      var s1 := Detected(s, d, p);
      SetFailed(ApplyAll(s1, Plan(s1.docs, d, r)[..done]), d, how)
    case FailsAfterVerdict(p, r, partial, how) =>
      var s1 := Detected(s, d, p);
      var judged := ApplyAll(s1, Plan(s1.docs, d, r));
      SetFailed(if partial.Some? then Upserted(judged, d, partial.value) else judged, d, how)
    case Completes(p, r, u) =>
      var s1 := Detected(s, d, p);
      var judged := ApplyAll(s1, Plan(s1.docs, d, r));
      if NeedsIndexing(s1.docs, d, r) then Index(judged, d, u) else judged
  }
}
