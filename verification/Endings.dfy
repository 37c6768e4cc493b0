/** Every ingest run, as it unfolds over the stores, is one of the ways in which the lifecycle lets a task end:
    the statuses it leaves are those of a few lifecycle steps. */
module Endings {
  import opened DedupTypes
  import opened DedupPass
  import opened Wrappers
  import L = Lifecycle
  import Q = QueueWorker
  import V = Verdict
  import W = VerdictLaws

  function Statuses(s: V.State): map<string, Status> {
    map d | d in s.docs :: s.docs[d].status
  }

  /** The verdict has marked the document it named outdated. */
  predicate Supersedes(s: V.State, d: string, c: V.Course) {
    && (c.FailsInVerdict? || c.FailsAfterVerdict? || c.Completes?)
    && W.IncomingTakesAll(V.Detected(s, d, c.pass).docs, d, c.result) && (c.FailsInVerdict? ==> c.done >= 2)
  }

  /** The verdict has marked its own document outdated. */
  predicate Yields(s: V.State, d: string, c: V.Course) {
    && (c.FailsInVerdict? || c.FailsAfterVerdict? || c.Completes?)
    && c.result.bodyMatch != NoMatch && !W.IncomingTakesAll(V.Detected(s, d, c.pass).docs, d, c.result)
    && (c.FailsInVerdict? ==> c.done >= 1)
  }

  /** The status a run leaves its own document in, given the one it found. */
  function OwnEnd(s: V.State, d: string, c: V.Course): Status
    requires d in s.docs
  {
    match c
    case NeverStarts => s.docs[d].status
    case Invalid(how) => if how == V.Marked then Failed else s.docs[d].status
    case FailsBeforeVerdict(_, _, how) => if how == V.Marked then Failed else Running
    case FailsInVerdict(_, _, _, how) => if how == V.Marked then Failed else if Yields(s, d, c) then Outdated else Running
    case FailsAfterVerdict(_, _, _, how) => if how == V.Marked then Failed else Running
    case Completes(_, _, _) => if Yields(s, d, c) then Outdated else Indexed
  }

  /** The lifecycle steps a run amounts to, for task `i`. */
  function PathOf(s: V.State, d: string, i: nat, c: V.Course): seq<L.Step>
    requires d in s.docs && (Supersedes(s, d, c) ==> c.result.duplicateDocId.Some?)
  {
    match c
    case NeverStarts => [L.Escape(i)]
    case Invalid(how) => if how == V.Marked then [L.Start(i, false)] else [L.Escape(i)]
    case _ =>
      var own := OwnEnd(s, d, c);
      if Supersedes(s, d, c) && own == Indexed && c.result.bodyMatch == IdenticalLevel then
        [L.Start(i, true), L.Finish(i, L.TakesOver(c.result.duplicateDocId.value))]
      else
        [L.Start(i, true)]
        + (if Supersedes(s, d, c) then [L.Supersede(i, c.result.duplicateDocId.value)] else [])
        + [LastStep(i, own)]
  }

  /** How a task ends that leaves its document in this status. */
  function LastStep(i: nat, own: Status): L.Step {
    match own
    case Failed => L.Finish(i, L.Failure)
    case Outdated => L.Finish(i, L.LosesVerdict)
    case Indexed => L.Finish(i, L.Success)
    case _ => L.Escape(i)
  }

  /** The steps can be taken one after the other, and lead from `s` to `s'`. */
  ghost predicate Leads(codec: Q.Codec, s: Q.State, path: seq<L.Step>, s': Q.State)
    decreases |path|
  {
    if path == [] then s' == s
    else L.Enabled(codec, s, path[0]) && Leads(codec, L.Next(codec, s, path[0]), path[1..], s')
  }

  // ---------------------------------------------------------------- the statuses a run leaves

  /** The verdict's writes change no status but those of the pair. */
  lemma OthersKeepStatus(s: V.State, d: string, r: DedupResult, done: nat, x: string)
    requires d in s.docs && W.NamesIndexed(s, d, r) && done <= |V.Plan(s.docs, d, r)|
    requires x in s.docs && x != d && x != r.duplicateDocId.value
    ensures var s' := V.ApplyAll(s, V.Plan(s.docs, d, r)[..done]); x in s'.docs && s'.docs[x].status == s.docs[x].status
  {
    hide V.Plan, V.ApplyAll, V.Apply, V.ResolveNewer;
    var plan := V.Plan(s.docs, d, r);
    W.PlanShape(s.docs, d, r);
    W.PrefixStatus(s, plan, x, done);
    W.FourSteps(plan, x, s.docs[x].status, done);
  }

  /** The statuses after the verdict's writes. */
  lemma JudgedStatuses(s: V.State, d: string, c: V.Course, x: string)
    requires d in s.docs && "" !in s.docs && V.Fits(s, d, c) && W.IsFound(s, d, c) && W.ResultOf(c).Some? && x in s.docs
    ensures var s1 := V.Detected(s, d, c.pass);
      var plan := V.Plan(s1.docs, d, c.result);
      var judged := V.ApplyAll(s1, if c.FailsInVerdict? then plan[..c.done] else plan);
      && judged.docs.Keys == s.docs.Keys
      && judged.docs[x].status ==
           (if x == d then
              (if Yields(s, d, c) then Outdated
               else if !c.FailsInVerdict? && Supersedes(s, d, c) && c.result.bodyMatch == IdenticalLevel then Indexed else Running)
            else if Supersedes(s, d, c) && c.result.duplicateDocId == Some(x) then Outdated else s.docs[x].status)
  {
    hide V.Plan, V.ApplyAll, Answers, V.Detecting, V.NeedsIndexing, V.ResolveNewer;
    W.FoundNamesIndexed(s, d, c);
    W.DetectingKeepsRows(V.Processing(s, d), d, c.pass, 3);
    var s1, r := V.Detected(s, d, c.pass), c.result;
    var plan := V.Plan(s1.docs, d, r);
    assert plan[..|plan|] == plan;
    W.NoMatchPlansNothing(s1.docs, d, r);
    if r.bodyMatch == NoMatch {
      W.NothingApplied(s1);
      NoMatchSupersedesNone(s, d, c);
    } else {
      var done := if c.FailsInVerdict? then c.done else |plan|;
      W.PairAfter(s1, d, r, done);
      if x != d && x != r.duplicateDocId.value {
        OthersKeepStatus(s1, d, r, done, x);
      }
    }
  }

  lemma NoMatchSupersedesNone(s: V.State, d: string, c: V.Course)
    ensures W.ResultOf(c).Some? && c.result.bodyMatch == NoMatch ==> !Supersedes(s, d, c) && !Yields(s, d, c)
  {
    hide V.Detecting;
  }

  /** The statuses a run leaves: its own document's end, and the one it superseded outdated. */
  lemma EndStatus(s: V.State, d: string, c: V.Course, x: string)
    requires d in s.docs && "" !in s.docs && V.Fits(s, d, c) && W.IsFound(s, d, c) && x in s.docs && s.docs[d].status == Running
    ensures x in V.IngestRun(s, d, c).docs
    ensures V.IngestRun(s, d, c).docs[x].status ==
      if x == d then OwnEnd(s, d, c)
      else if Supersedes(s, d, c) && c.result.duplicateDocId == Some(x) then Outdated else s.docs[x].status
  {
    hide V.Plan, V.ApplyAll, Answers, V.Detecting, V.NeedsIndexing, V.SetFailed, V.Upserted, Supersedes, Yields;
    NoSupersedingYet(s, d, c);
    match c
    case NeverStarts =>
    case Invalid(how) => W.FailureKeepsOthers(s, d, how);
    case FailsBeforeVerdict(p, writes, how) =>
      W.DetectingKeepsRows(V.Processing(s, d), d, p, writes);
      W.FailureKeepsOthers(V.Detecting(V.Processing(s, d), d, p, writes), d, how);
    case FailsInVerdict(p, r, done, how) =>
      JudgedStatuses(s, d, c, x);
      W.FailureKeepsOthers(V.ApplyAll(V.Detected(s, d, p), V.Plan(V.Detected(s, d, p).docs, d, r)[..done]), d, how);
    case FailsAfterVerdict(p, r, partial, how) =>
      JudgedStatuses(s, d, c, x);
      GoesOn(s, d, c);
      var judged := V.ApplyAll(V.Detected(s, d, p), V.Plan(V.Detected(s, d, p).docs, d, r));
      W.FailureKeepsOthers(judged, d, how);
      if partial.Some? {
        W.UpsertKeepsDocs(judged, d, partial.value);
        W.FailureKeepsOthers(V.Upserted(judged, d, partial.value), d, how);
      }
    case Completes(p, r, u) =>
      JudgedStatuses(s, d, c, x);
      GoesOn(s, d, c);
      W.UpsertKeepsDocs(V.ApplyAll(V.Detected(s, d, p), V.Plan(V.Detected(s, d, p).docs, d, r)), d, u);
  }

  lemma NoSupersedingYet(s: V.State, d: string, c: V.Course)
    ensures W.ResultOf(c) == None ==> !Supersedes(s, d, c) && !Yields(s, d, c)
  {
  }

  /** A run goes on to the upsert if its verdict neither yields nor takes the points over. */
  lemma GoesOn(s: V.State, d: string, c: V.Course)
    requires d in s.docs && "" !in s.docs && V.Fits(s, d, c) && W.IsFound(s, d, c) && (c.FailsAfterVerdict? || c.Completes?)
    ensures V.NeedsIndexing(V.Detected(s, d, c.pass).docs, d, c.result) <==>
      !Yields(s, d, c) && !(Supersedes(s, d, c) && c.result.bodyMatch == IdenticalLevel)
  {
    hide V.Plan, V.ApplyAll, Answers, V.Detecting, V.ResolveNewer;
    W.FoundNamesIndexed(s, d, c);
    W.DetectingKeepsRows(V.Processing(s, d), d, c.pass, 3);
    var s1, r := V.Detected(s, d, c.pass), c.result;
    W.NoMatchPlansNothing(s1.docs, d, r);
    if r.bodyMatch != NoMatch {
      W.PairAfter(s1, d, r, 0);
    }
  }

  // ---------------------------------------------------------------- the path

  /** The document a run supersedes is another one, and indexed. */
  lemma SupersededIsIndexed(s: V.State, d: string, c: V.Course)
    requires d in s.docs && "" !in s.docs && W.IsFound(s, d, c) && Supersedes(s, d, c)
    ensures c.result.duplicateDocId.Some?
    ensures var other := c.result.duplicateDocId.value; other in s.docs && other != d && s.docs[other].status == Indexed
  {
    hide Answers, V.Detecting, V.ResolveNewer;
    W.FoundNamesIndexed(s, d, c);
    W.DetectingKeepsRows(V.Processing(s, d), d, c.pass, 3);
  }

  /** The statuses after a run, as one update of those before. */
  lemma EndDocs(s: V.State, d: string, c: V.Course)
    requires d in s.docs && "" !in s.docs && V.Fits(s, d, c) && W.IsFound(s, d, c) && s.docs[d].status == Running
    requires Supersedes(s, d, c) ==> c.result.duplicateDocId.Some? && c.result.duplicateDocId.value in s.docs && c.result.duplicateDocId.value != d
    ensures Statuses(V.IngestRun(s, d, c)) ==
      (if Supersedes(s, d, c) then Statuses(s)[c.result.duplicateDocId.value := Outdated] else Statuses(s))[d := OwnEnd(s, d, c)]
  {
    hide V.IngestRun, W.IsFound, V.Fits, Yields, OwnEnd, V.Detecting, W.IncomingTakesAll;
    W.IngestKeepsKeys(s, d, c);
    forall x | x in s.docs
      ensures x in V.IngestRun(s, d, c).docs
      ensures V.IngestRun(s, d, c).docs[x].status ==
        if x == d then OwnEnd(s, d, c)
        else if Supersedes(s, d, c) && c.result.duplicateDocId == Some(x) then Outdated else s.docs[x].status
    {
      EndStatus(s, d, c, x);
    }
  }

  lemma StartLeads(codec: Q.Codec, q: Q.State, i: nat, d: string)
    requires i < |q.tasks| && q.tasks[i].kind == Q.Ingest && q.tasks[i].docId == d && q.tasks[i].phase == Q.Scheduled
    requires d in q.docs && q.docs[d] == Running
    ensures L.Enabled(codec, q, L.Start(i, true))
    ensures var q' := L.Next(codec, q, L.Start(i, true));
      q' == q.(tasks := q.tasks[i := q.tasks[i].(phase := Q.Started(Running))]) && L.Remove(q'.tasks, i) == L.Remove(q.tasks, i)
  {
    assert q.docs[d := Running] == q.docs;
  }

  lemma LastLeads(codec: Q.Codec, q: Q.State, i: nat, d: string, own: Status)
    requires i < |q.tasks| && q.tasks[i].kind == Q.Ingest && q.tasks[i].docId == d && q.tasks[i].phase.Started? && d in q.docs
    requires own == Failed || own == Outdated || own == Indexed || (own == Running && q.docs[d] == Running)
    ensures Leads(codec, q, [LastStep(i, own)], q.(docs := q.docs[d := own], tasks := L.Remove(q.tasks, i)))
  {
    var step := LastStep(i, own);
    assert own == Running ==> q.docs[d := own] == q.docs;
    LeadsOne(codec, q, step);
  }

  lemma LeadsOne(codec: Q.Codec, q: Q.State, step: L.Step)
    requires L.Enabled(codec, q, step)
    ensures Leads(codec, q, [step], L.Next(codec, q, step))
  {
    assert [step][1..] == [];
  }

  lemma LeadsOn(codec: Q.Codec, q: Q.State, step: L.Step, path: seq<L.Step>, q': Q.State)
    requires L.Enabled(codec, q, step) && Leads(codec, L.Next(codec, q, step), path, q')
    ensures Leads(codec, q, [step] + path, q')
  {
    assert ([step] + path)[1..] == path;
  }

  /** The path of a started run: from a start, past a superseding if there is one, to the last step. */
  lemma StartedPathLeads(codec: Q.Codec, q: Q.State, i: nat, d: string, superseded: Option<string>, own: Status)
    requires i < |q.tasks| && q.tasks[i].kind == Q.Ingest && q.tasks[i].docId == d && q.tasks[i].phase == Q.Scheduled
    requires d in q.docs && q.docs[d] == Running
    requires superseded.Some? ==> superseded.value != d && superseded.value in q.docs && q.docs[superseded.value] == Indexed
    requires own == Failed || own == Outdated || own == Indexed || own == Running
    ensures var docs := (if superseded.Some? then q.docs[superseded.value := Outdated] else q.docs)[d := own];
      var middle := if superseded.Some? then [L.Supersede(i, superseded.value)] else [];
      Leads(codec, q, [L.Start(i, true)] + middle + [LastStep(i, own)], q.(docs := docs, tasks := L.Remove(q.tasks, i)))
    ensures superseded.Some? ==>
      Leads(codec, q, [L.Start(i, true), L.Finish(i, L.TakesOver(superseded.value))],
            q.(docs := q.docs[superseded.value := Outdated][d := Indexed], tasks := L.Remove(q.tasks, i)))
  {
    hide Leads;
    StartLeads(codec, q, i, d);
    var q1 := L.Next(codec, q, L.Start(i, true));
    if superseded.Some? {
      var other := superseded.value;
      var q2 := L.Next(codec, q1, L.Supersede(i, other));
      LastLeads(codec, q2, i, d, own);
      LeadsOn(codec, q1, L.Supersede(i, other), [LastStep(i, own)], q2.(docs := q2.docs[d := own], tasks := L.Remove(q2.tasks, i)));
      LeadsOn(codec, q, L.Start(i, true), [L.Supersede(i, other)] + [LastStep(i, own)],
              q2.(docs := q2.docs[d := own], tasks := L.Remove(q2.tasks, i)));
      assert [L.Start(i, true)] + ([L.Supersede(i, other)] + [LastStep(i, own)]) == [L.Start(i, true)] + [L.Supersede(i, other)] + [LastStep(i, own)];
      LeadsOne(codec, q1, L.Finish(i, L.TakesOver(other)));
      LeadsOn(codec, q, L.Start(i, true), [L.Finish(i, L.TakesOver(other))], L.Next(codec, q1, L.Finish(i, L.TakesOver(other))));
      assert [L.Start(i, true)] + [L.Finish(i, L.TakesOver(other))] == [L.Start(i, true), L.Finish(i, L.TakesOver(other))];
    } else {
      LastLeads(codec, q1, i, d, own);
      LeadsOn(codec, q, L.Start(i, true), [LastStep(i, own)], q1.(docs := q1.docs[d := own], tasks := L.Remove(q1.tasks, i)));
      assert [L.Start(i, true)] + [] + [LastStep(i, own)] == [L.Start(i, true)] + [LastStep(i, own)];
    }
  }

  /** In the lifecycle a dispatched ingest task can take the steps of its run, and they leave the statuses
      the run leaves. */
  lemma EveryRunIsAPath(codec: Q.Codec, q: Q.State, i: nat, s: V.State, d: string, c: V.Course)
    requires d in s.docs && "" !in s.docs && V.Fits(s, d, c) && W.IsFound(s, d, c) && s.docs[d].status == Running
    requires q.docs == Statuses(s) && i < |q.tasks| && q.tasks[i].kind == Q.Ingest && q.tasks[i].docId == d && q.tasks[i].phase == Q.Scheduled
    ensures Supersedes(s, d, c) ==> c.result.duplicateDocId.Some?
    ensures Leads(codec, q, PathOf(s, d, i, c), q.(docs := Statuses(V.IngestRun(s, d, c)), tasks := L.Remove(q.tasks, i)))
  {
    hide V.IngestRun, W.IsFound, V.Fits, V.Detecting, W.IncomingTakesAll, Yields, Leads;
    var superseded := if Supersedes(s, d, c) then c.result.duplicateDocId else None;
    if Supersedes(s, d, c) {
      SupersededIsIndexed(s, d, c);
    }
    EndDocs(s, d, c);
    match c
    case NeverStarts =>
      LeadsOne(codec, q, L.Escape(i));
      assert Statuses(s)[d := Running] == Statuses(s);
    case Invalid(how) =>
      LeadsOne(codec, q, if how == V.Marked then L.Start(i, false) else L.Escape(i));
      assert Statuses(s)[d := Running] == Statuses(s);
    case _ =>
      StartedPathLeads(codec, q, i, d, superseded, OwnEnd(s, d, c));
  }
}
