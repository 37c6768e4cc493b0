/** Documents that nothing will work on again: active rows with no item outstanding. Which steps of a run
    leave a document so, and that no later step gets it out. */
module Stranding {
  import opened DedupTypes
  import opened Lifecycle
  import opened QueueLaws
  import opened QueueWorker
  import opened Wrappers

  ghost function Stranded(c: Codec, s: State): set<string> {
    set d | d in s.docs && IsActive(s.docs[d]) && Outstanding(c, s, d) == 0
  }

  /** The documents a step strands: one whose object upload fails after its row was taken, one marked
      pending whose event is not pushed, and one whose task ends with an error that nothing marks it for. */
  function StrandedBy(s: State, step: Step): set<string> {
    match step
    case Upload(d, stored) => if stored || (d in s.docs && IsActive(s.docs[d])) then {} else {d}
    case Unpushed(d) => if d in s.docs && IsActive(s.docs[d]) then {} else {d}
    case Escape(i) => if i < |s.tasks| then {s.tasks[i].docId} else {}
    case _ => {}
  }

  /** The document an operator's step gets out. */
  function RescuedBy(s: State, step: Step): set<string> {
    match step
    case ForceFail(d) => if d in s.docs && s.docs[d] in {Uploading, Pending, Running, Deleting} then {d} else {}
    case Recover(d) => if d in s.docs && s.docs[d] == Running then {d} else {}
    case _ => {}
  }

  // ---------------------------------------------------------------- steps with one document in focus

  ghost predicate IsStuck(c: Codec, s: State, d: string) {
    d in s.docs && IsActive(s.docs[d]) && Listed(c, s, d) == 0
  }

  /** The same documents are stuck, in the same statuses. */
  ghost predicate Keeps(c: Codec, s: State, s': State) {
    && (forall d :: IsStuck(c, s', d) <==> IsStuck(c, s, d))
    && (forall d :: IsStuck(c, s, d) ==> d in s.docs && d in s'.docs && s'.docs[d] == s.docs[d])
  }

  /** Nothing changes but for `focus`. */
  ghost predicate Unmoved(c: Codec, s: State, s': State, focus: string) {
    forall d :: d != focus ==>
      Listed(c, s', d) == Listed(c, s, d) && (d in s'.docs <==> d in s.docs) && (d in s.docs ==> s'.docs[d] == s.docs[d])
  }

  lemma FocusKeeps(c: Codec, s: State, s': State, focus: string)
    requires Unmoved(c, s, s', focus) && !IsStuck(c, s, focus) && !IsStuck(c, s', focus)
    ensures Keeps(c, s, s')
  {
    hide Listed;
  }

  lemma KeepsThrough(c: Codec, s: State, s': State, s'': State)
    requires Keeps(c, s, s') && Keeps(c, s', s'')
    ensures Keeps(c, s, s'')
  {
    hide IsStuck;
  }

  /** Setting the status of a document and queueing an item for it. */
  lemma QueueingKeeps(c: Codec, s: State, d: string, force: bool)
    requires c.RoundTrips() && (d in s.docs ==> !IsActive(s.docs[d]))
    ensures Keeps(c, s, s.(docs := s.docs[d := Pending], uploads := [c.dumps(d, force)] + s.uploads))
    ensures Keeps(c, s, s.(docs := s.docs[d := Pending], deletes := [c.dumps(d, force)] + s.deletes))
  {
    hide DocsOf, TaskDocs, Keeps;
    var raw := c.dumps(d, force);
    assert c.parse(raw) == Event(d, force);
    DocsOfPrepend(c, raw, s.uploads);
    DocsOfPrepend(c, raw, s.deletes);
    FocusKeeps(c, s, s.(docs := s.docs[d := Pending], uploads := [raw] + s.uploads), d);
    FocusKeeps(c, s, s.(docs := s.docs[d := Pending], deletes := [raw] + s.deletes), d);
  }

  lemma SameKeeps(c: Codec, s: State)
    ensures Keeps(c, s, s)
  {
    hide Listed;
  }

  lemma EnqueueKeeps(c: Codec, s: State, d: string, force: bool)
    requires c.RoundTrips() && (d in s.docs ==> !IsActive(s.docs[d]))
    ensures Keeps(c, s, EnqueueUpload(c, s, d, force)) && Keeps(c, s, EnqueueDelete(c, s, d, force))
  {
    hide Keeps;
    QueueingKeeps(c, s, d, force);
    SameKeeps(c, s);
  }

  // ---------------------------------------------------------------- requests

  /** An upload strands its document exactly when the object does not get stored. */
  lemma UploadStrands(c: Codec, s: State, d: string, stored: bool)
    requires c.RoundTrips() && d != "" && Inv(c, s)
    ensures var s' := UploadDoc(c, s, d, stored);
      if StrandedBy(s, Upload(d, stored)) == {} then Keeps(c, s, s')
      else Unmoved(c, s, s', d) && !IsStuck(c, s, d) && IsStuck(c, s', d)
  {
    hide Keeps, DocsOf, TaskDocs, Inv;
    SameKeeps(c, s);
    if !(d in s.docs && IsActive(s.docs[d])) {
      StableHasNone(c, s, d);
      if stored {
        UploadedIsQueued(c, s, d);
        QueueingKeeps(c, s, d, false);
      }
    }
  }

  /** So does a request whose event is not pushed. */
  lemma UnpushedStrands(c: Codec, s: State, d: string)
    requires Inv(c, s) && d != "" && !(d in s.docs && IsActive(s.docs[d]))
    ensures var s' := s.(docs := s.docs[d := Pending]);
      Unmoved(c, s, s', d) && !IsStuck(c, s, d) && IsStuck(c, s', d)
  {
    hide DocsOf, TaskDocs, Inv;
    StableHasNone(c, s, d);
  }

  lemma UploadedIsQueued(c: Codec, s: State, d: string)
    requires !(d in s.docs && IsActive(s.docs[d]))
    ensures UploadDoc(c, s, d, true) == s.(docs := s.docs[d := Pending], uploads := [c.dumps(d, false)] + s.uploads)
  {
    assert s.docs[d := Pending][d := Pending] == s.docs[d := Pending];
  }

  lemma {:induction false} ReindexKbKeeps(c: Codec, s: State, rows: seq<(string, Status, bool)>, force: bool)
    requires c.RoundTrips() && Inv(c, s) && IsListing(s.docs, rows)
    ensures Keeps(c, s, ReindexKb(c, s, rows, force))
  {
    hide Inv, Keeps, EnqueueUpload;
    SameKeeps(c, s);
    if rows != [] {
      var front, row := rows[..|rows| - 1], rows[|rows| - 1];
      ReindexKbKeeps(c, s, front, force);
      ReindexKbKeepsInv(c, s, front, force);
      var s' := ReindexKb(c, s, front, force);
      assert s'.docs[row.0] == row.1;
      if Reindexable(row.1, row.2) {
        EnqueueKeeps(c, s', row.0, force);
        KeepsThrough(c, s, s', EnqueueUpload(c, s', row.0, force));
      }
    }
  }

  // ---------------------------------------------------------------- polls

  lemma DispatchKeeps(c: Codec, env: Env, kind: TaskKind, s: State, r: LoopResult, raw: string, rest: seq<string>)
    requires env.parse == c.parse && r.queue == rest + [raw] && Inv(c, Around(s, kind, r))
    requires FateOf(env, kind, r.docs, raw) == Some(Dispatched)
    ensures Keeps(c, Around(s, kind, r), Around(s, kind, Settle(env, kind, r, raw, rest, Dispatched)))
  {
    hide DocsOf, TaskDocs, Keeps;
    var r' := Settle(env, kind, r, raw, rest, Dispatched);
    var before, after := Around(s, kind, r), Around(s, kind, r');
    var d := DocOf(c, raw);
    assert QueuedWell(c, r.docs, raw) by { assert raw in r.queue; }
    DocsOfLast(c, rest, raw);
    TaskDocsLast(r.tasks, TaskOf(env, kind, raw));
    forall x
      ensures Listed(c, after, x) == Listed(c, before, x)
    {
    }
    FocusKeeps(c, before, after, d);
  }

  lemma RotatedKeeps(c: Codec, kind: TaskKind, s: State, r: LoopResult, raw: string, rest: seq<string>)
    requires DocsOf(c, [raw] + rest) == DocsOf(c, r.queue)
    ensures Keeps(c, Around(s, kind, r), Around(s, kind, r.(queue := [raw] + rest)))
  {
    hide DocsOf, TaskDocs;
    var before, after := Around(s, kind, r), Around(s, kind, r.(queue := [raw] + rest));
    assert forall x :: Listed(c, after, x) == Listed(c, before, x);
  }

  lemma {:induction false} LoopKeeps(c: Codec, env: Env, kind: TaskKind, s: State, r: LoopResult)
    requires env.parse == c.parse && !r.raised && Inv(c, Around(s, kind, r))
    ensures Keeps(c, Around(s, kind, r), Around(s, kind, Loop(env, kind, r)))
    decreases |r.queue|
  {
    hide Loop, Dispatches, DocsOf, TaskDocs, Keeps;
    if Dispatches(r.log) >= env.maxPerPoll || r.queue == [] {
      LoopDone(env, kind, r);
      SameKeeps(c, Around(s, kind, r));
    } else {
      var raw, rest := r.queue[|r.queue| - 1], r.queue[..|r.queue| - 1];
      assert r.queue == rest + [raw];
      LoopStep(env, kind, r);
      assert QueuedWell(c, r.docs, raw);
      match FateOf(env, kind, r.docs, raw)
      case None =>
        DocsOfPrepend(c, raw, rest);
        DocsOfLast(c, rest, raw);
        RotatedKeeps(c, kind, s, r, raw, rest);
      case Some(fate) =>
        var r' := Settle(env, kind, r, raw, rest, fate);
        DispatchKeepsInv(c, env, kind, s, r, raw, rest);
        DispatchKeeps(c, env, kind, s, r, raw, rest);
        LoopKeeps(c, env, kind, s, r');
        KeepsThrough(c, Around(s, kind, r), Around(s, kind, r'), Around(s, kind, Loop(env, kind, r')));
    }
  }

  lemma PollKeeps(c: Codec, env: Env, s: State, ups: seq<string>, dels: seq<string>)
    requires env.parse == c.parse && Inv(c, s)
    requires Enumerates(ups, Ready(s.uploadDelay, env.now)) && Enumerates(dels, Ready(s.deleteDelay, env.now))
    ensures Keeps(c, s, Poll(env, s, ups, dels).state)
  {
    hide Loop, DocsOf, TaskDocs, Keeps;
    EmptyListing(ups, Ready(s.uploadDelay, env.now));
    EmptyListing(dels, Ready(s.deleteDelay, env.now));
    assert s.uploadDelay - Ready(s.uploadDelay, env.now) == s.uploadDelay;
    assert s.deleteDelay - Ready(s.deleteDelay, env.now) == s.deleteDelay;
    var u := LoopResult(s.docs, s.uploads, s.uploadDelay, s.tasks, [], false);
    assert Around(s, Ingest, u) == s;
    LoopKeeps(c, env, Ingest, s, u);
    LoopKeepsInv(c, env, Ingest, s, u);
    var s' := Around(s, Ingest, Loop(env, Ingest, u));
    var d := LoopResult(s'.docs, s'.deletes, s'.deleteDelay, s'.tasks, [], false);
    assert Around(s', Delete, d) == s';
    LoopKeeps(c, env, Delete, s', d);
    LoopKeepsInv(c, env, Delete, s', d);
    KeepsThrough(c, s, s', Around(s', Delete, Loop(env, Delete, d)));
  }

  // ---------------------------------------------------------------- pipelines

  /** The document of a task has that one item, and is not stuck; taking the task out leaves it none. */
  lemma TaskDocIsListed(c: Codec, s: State, i: nat)
    requires Inv(c, s) && i < |s.tasks|
    ensures var d := s.tasks[i].docId;
      && d in s.docs && IsActive(s.docs[d]) && Listed(c, s, d) == 1
      && forall docs' :: Listed(c, s.(docs := docs', tasks := Remove(s.tasks, i)), d) == 0
    ensures forall docs', x :: x != s.tasks[i].docId ==> Listed(c, s.(docs := docs', tasks := Remove(s.tasks, i)), x) == Listed(c, s, x)
  {
    hide DocsOf, TaskDocs;
    WithoutTask(c, s, i);
    TaskDocsRemove(s.tasks, i);
  }

  lemma StartKeeps(c: Codec, s: State, i: nat, valid: bool)
    requires Inv(c, s) && i < |s.tasks| && s.tasks[i].phase == Scheduled
    ensures Keeps(c, s, StartTask(s, i, valid))
  {
    hide DocsOf, TaskDocs, Keeps;
    var t := s.tasks[i];
    var d, s' := t.docId, StartTask(s, i, valid);
    WithoutTask(c, s, i);
    TaskDocIsListed(c, s, i);
    if t.kind == Delete || valid {
      TaskDocsRemove(s.tasks, i);
      TaskDocsReplace(s.tasks, i, t.(phase := Started(s.docs[d])));
      assert forall x :: Listed(c, s', x) == Listed(c, s, x);
    } else {
      assert s' == s.(docs := s.docs[d := Failed], tasks := Remove(s.tasks, i));
    }
    FocusKeeps(c, s, s', d);
  }

  lemma SupersedeKeeps(c: Codec, s: State, other: string)
    requires other in s.docs && s.docs[other] == Indexed
    ensures Keeps(c, s, s.(docs := s.docs[other := Outdated]))
  {
    hide Listed, Keeps;
    ListedIgnoresDocs(c, s, s.(docs := s.docs[other := Outdated]));
    FocusKeeps(c, s, s.(docs := s.docs[other := Outdated]), other);
  }

  lemma FinishKeeps(c: Codec, s: State, i: nat, outcome: Outcome)
    requires Inv(c, s) && i < |s.tasks| && s.tasks[i].phase.Started?
    requires outcome.TakesOver? ==> IsDuplicate(s, i, outcome.other)
    ensures Keeps(c, s, FinishTask(s, i, outcome))
  {
    hide DocsOf, TaskDocs, AllWell, Listed, Keeps;
    var d := s.tasks[i].docId;
    if outcome.TakesOver? {
      var s' := s.(docs := s.docs[outcome.other := Outdated]);
      SupersedeKeeps(c, s, outcome.other);
      SupersedeKeepsInv(c, s, outcome.other);
      TaskDocIsListed(c, s', i);
      FocusKeeps(c, s', FinishTask(s, i, outcome), d);
      KeepsThrough(c, s, s', FinishTask(s, i, outcome));
    } else {
      TaskDocIsListed(c, s, i);
      FocusKeeps(c, s, FinishTask(s, i, outcome), d);
    }
  }

  /** An escaping error strands the task's document. */
  lemma EscapeStrands(c: Codec, s: State, i: nat)
    requires Inv(c, s) && i < |s.tasks|
    ensures var s', d := s.(tasks := Remove(s.tasks, i)), s.tasks[i].docId;
      Unmoved(c, s, s', d) && !IsStuck(c, s, d) && IsStuck(c, s', d)
  {
    hide DocsOf, TaskDocs, AllWell, Listed;
    TaskDocIsListed(c, s, i);
    assert s.(tasks := Remove(s.tasks, i)) == s.(docs := s.docs, tasks := Remove(s.tasks, i));
  }

  // ---------------------------------------------------------------- the operator's endpoints

  /** After an operator's step the document is not stranded, and no other document is touched. */
  lemma RescueFrees(c: Codec, s: State, d: string)
    requires c.RoundTrips() && Inv(c, s)
    ensures d in RescuedBy(s, ForceFail(d)) ==> Unmoved(c, s, ForceFailDoc(c, s, d), d) && !IsStuck(c, ForceFailDoc(c, s, d), d)
    ensures d in RescuedBy(s, Recover(d)) ==> Unmoved(c, s, RecoverDoc(c, s, d), d) && !IsStuck(c, RecoverDoc(c, s, d), d)
  {
    hide DocsOf, TaskDocs, Dequeued;
    DequeuedDocs(c, s.docs, s.uploads, d);
    assert c.parse(c.dumps(d, true)) == Event(d, true);
    DocsOfPrepend(c, c.dumps(d, true), s.uploads);
  }

  // ---------------------------------------------------------------- steps and runs

  lemma StuckIsStranded(c: Codec, s: State)
    requires Inv(c, s)
    ensures forall d :: d in Stranded(c, s) <==> IsStuck(c, s, d)
  {
    hide Listed, Inv;
    forall d
      ensures Outstanding(c, s, d) == Listed(c, s, d)
    {
      NothingDelayed(c, s, d);
    }
  }

  lemma StepOnStuck(c: Codec, s: State, step: Step)
    requires c.RoundTrips() && Inv(c, s) && Enabled(c, s, step)
    ensures forall d :: IsStuck(c, Next(c, s, step), d) <==> (IsStuck(c, s, d) && d !in RescuedBy(s, step)) || d in StrandedBy(s, step)
    ensures forall d :: IsStuck(c, s, d) && d !in RescuedBy(s, step) ==>
      d in s.docs && d in Next(c, s, step).docs && Next(c, s, step).docs[d] == s.docs[d]
  {
    hide Inv, Listed, Poll, UploadDoc, EnqueueUpload, EnqueueDelete, ReindexKb, StartTask, FinishTask, ForceFailDoc, RecoverDoc;
    SameKeeps(c, s);
    match step
    case Upload(d, stored) => UploadStrands(c, s, d, stored);
    case Unpushed(d) =>
      if !(d in s.docs && IsActive(s.docs[d])) {
        UnpushedStrands(c, s, d);
      }
    case Reindex(d, force, changed) =>
      if d in s.docs && !IsActive(s.docs[d]) {
        EnqueueKeeps(c, s, d, force);
      }
    case ReindexAll(rows, force) => ReindexKbKeeps(c, s, rows, force);
    case DeleteRequest(d, force) =>
      if d in s.docs && !IsActive(s.docs[d]) {
        EnqueueKeeps(c, s, d, force);
      }
    case PollStep(env, ups, dels) => PollKeeps(c, env, s, ups, dels);
    case Start(i, valid) => StartKeeps(c, s, i, valid);
    case Supersede(i, other) => SupersedeKeeps(c, s, other);
    case Finish(i, outcome) => FinishKeeps(c, s, i, outcome);
    case Escape(i) => EscapeStrands(c, s, i);
    case ForceFail(d) => OperatorOnStuck(c, s, step);
    case Recover(d) => OperatorOnStuck(c, s, step);
  }

  lemma OperatorOnStuck(c: Codec, s: State, step: Step)
    requires c.RoundTrips() && Inv(c, s) && Enabled(c, s, step) && (step.ForceFail? || step.Recover?)
    ensures forall d :: IsStuck(c, Next(c, s, step), d) <==> IsStuck(c, s, d) && d !in RescuedBy(s, step)
    ensures forall d :: IsStuck(c, s, d) && d !in RescuedBy(s, step) ==>
      d in s.docs && d in Next(c, s, step).docs && Next(c, s, step).docs[d] == s.docs[d]
  {
    hide Inv, Listed, ForceFailDoc, RecoverDoc;
    RescueFrees(c, s, step.d);
    RefusedStep(c, s, step.d);
  }

  lemma RefusedStep(c: Codec, s: State, d: string)
    ensures RescuedBy(s, ForceFail(d)) == {} ==> ForceFailDoc(c, s, d) == s
    ensures RescuedBy(s, Recover(d)) == {} ==> RecoverDoc(c, s, d) == s
  {
  }

  /** A step strands and rescues exactly the documents named above, and leaves the other stranded ones as
      they are. */
  lemma StepStrands(c: Codec, s: State, step: Step)
    requires c.RoundTrips() && Inv(c, s) && Enabled(c, s, step)
    ensures Stranded(c, Next(c, s, step)) == (Stranded(c, s) - RescuedBy(s, step)) + StrandedBy(s, step)
    ensures forall d :: d in Stranded(c, s) && d !in RescuedBy(s, step) ==>
      d in s.docs && d in Next(c, s, step).docs && Next(c, s, step).docs[d] == s.docs[d]
  {
    hide Inv, IsStuck, Stranded, Next, StrandedBy, RescuedBy;
    NextKeepsInv(c, s, step);
    StuckIsStranded(c, s);
    StuckIsStranded(c, Next(c, s, step));
    StepOnStuck(c, s, step);
  }

  /** No step from `i` to `n` rescues `d`. */
  ghost predicate Unrescued(states: seq<State>, steps: seq<Step>, d: string, i: nat, n: nat)
    requires n <= |steps| <= |states|
  {
    forall j :: i <= j < n ==> d !in RescuedBy(states[j], steps[j])
  }

  /** In every run, the stranded documents are exactly those whose object upload failed after the row was
      taken, whose event a request failed to push, or one of whose tasks ended with an error that nothing
      marked them for, and that no operator has failed or recovered since. */
  lemma {:induction false} StrandedIff(c: Codec, states: seq<State>, steps: seq<Step>, n: nat, d: string)
    requires c.RoundTrips() && IsRun(c, states, steps) && n <= |steps|
    ensures d in Stranded(c, states[n]) <==>
      exists i :: 0 <= i < n && d in StrandedBy(states[i], steps[i]) && Unrescued(states, steps, d, i + 1, n)
  {
    hide Stranded, StrandedBy, RescuedBy, Inv, Next;
    if n > 0 {
      StrandedIff(c, states, steps, n - 1, d);
      RunKeepsInv(c, states, steps, n - 1);
      StepStrands(c, states[n - 1], steps[n - 1]);
      assert Unrescued(states, steps, d, n, n);
      assert forall i: nat :: i < n ==>
        (Unrescued(states, steps, d, i, n) <==> Unrescued(states, steps, d, i, n - 1) && d !in RescuedBy(states[n - 1], steps[n - 1]));
    } else {
      NoneYet(c);
    }
  }

  lemma NoneYet(c: Codec)
    ensures Stranded(c, INITIAL) == {}
  {
  }

  /** Until an operator steps in, a stranded document keeps its status and gets no item: no request, poll
      or pipeline step reaches it. */
  lemma {:induction false} StaysStranded(c: Codec, states: seq<State>, steps: seq<Step>, m: nat, n: nat, d: string)
    requires c.RoundTrips() && IsRun(c, states, steps) && m <= n <= |steps|
    requires d in Stranded(c, states[m]) && Unrescued(states, steps, d, m, n)
    ensures d in Stranded(c, states[n]) && d in states[m].docs && d in states[n].docs && states[n].docs[d] == states[m].docs[d]
    decreases n
  {
    hide StrandedBy, RescuedBy, Inv, Next, Outstanding;
    if m < n {
      StaysStranded(c, states, steps, m, n - 1, d);
      RunKeepsInv(c, states, steps, n - 1);
      StepStrands(c, states[n - 1], steps[n - 1]);
    }
  }

  /** Without such failures a document is active exactly while it has its one item. */
  lemma ActiveIffOutstanding(c: Codec, states: seq<State>, steps: seq<Step>, n: nat, d: string)
    requires c.RoundTrips() && IsRun(c, states, steps) && n <= |steps|
    requires forall i :: 0 <= i < n ==> StrandedBy(states[i], steps[i]) == {}
    ensures Outstanding(c, states[n], d) == if d in states[n].docs && IsActive(states[n].docs[d]) then 1 else 0
  {
    hide Outstanding, StrandedBy, RescuedBy;
    AtMostOneOutstanding(c, states, steps, n, d);
    StrandedIff(c, states, steps, n, d);
  }
}
