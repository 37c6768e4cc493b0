/** Whole runs of the document lifecycle: guarded requests, polls, and pipeline starts and ends
    (`docs.py`, `enqueue.py`, `queue_worker.py`, `runner.py`, `delete.py`, `doc_state.py`). */
module Lifecycle {
  import opened DedupTypes
  import opened QueueLaws
  import opened QueueWorker
  import opened Wrappers

  // ---------------------------------------------------------------- pipeline steps

  function Remove(tasks: seq<Task>, i: nat): seq<Task>
    requires i < |tasks|
  {
    tasks[..i] + tasks[i + 1..]
  }

  /** A scheduled task gets a semaphore slot: `run_ingest_pipeline` up to `set_processing`, or
      `delete_doc` up to `set_deleting`. `valid` is the outcome of `validate`. */
  function StartTask(s: State, i: nat, valid: bool): State
    requires i < |s.tasks| && s.tasks[i].phase == Scheduled
  {
    var t := s.tasks[i];
    var d := t.docId;
    if d !in s.docs then s.(tasks := Remove(s.tasks, i))
    else
      var started := s.tasks[i := t.(phase := Started(s.docs[d]))];
      match t.kind
      case Ingest =>
        if valid then s.(docs := s.docs[d := Running], tasks := started)
        else s.(docs := s.docs[d := Failed], tasks := Remove(s.tasks, i))
      case Delete =>
        if s.docs[d] == Deleted then s.(tasks := Remove(s.tasks, i))
        else s.(docs := s.docs[d := Deleting], tasks := started)
  }

  /** How a started task ends. A dedup verdict that stops indexing is the end of its ingest: the
      incoming document loses, or takes over the chunks of the one it replaces. */
  datatype Outcome = Success | Failure | LosesVerdict | TakesOver(other: string)

  function FinishTask(s: State, i: nat, outcome: Outcome): State
    requires i < |s.tasks| && s.tasks[i].phase.Started?
  {
    var t := s.tasks[i];
    var d := t.docId;
    var s' := s.(tasks := Remove(s.tasks, i));
    match outcome
    case Failure => s'.(docs := SetStatus(s.docs, d, Failed))
    case LosesVerdict => s'.(docs := SetStatus(s.docs, d, Outdated))
    case TakesOver(other) => s'.(docs := SetStatus(SetStatus(s.docs, other, Outdated), d, Indexed))
    case Success =>
      if t.kind == Ingest then s'.(docs := SetStatus(s.docs, d, Indexed))
      else if t.phase.was == Indexed && !t.force then s'.(docs := SetStatus(s.docs, d, Deleted))
      else s'.(docs := s.docs - {d})
  }

  datatype Step =
    | Upload(d: string, stored: bool)
    | Unpushed(d: string)                // a request marks its document pending, then fails to push the event
    | Reindex(d: string, force: bool, changed: bool)
    | ReindexAll(rows: seq<(string, Status, bool)>, force: bool)
    | DeleteRequest(d: string, force: bool)
    | PollStep(env: Env, ups: seq<string>, dels: seq<string>)
    | Start(i: nat, valid: bool)
    | Supersede(i: nat, other: string)   // a running ingest wins over a similar document and goes on
    | Finish(i: nat, outcome: Outcome)
    | Escape(i: nat)                     // a task ends with an error that nothing marks the document for
    | ForceFail(d: string)               // an operator fails a document no pipeline works on
    | Recover(d: string)                 // an operator re-queues one that only its status says is running

  /** `reindex_kb` lists every row once, with its status. */
  ghost predicate IsListing(docs: map<string, Status>, rows: seq<(string, Status, bool)>) {
    && (forall i :: 0 <= i < |rows| ==> rows[i].0 in docs && rows[i].1 == docs[rows[i].0])
    && forall i, j :: 0 <= i < j < |rows| ==> rows[i].0 != rows[j].0
  }

  /** The other document of a verdict was found indexed. */
  ghost predicate IsDuplicate(s: State, i: nat, other: string)
    requires i < |s.tasks|
  {
    s.tasks[i].kind == Ingest && other in s.docs && s.docs[other] == Indexed && other != s.tasks[i].docId
  }

  ghost predicate Enabled(c: Codec, s: State, step: Step) {
    match step
    case Upload(d, _) => d != ""
    case Unpushed(d) => d != ""
    case Reindex(_, _, _) => true
    case ReindexAll(rows, _) => IsListing(s.docs, rows)
    case DeleteRequest(_, _) => true
    case PollStep(env, ups, dels) =>
      env.parse == c.parse && Enumerates(ups, Ready(s.uploadDelay, env.now)) && Enumerates(dels, Ready(s.deleteDelay, env.now))
    case Start(i, _) => i < |s.tasks| && s.tasks[i].phase == Scheduled
    case Supersede(i, other) => i < |s.tasks| && s.tasks[i].phase.Started? && IsDuplicate(s, i, other)
    case Finish(i, outcome) =>
      && i < |s.tasks| && s.tasks[i].phase.Started?
      && (outcome.LosesVerdict? ==> s.tasks[i].kind == Ingest)
      && (outcome.TakesOver? ==> IsDuplicate(s, i, outcome.other))
    case Escape(i) => i < |s.tasks|
    case ForceFail(d) => DocsOf(c, s.deletes)[d] == 0 && TaskDocs(s.tasks)[d] == 0
    case Recover(d) => TaskDocs(s.tasks)[d] == 0
  }

  ghost function Next(c: Codec, s: State, step: Step): State
    requires Enabled(c, s, step)
  {
    match step
    case Upload(d, stored) => UploadDoc(c, s, d, stored)
    case Unpushed(d) => if d in s.docs && IsActive(s.docs[d]) then s else s.(docs := s.docs[d := Pending])
    case Reindex(d, force, changed) => ReindexDoc(c, s, d, force, changed)
    case ReindexAll(rows, force) => ReindexKb(c, s, rows, force)
    case DeleteRequest(d, force) => RequestDelete(c, s, d, force)
    case PollStep(env, ups, dels) => Poll(env, s, ups, dels).state
    case Start(i, valid) => StartTask(s, i, valid)
    case Supersede(i, other) => s.(docs := SetStatus(s.docs, other, Outdated))
    case Finish(i, outcome) => FinishTask(s, i, outcome)
    case Escape(i) => s.(tasks := Remove(s.tasks, i))
    case ForceFail(d) => ForceFailDoc(c, s, d)
    case Recover(d) => RecoverDoc(c, s, d)
  }

  const INITIAL: State := State(map[], [], [], map[], map[], [])

  ghost predicate IsRun(c: Codec, states: seq<State>, steps: seq<Step>) {
    && |states| == |steps| + 1 && states[0] == INITIAL
    && forall i :: 0 <= i < |steps| ==> Enabled(c, states[i], steps[i]) && states[i + 1] == Next(c, states[i], steps[i])
  }

  // ---------------------------------------------------------------- outstanding items

  function DocOf(c: Codec, raw: string): string {
    if c.parse(raw).Event? then c.parse(raw).docId else ""
  }

  function DocsOf(c: Codec, queue: seq<string>): multiset<string> {
    if queue == [] then multiset{} else DocsOf(c, queue[..|queue| - 1]) + multiset{DocOf(c, queue[|queue| - 1])}
  }

  function TaskDocs(tasks: seq<Task>): multiset<string> {
    if tasks == [] then multiset{} else TaskDocs(tasks[..|tasks| - 1]) + multiset{tasks[|tasks| - 1].docId}
  }

  /** How many queued, delayed and in-flight items a document has. */
  function Outstanding(c: Codec, s: State, d: string): nat {
    Listed(c, s, d) + |set raw | raw in s.uploadDelay && DocOf(c, raw) == d| + |set raw | raw in s.deleteDelay && DocOf(c, raw) == d|
  }

  function Listed(c: Codec, s: State, d: string): nat {
    DocsOf(c, s.uploads)[d] + DocsOf(c, s.deletes)[d] + TaskDocs(s.tasks)[d]
  }

  /** The status that goes with an outstanding item. */
  predicate QueuedWell(c: Codec, docs: map<string, Status>, raw: string) {
    && IsEvent(c.parse, raw) && DocOf(c, raw) in docs && docs[DocOf(c, raw)] == Pending
    && (raw == c.dumps(DocOf(c, raw), false) || raw == c.dumps(DocOf(c, raw), true))
  }

  predicate RunsWell(docs: map<string, Status>, t: Task) {
    && t.docId in docs
    && match (t.kind, t.phase)
       case (Ingest, _) => docs[t.docId] == Running
       case (Delete, Scheduled) => docs[t.docId] == Pending
       case (Delete, Started(was)) => docs[t.docId] == Deleting && was == Pending
  }

  ghost predicate AllWell(c: Codec, docs: map<string, Status>, uploads: seq<string>, deletes: seq<string>, tasks: seq<Task>) {
    && (forall raw :: raw in uploads || raw in deletes ==> QueuedWell(c, docs, raw))
    && (forall t :: t in tasks ==> RunsWell(docs, t))
  }

  ghost predicate Inv(c: Codec, s: State) {
    && "" !in s.docs
    && s.uploadDelay == map[] && s.deleteDelay == map[]
    && AllWell(c, s.docs, s.uploads, s.deletes, s.tasks)
    && forall d :: Listed(c, s, d) <= 1
  }

  // ---------------------------------------------------------------- counting

  lemma {:induction false} DocsOfPrepend(c: Codec, raw: string, queue: seq<string>)
    ensures DocsOf(c, [raw] + queue) == DocsOf(c, queue) + multiset{DocOf(c, raw)}
  {
    if queue == [] {
      assert [raw] + queue == [raw];
      assert DocsOf(c, [raw]) == DocsOf(c, []) + multiset{DocOf(c, raw)};
    } else {
      var front, last := queue[..|queue| - 1], queue[|queue| - 1];
      assert ([raw] + queue)[..|queue|] == [raw] + front;
      DocsOfPrepend(c, raw, front);
    }
  }

  lemma {:induction false} DocsOfMember(c: Codec, queue: seq<string>, raw: string)
    requires raw in queue
    ensures DocsOf(c, queue)[DocOf(c, raw)] >= 1
  {
    var front, last := queue[..|queue| - 1], queue[|queue| - 1];
    assert queue == front + [last];
    if raw != last {
      DocsOfMember(c, front, raw);
    }
  }

  lemma {:induction false} TaskDocsConcat(a: seq<Task>, b: seq<Task>)
    ensures TaskDocs(a + b) == TaskDocs(a) + TaskDocs(b)
  {
    if b == [] {
      assert a + b == a;
    } else {
      assert (a + b)[..|a + b| - 1] == a + b[..|b| - 1];
      TaskDocsConcat(a, b[..|b| - 1]);
    }
  }

  lemma TaskDocsOne(t: Task)
    ensures TaskDocs([t]) == multiset{t.docId}
  {
    assert [t][..0] == [];
  }

  lemma TaskDocsReplace(tasks: seq<Task>, i: nat, t: Task)
    requires i < |tasks|
    ensures TaskDocs(tasks[i := t]) == TaskDocs(Remove(tasks, i)) + multiset{t.docId}
  {
    hide TaskDocs;
    var a, b := tasks[..i], tasks[i + 1..];
    assert tasks[i := t] == a + [t] + b;
    TaskDocsConcat(a + [t], b);
    TaskDocsConcat(a, [t]);
    TaskDocsConcat(a, b);
    TaskDocsOne(t);
  }

  lemma TaskDocsRemove(tasks: seq<Task>, i: nat)
    requires i < |tasks|
    ensures TaskDocs(tasks) == TaskDocs(Remove(tasks, i)) + multiset{tasks[i].docId}
    ensures forall t :: t in Remove(tasks, i) ==> t in tasks
  {
    hide TaskDocs;
    assert tasks[i := tasks[i]] == tasks;
    TaskDocsReplace(tasks, i, tasks[i]);
  }

  lemma TaskDocsMember(tasks: seq<Task>, t: Task)
    requires t in tasks
    ensures TaskDocs(tasks)[t.docId] >= 1
  {
    var i :| 0 <= i < |tasks| && tasks[i] == t;
    TaskDocsRemove(tasks, i);
  }

  /** Changing the status of a document nobody is waiting for disturbs no one. */
  lemma FreeDoc(c: Codec, docs: map<string, Status>, docs': map<string, Status>, uploads: seq<string>, deletes: seq<string>,
                tasks: seq<Task>, d: string)
    requires AllWell(c, docs, uploads, deletes, tasks)
    requires DocsOf(c, uploads)[d] == 0 && DocsOf(c, deletes)[d] == 0 && TaskDocs(tasks)[d] == 0
    requires forall x :: x in docs && x != d ==> x in docs' && docs'[x] == docs[x]
    ensures AllWell(c, docs', uploads, deletes, tasks)
  {
    forall raw | raw in uploads || raw in deletes
      ensures QueuedWell(c, docs', raw)
    {
      if raw in uploads {
        DocsOfMember(c, uploads, raw);
      } else {
        DocsOfMember(c, deletes, raw);
      }
    }
    forall t | t in tasks
      ensures RunsWell(docs', t)
    {
      TaskDocsMember(tasks, t);
    }
  }

  /** What an outstanding item says about its document's status. */
  lemma ItemsShow(c: Codec, docs: map<string, Status>, uploads: seq<string>, deletes: seq<string>, tasks: seq<Task>, d: string)
    requires AllWell(c, docs, uploads, deletes, tasks)
    ensures DocsOf(c, uploads)[d] > 0 || DocsOf(c, deletes)[d] > 0 ==> d in docs && docs[d] == Pending
    ensures TaskDocs(tasks)[d] > 0 ==> d in docs && docs[d] in {Pending, Running, Deleting}
  {
    hide DocsOf, TaskDocs;
    if DocsOf(c, uploads)[d] > 0 {
      var raw := DocsOfWitness(c, uploads, d);
      assert QueuedWell(c, docs, raw);
    }
    if DocsOf(c, deletes)[d] > 0 {
      var raw := DocsOfWitness(c, deletes, d);
      assert QueuedWell(c, docs, raw);
    }
    if TaskDocs(tasks)[d] > 0 {
      var t := TaskDocsWitness(tasks, d);
      assert RunsWell(docs, t);
    }
  }

  /** An outstanding item shows in its document's status. */
  lemma ListedIsActive(c: Codec, s: State, d: string)
    requires Inv(c, s) && Listed(c, s, d) > 0
    ensures d in s.docs && (s.docs[d] == Pending || s.docs[d] == Running || s.docs[d] == Deleting)
  {
    hide DocsOf, TaskDocs;
    ItemsShow(c, s.docs, s.uploads, s.deletes, s.tasks, d);
  }

  lemma NothingDelayed(c: Codec, s: State, d: string)
    requires Inv(c, s)
    ensures Outstanding(c, s, d) == Listed(c, s, d)
  {
    assert (set raw | raw in s.uploadDelay && DocOf(c, raw) == d) == {};
    assert (set raw | raw in s.deleteDelay && DocOf(c, raw) == d) == {};
  }

  /** A document in a stable status, still uploading, or gone has nothing outstanding. */
  lemma StableHasNone(c: Codec, s: State, d: string)
    requires Inv(c, s) && (d in s.docs ==> !IsActive(s.docs[d]) || s.docs[d] == Uploading || s.docs[d] == Fetching)
    ensures Listed(c, s, d) == 0
  {
    if Listed(c, s, d) > 0 {
      ListedIsActive(c, s, d);
    }
  }

  lemma {:induction false} DocsOfWitness(c: Codec, queue: seq<string>, d: string) returns (raw: string)
    requires DocsOf(c, queue)[d] > 0
    ensures raw in queue && DocOf(c, raw) == d
  {
    var front, last := queue[..|queue| - 1], queue[|queue| - 1];
    if DocOf(c, last) == d {
      raw := last;
    } else {
      raw := DocsOfWitness(c, front, d);
    }
  }

  lemma {:induction false} TaskDocsWitness(tasks: seq<Task>, d: string) returns (t: Task)
    requires TaskDocs(tasks)[d] > 0
    ensures t in tasks && t.docId == d
  {
    var front, last := tasks[..|tasks| - 1], tasks[|tasks| - 1];
    if last.docId == d {
      t := last;
    } else {
      t := TaskDocsWitness(front, d);
    }
  }

  // ---------------------------------------------------------------- requests keep the invariant

  lemma PushUploadKeepsInv(c: Codec, s: State, d: string, force: bool)
    requires c.RoundTrips() && d != "" && d in s.docs && Inv(c, s) && Listed(c, s, d) == 0
    ensures Inv(c, s.(docs := s.docs[d := Pending], uploads := [c.dumps(d, force)] + s.uploads))
  {
    hide DocsOf, TaskDocs;
    var raw := c.dumps(d, force);
    var s' := s.(docs := s.docs[d := Pending], uploads := [raw] + s.uploads);
    assert c.parse(raw) == Event(d, force);
    DocsOfPrepend(c, raw, s.uploads);
    FreeDoc(c, s.docs, s.docs[d := Pending], s.uploads, s.deletes, s.tasks, d);
    forall x
      ensures Listed(c, s', x) <= 1
    {
      assert Listed(c, s', x) == Listed(c, s, x) + (if x == d then 1 else 0);
    }
  }

  lemma PushDeleteKeepsInv(c: Codec, s: State, d: string, force: bool)
    requires c.RoundTrips() && d != "" && d in s.docs && Inv(c, s) && Listed(c, s, d) == 0
    ensures Inv(c, s.(docs := s.docs[d := Pending], deletes := [c.dumps(d, force)] + s.deletes))
  {
    hide DocsOf, TaskDocs;
    var raw := c.dumps(d, force);
    var s' := s.(docs := s.docs[d := Pending], deletes := [raw] + s.deletes);
    assert c.parse(raw) == Event(d, force);
    DocsOfPrepend(c, raw, s.deletes);
    FreeDoc(c, s.docs, s.docs[d := Pending], s.uploads, s.deletes, s.tasks, d);
    forall x
      ensures Listed(c, s', x) <= 1
    {
      assert Listed(c, s', x) == Listed(c, s, x) + (if x == d then 1 else 0);
    }
  }

  lemma ListedIgnoresDocs(c: Codec, s: State, s': State)
    requires s'.uploads == s.uploads && s'.deletes == s.deletes && s'.tasks == s.tasks
    ensures forall d :: Listed(c, s', d) == Listed(c, s, d)
  {
  }

  /** Any status may be given to a document with nothing outstanding. */
  lemma SetFreeStatus(c: Codec, s: State, d: string, status: Status)
    requires d != "" && Inv(c, s) && Listed(c, s, d) == 0
    ensures Inv(c, s.(docs := s.docs[d := status]))
  {
    hide DocsOf, TaskDocs;
    FreeDoc(c, s.docs, s.docs[d := status], s.uploads, s.deletes, s.tasks, d);
    ListedIgnoresDocs(c, s, s.(docs := s.docs[d := status]));
  }

  lemma UploadKeepsInv(c: Codec, s: State, d: string, stored: bool)
    requires c.RoundTrips() && d != "" && Inv(c, s)
    ensures Inv(c, UploadDoc(c, s, d, stored))
  {
    hide DocsOf, TaskDocs, Listed;
    if !(d in s.docs && IsActive(s.docs[d])) {
      StableHasNone(c, s, d);
      if stored {
        var s' := s.(docs := s.docs[d := Pending]);
        SetFreeStatus(c, s, d, Pending);
        assert Listed(c, s', d) == Listed(c, s, d) by { ListedIgnoresDocs(c, s, s'); }
        PushUploadKeepsInv(c, s', d, false);
      } else {
        SetFreeStatus(c, s, d, Uploading);
      }
    }
  }

  lemma EnqueueUploadKeepsInv(c: Codec, s: State, d: string, force: bool)
    requires c.RoundTrips() && Inv(c, s) && (d in s.docs ==> !IsActive(s.docs[d]))
    ensures Inv(c, EnqueueUpload(c, s, d, force))
  {
    hide DocsOf, TaskDocs, Listed;
    if d in s.docs {
      StableHasNone(c, s, d);
      PushUploadKeepsInv(c, s, d, force);
    }
  }

  lemma DeleteRequestKeepsInv(c: Codec, s: State, d: string, force: bool)
    requires c.RoundTrips() && Inv(c, s)
    ensures Inv(c, RequestDelete(c, s, d, force))
  {
    hide DocsOf, TaskDocs, Listed;
    if d in s.docs && !IsActive(s.docs[d]) {
      StableHasNone(c, s, d);
      PushDeleteKeepsInv(c, s, d, force);
    }
  }

  /** Judging rows by the statuses of the listing is sound: a row's own turn comes before anything
      in the request changes it. */
  lemma {:induction false} ReindexKbKeepsInv(c: Codec, s: State, rows: seq<(string, Status, bool)>, force: bool)
    requires c.RoundTrips() && Inv(c, s) && IsListing(s.docs, rows)
    ensures Inv(c, ReindexKb(c, s, rows, force))
    ensures ReindexKb(c, s, rows, force).docs.Keys == s.docs.Keys
    ensures forall d :: d in s.docs && (forall i :: 0 <= i < |rows| ==> rows[i].0 != d) ==> ReindexKb(c, s, rows, force).docs[d] == s.docs[d]
  {
    hide Inv;
    if rows != [] {
      var front, row := rows[..|rows| - 1], rows[|rows| - 1];
      ReindexKbKeepsInv(c, s, front, force);
      var s' := ReindexKb(c, s, front, force);
      assert s'.docs[row.0] == row.1;
      if Reindexable(row.1, row.2) {
        EnqueueUploadKeepsInv(c, s', row.0, force);
      }
    }
  }

  // ---------------------------------------------------------------- polls keep the invariant

  /** The whole state around one dispatch loop. */
  function Around(s: State, kind: TaskKind, r: LoopResult): State {
    match kind
    case Ingest => s.(docs := r.docs, uploads := r.queue, uploadDelay := r.delay, tasks := r.tasks)
    case Delete => s.(docs := r.docs, deletes := r.queue, deleteDelay := r.delay, tasks := r.tasks)
  }

  lemma DocsOfLast(c: Codec, rest: seq<string>, raw: string)
    ensures DocsOf(c, rest + [raw]) == DocsOf(c, rest) + multiset{DocOf(c, raw)}
  {
    assert (rest + [raw])[..|rest|] == rest;
  }

  lemma TaskDocsLast(tasks: seq<Task>, t: Task)
    ensures TaskDocs(tasks + [t]) == TaskDocs(tasks) + multiset{t.docId}
  {
    assert (tasks + [t])[..|tasks|] == tasks;
  }

  /** A dispatched event turns into a task: the document keeps exactly one item. */
  lemma DispatchKeepsInv(c: Codec, env: Env, kind: TaskKind, s: State, r: LoopResult, raw: string, rest: seq<string>)
    requires env.parse == c.parse && r.queue == rest + [raw] && Inv(c, Around(s, kind, r))
    requires FateOf(env, kind, r.docs, raw) == Some(Dispatched)
    ensures Inv(c, Around(s, kind, Settle(env, kind, r, raw, rest, Dispatched)))
  {
    hide DocsOf, TaskDocs;
    var r' := Settle(env, kind, r, raw, rest, Dispatched);
    var before, after := Around(s, kind, r), Around(s, kind, r');
    var d, t := DocOf(c, raw), TaskOf(env, kind, raw);
    assert raw in r.queue;
    assert QueuedWell(c, r.docs, raw);
    DocsOfLast(c, rest, raw);
    TaskDocsLast(r.tasks, t);
    forall x
      ensures Listed(c, after, x) == Listed(c, before, x)
    {
    }
    assert Listed(c, before, d) <= 1;
    var uploads, deletes := if kind == Ingest then rest else s.uploads, if kind == Delete then rest else s.deletes;
    FreeDoc(c, r.docs, r'.docs, uploads, deletes, r.tasks, d);
    assert RunsWell(r'.docs, t);
  }

  /** In a state of a guarded run every queued event is dispatched (or waits for the database):
      nothing is ever delayed or skipped. */
  lemma {:induction false} LoopKeepsInv(c: Codec, env: Env, kind: TaskKind, s: State, r: LoopResult)
    requires env.parse == c.parse && !r.raised && Inv(c, Around(s, kind, r))
    ensures Inv(c, Around(s, kind, Loop(env, kind, r))) && !Loop(env, kind, r).raised
    decreases |r.queue|
  {
    hide Loop, Dispatches, DocsOf, TaskDocs;
    if Dispatches(r.log) >= env.maxPerPoll || r.queue == [] || r.raised {
      LoopDone(env, kind, r);
    } else {
      var raw, rest := r.queue[|r.queue| - 1], r.queue[..|r.queue| - 1];
      assert r.queue == rest + [raw];
      LoopStep(env, kind, r);
      assert QueuedWell(c, r.docs, raw);
      match FateOf(env, kind, r.docs, raw)
      case None =>
        DocsOfPrepend(c, raw, rest);
        DocsOfLast(c, rest, raw);
        RotatedKeepsInv(c, kind, s, r, raw, rest);
      case Some(fate) =>
        assert fate == Dispatched;
        DispatchKeepsInv(c, env, kind, s, r, raw, rest);
        LoopKeepsInv(c, env, kind, s, Settle(env, kind, r, raw, rest, fate));
    }
  }

  lemma RotatedKeepsInv(c: Codec, kind: TaskKind, s: State, r: LoopResult, raw: string, rest: seq<string>)
    requires r.queue == rest + [raw] && Inv(c, Around(s, kind, r))
    requires DocsOf(c, [raw] + rest) == DocsOf(c, r.queue)
    ensures Inv(c, Around(s, kind, r.(queue := [raw] + rest)))
  {
    hide DocsOf, TaskDocs;
    var before, after := Around(s, kind, r), Around(s, kind, r.(queue := [raw] + rest));
    assert forall x :: Listed(c, after, x) == Listed(c, before, x);
    assert forall x :: x in [raw] + rest ==> x in r.queue;
  }

  lemma PollKeepsInv(c: Codec, env: Env, s: State, ups: seq<string>, dels: seq<string>)
    requires env.parse == c.parse && Inv(c, s)
    requires Enumerates(ups, Ready(s.uploadDelay, env.now)) && Enumerates(dels, Ready(s.deleteDelay, env.now))
    ensures Inv(c, Poll(env, s, ups, dels).state)
  {
    hide Loop, DocsOf, TaskDocs;
    EmptyListing(ups, Ready(s.uploadDelay, env.now));
    EmptyListing(dels, Ready(s.deleteDelay, env.now));
    assert s.uploadDelay - Ready(s.uploadDelay, env.now) == s.uploadDelay;
    assert s.deleteDelay - Ready(s.deleteDelay, env.now) == s.deleteDelay;
    var u := LoopResult(s.docs, s.uploads, s.uploadDelay, s.tasks, [], false);
    assert Around(s, Ingest, u) == s;
    LoopKeepsInv(c, env, Ingest, s, u);
    var s' := Around(s, Ingest, Loop(env, Ingest, u));
    var d := LoopResult(s'.docs, s'.deletes, s'.deleteDelay, s'.tasks, [], false);
    assert Around(s', Delete, d) == s';
    LoopKeepsInv(c, env, Delete, s', d);
  }

  lemma EmptyListing(items: seq<string>, ready: set<string>)
    requires ready == {} && Enumerates(items, ready)
    ensures items == []
  {
    assert |items| == |multiset(items)| == 0;
  }

  // ---------------------------------------------------------------- pipelines keep the invariant

  /** Taking out task `i` leaves nothing outstanding for its document. */
  lemma WithoutTask(c: Codec, s: State, i: nat)
    requires Inv(c, s) && i < |s.tasks|
    ensures var d := s.tasks[i].docId;
      && DocsOf(c, s.uploads)[d] == 0 && DocsOf(c, s.deletes)[d] == 0 && TaskDocs(Remove(s.tasks, i))[d] == 0
      && AllWell(c, s.docs, s.uploads, s.deletes, Remove(s.tasks, i))
      && (forall x :: TaskDocs(Remove(s.tasks, i))[x] <= TaskDocs(s.tasks)[x])
      && (d != "" && d in s.docs && RunsWell(s.docs, s.tasks[i]))
  {
    hide DocsOf, TaskDocs;
    TaskDocsRemove(s.tasks, i);
    assert s.tasks[i] in s.tasks;
    assert Listed(c, s, s.tasks[i].docId) <= 1;
  }

  /** Ending the task frees its document for any status, or for removal. */
  lemma EndKeepsInv(c: Codec, s: State, i: nat, docs': map<string, Status>)
    requires Inv(c, s) && i < |s.tasks| && "" !in docs'
    requires forall x :: x in s.docs && x != s.tasks[i].docId ==> x in docs' && docs'[x] == s.docs[x]
    ensures Inv(c, s.(docs := docs', tasks := Remove(s.tasks, i)))
  {
    hide DocsOf, TaskDocs;
    WithoutTask(c, s, i);
    FreeDoc(c, s.docs, docs', s.uploads, s.deletes, Remove(s.tasks, i), s.tasks[i].docId);
    var s' := s.(docs := docs', tasks := Remove(s.tasks, i));
    forall x
      ensures Listed(c, s', x) <= 1
    {
      assert Listed(c, s', x) <= Listed(c, s, x);
    }
  }

  lemma StartKeepsInv(c: Codec, s: State, i: nat, valid: bool)
    requires Inv(c, s) && i < |s.tasks| && s.tasks[i].phase == Scheduled
    ensures Inv(c, StartTask(s, i, valid))
  {
    hide DocsOf, TaskDocs, AllWell, Listed;
    var t := s.tasks[i];
    var d := t.docId;
    WithoutTask(c, s, i);
    assert d in s.docs && d != "" && RunsWell(s.docs, t);
    if t.kind == Ingest && !valid {
      EndKeepsInv(c, s, i, s.docs[d := Failed]);
    } else {
      var status := if t.kind == Ingest then Running else Deleting;
      StartedKeepsInv(c, s, i, t.(phase := Started(s.docs[d])), status);
    }
  }

  lemma StartedKeepsInv(c: Codec, s: State, i: nat, t: Task, status: Status)
    requires Inv(c, s) && i < |s.tasks| && t.docId == s.tasks[i].docId
    requires RunsWell(s.docs[t.docId := status], t)
    ensures Inv(c, s.(docs := s.docs[t.docId := status], tasks := s.tasks[i := t]))
  {
    hide DocsOf, TaskDocs;
    WithoutTask(c, s, i);
    TaskDocsRemove(s.tasks, i);
    TaskDocsReplace(s.tasks, i, t);
    var s' := s.(docs := s.docs[t.docId := status], tasks := s.tasks[i := t]);
    FreeDoc(c, s.docs, s'.docs, s.uploads, s.deletes, Remove(s.tasks, i), t.docId);
    forall x
      ensures Listed(c, s', x) <= 1
    {
      assert Listed(c, s', x) == Listed(c, s, x);
    }
    forall x | x in s'.tasks
      ensures RunsWell(s'.docs, x)
    {
      assert x == t || x in Remove(s.tasks, i);
    }
  }

  lemma SupersedeKeepsInv(c: Codec, s: State, other: string)
    requires Inv(c, s) && other in s.docs && s.docs[other] == Indexed
    ensures Inv(c, s.(docs := s.docs[other := Outdated]))
  {
    hide DocsOf, TaskDocs, Listed;
    StableHasNone(c, s, other);
    SetFreeStatus(c, s, other, Outdated);
  }

  lemma FinishKeepsInv(c: Codec, s: State, i: nat, outcome: Outcome)
    requires Inv(c, s) && i < |s.tasks| && s.tasks[i].phase.Started?
    requires outcome.TakesOver? ==> IsDuplicate(s, i, outcome.other)
    ensures Inv(c, FinishTask(s, i, outcome))
  {
    hide DocsOf, TaskDocs, AllWell, Listed;
    WithoutTask(c, s, i);
    assert s.tasks[i].docId in s.docs && s.tasks[i].docId != "";
    if outcome.TakesOver? {
      SupersedeKeepsInv(c, s, outcome.other);
      var s' := s.(docs := s.docs[outcome.other := Outdated]);
      EndKeepsInv(c, s', i, s'.docs[s.tasks[i].docId := Indexed]);
    } else {
      EndKeepsInv(c, s, i, FinishTask(s, i, outcome).docs);
    }
  }

  lemma EscapeKeepsInv(c: Codec, s: State, i: nat)
    requires Inv(c, s) && i < |s.tasks|
    ensures Inv(c, s.(tasks := Remove(s.tasks, i)))
  {
    hide DocsOf, TaskDocs, AllWell, Listed;
    EndKeepsInv(c, s, i, s.docs);
  }

  // ---------------------------------------------------------------- the operator's endpoints

  /** Removing a document's upload events removes all it has in the list, and nothing else. */
  lemma {:induction false} DequeuedDocs(c: Codec, docs: map<string, Status>, queue: seq<string>, d: string)
    requires c.RoundTrips() && forall raw :: raw in queue ==> QueuedWell(c, docs, raw)
    ensures forall raw :: raw in Dequeued(c, queue, d) ==> raw in queue
    ensures forall x :: DocsOf(c, Dequeued(c, queue, d))[x] == if x == d then 0 else DocsOf(c, queue)[x]
  {
    if queue != [] {
      hide QueuedWell;
      var front, raw := queue[..|queue| - 1], queue[|queue| - 1];
      DequeuedDocs(c, docs, front, d);
      IsDequeued(c, docs, raw, d);
      DocsOfOneMore(c, Dequeued(c, front, d), raw);
      DocsOfOneMore(c, front, raw);
      assert queue == front + [raw];
    }
  }

  lemma IsDequeued(c: Codec, docs: map<string, Status>, raw: string, d: string)
    requires c.RoundTrips() && QueuedWell(c, docs, raw)
    ensures raw == c.dumps(d, false) || raw == c.dumps(d, true) <==> DocOf(c, raw) == d
  {
    assert c.parse(c.dumps(d, false)) == Event(d, false) && c.parse(c.dumps(d, true)) == Event(d, true);
  }

  lemma DocsOfOneMore(c: Codec, rest: seq<string>, raw: string)
    ensures forall x :: DocsOf(c, rest + [raw])[x] == DocsOf(c, rest)[x] + if x == DocOf(c, raw) then 1 else 0
  {
    DocsOfLast(c, rest, raw);
  }

  /** Failing a document by hand keeps the invariant if and only if no delete of it is queued and no task
      works on it: those are not called off. */
  lemma ForceFailKeepsInvIff(c: Codec, s: State, d: string)
    requires c.RoundTrips() && Inv(c, s) && d in s.docs && s.docs[d] in {Uploading, Pending, Running, Deleting}
    ensures Inv(c, ForceFailDoc(c, s, d)) <==> DocsOf(c, s.deletes)[d] == 0 && TaskDocs(s.tasks)[d] == 0
  {
    hide DocsOf, TaskDocs, Dequeued;
    var s' := ForceFailDoc(c, s, d);
    DequeuedDocs(c, s.docs, s.uploads, d);
    if Inv(c, s') {
      ItemsShow(c, s'.docs, s'.uploads, s.deletes, s.tasks, d);
    }
    if DocsOf(c, s.deletes)[d] == 0 && TaskDocs(s.tasks)[d] == 0 {
      assert s'.uploadDelay == map[];
      FreeDoc(c, s.docs, s'.docs, s'.uploads, s.deletes, s.tasks, d);
      forall x
        ensures Listed(c, s', x) <= 1
      {
        assert Listed(c, s', x) <= Listed(c, s, x);
      }
    }
  }

  /** Recovering a document keeps the invariant if and only if it is not really running. */
  lemma RecoverKeepsInvIff(c: Codec, s: State, d: string)
    requires c.RoundTrips() && Inv(c, s) && d in s.docs && s.docs[d] == Running
    ensures Inv(c, RecoverDoc(c, s, d)) <==> TaskDocs(s.tasks)[d] == 0
  {
    hide DocsOf, TaskDocs;
    ItemsShow(c, s.docs, s.uploads, s.deletes, s.tasks, d);
    if TaskDocs(s.tasks)[d] > 0 {
      var t := TaskDocsWitness(s.tasks, d);
      assert RunsWell(s.docs, t);
      assert !RunsWell(RecoverDoc(c, s, d).docs, t);
    } else {
      SetFreeStatus(c, s, d, Failed);
      EnqueueUploadKeepsInv(c, s.(docs := s.docs[d := Failed]), d, true);
    }
  }

  lemma ForceFailKeepsInv(c: Codec, s: State, d: string)
    requires c.RoundTrips() && Inv(c, s) && DocsOf(c, s.deletes)[d] == 0 && TaskDocs(s.tasks)[d] == 0
    ensures Inv(c, ForceFailDoc(c, s, d))
  {
    hide Inv, DocsOf, TaskDocs, Dequeued;
    if d in s.docs && s.docs[d] in {Uploading, Pending, Running, Deleting} {
      ForceFailKeepsInvIff(c, s, d);
    }
  }

  lemma RecoverKeepsInv(c: Codec, s: State, d: string)
    requires c.RoundTrips() && Inv(c, s) && TaskDocs(s.tasks)[d] == 0
    ensures Inv(c, RecoverDoc(c, s, d))
  {
    hide Inv, TaskDocs, EnqueueUpload;
    if d in s.docs && s.docs[d] == Running {
      RecoverKeepsInvIff(c, s, d);
    }
  }

  // ---------------------------------------------------------------- runs

  lemma NextKeepsInv(c: Codec, s: State, step: Step)
    requires c.RoundTrips() && Inv(c, s) && Enabled(c, s, step)
    ensures Inv(c, Next(c, s, step))
  {
    hide Inv, Poll, UploadDoc, RequestDelete, EnqueueUpload, ReindexKb, StartTask, FinishTask, ForceFailDoc, RecoverDoc;
    match step
    case Upload(d, stored) => UploadKeepsInv(c, s, d, stored);
    case Unpushed(d) =>
      if !(d in s.docs && IsActive(s.docs[d])) {
        StableHasNone(c, s, d);
        SetFreeStatus(c, s, d, Pending);
      }
    case Reindex(d, force, changed) =>
      if d in s.docs && !IsActive(s.docs[d]) {
        EnqueueUploadKeepsInv(c, s, d, force);
      }
    case ReindexAll(rows, force) => ReindexKbKeepsInv(c, s, rows, force);
    case DeleteRequest(d, force) => DeleteRequestKeepsInv(c, s, d, force);
    case PollStep(env, ups, dels) => PollKeepsInv(c, env, s, ups, dels);
    case Start(i, valid) => StartKeepsInv(c, s, i, valid);
    case Supersede(i, other) => SupersedeKeepsInv(c, s, other);
    case Finish(i, outcome) => FinishKeepsInv(c, s, i, outcome);
    case Escape(i) => EscapeKeepsInv(c, s, i);
    case ForceFail(d) => ForceFailKeepsInv(c, s, d);
    case Recover(d) => RecoverKeepsInv(c, s, d);
  }

  lemma {:induction false} RunKeepsInv(c: Codec, states: seq<State>, steps: seq<Step>, n: nat)
    requires c.RoundTrips() && IsRun(c, states, steps) && n <= |steps|
    ensures Inv(c, states[n])
  {
    if n > 0 {
      RunKeepsInv(c, states, steps, n - 1);
      NextKeepsInv(c, states[n - 1], steps[n - 1]);
    }
  }

  /** In every run of guarded requests, polls and pipeline steps, a document has at most one
      outstanding item, and none at all when it is missing or in a stable status. */
  lemma AtMostOneOutstanding(c: Codec, states: seq<State>, steps: seq<Step>, n: nat, d: string)
    requires c.RoundTrips() && IsRun(c, states, steps) && n <= |steps|
    ensures Outstanding(c, states[n], d) <= 1
    ensures d !in states[n].docs || !IsActive(states[n].docs[d]) ==> Outstanding(c, states[n], d) == 0
  {
    hide DocsOf, TaskDocs, AllWell;
    var s := states[n];
    RunKeepsInv(c, states, steps, n);
    NothingDelayed(c, s, d);
    if d !in s.docs || !IsActive(s.docs[d]) {
      StableHasNone(c, s, d);
    }
  }

  /** The guards leave the delay sets unused: in every such run they stay empty. */
  lemma NothingIsEverDelayed(c: Codec, states: seq<State>, steps: seq<Step>, n: nat)
    requires c.RoundTrips() && IsRun(c, states, steps) && n <= |steps|
    ensures states[n].uploadDelay == map[] && states[n].deleteDelay == map[]
  {
    RunKeepsInv(c, states, steps, n);
  }

  /** Hence two pipelines never work on the same document together. */
  lemma PipelinesAreExclusive(c: Codec, states: seq<State>, steps: seq<Step>, n: nat, i: nat, j: nat)
    requires c.RoundTrips() && IsRun(c, states, steps) && n <= |steps|
    requires i < j < |states[n].tasks|
    ensures states[n].tasks[i].docId != states[n].tasks[j].docId
  {
    hide DocsOf, TaskDocs;
    var s := states[n];
    RunKeepsInv(c, states, steps, n);
    WithoutTask(c, s, j);
    assert Remove(s.tasks, j)[i] == s.tasks[i];
    TaskDocsMember(Remove(s.tasks, j), s.tasks[i]);
  }

  /** How a delete ends, from any state: a deleted document is left alone; otherwise the row goes, unless it
      was indexed and the delete not forced, which only marks it deleted; and a failing delete marks it failed. */
  lemma DeleteEnds(s: State, i: nat)
    requires i < |s.tasks| && s.tasks[i].kind == Delete && s.tasks[i].docId in s.docs
    ensures var t := s.tasks[i];
      t.phase == Scheduled ==>
        var s' := StartTask(s, i, true);
        if s.docs[t.docId] == Deleted then s'.docs == s.docs && s'.tasks == Remove(s.tasks, i)
        else s'.docs == s.docs[t.docId := Deleting] && s'.tasks[i].phase == Started(s.docs[t.docId])
    ensures var t := s.tasks[i];
      t.phase.Started? ==>
        var docs' := FinishTask(s, i, Success).docs;
        && (t.docId !in docs' <==> t.phase.was != Indexed || t.force) && (t.docId in docs' ==> docs'[t.docId] == Deleted)
        && docs' - {t.docId} == s.docs - {t.docId}
        && FinishTask(s, i, Failure).docs == s.docs[t.docId := Failed]
  {
  }

  /** A delete that comes through the queue always removes the row: the status it reads is the
      pending its own request wrote, so the soft branch for indexed documents is never taken. */
  lemma QueuedDeleteIsHard(c: Codec, states: seq<State>, steps: seq<Step>, n: nat, i: nat)
    requires c.RoundTrips() && IsRun(c, states, steps) && n <= |steps|
    requires i < |states[n].tasks| && states[n].tasks[i].kind == Delete && states[n].tasks[i].phase.Started?
    ensures states[n].tasks[i].docId !in FinishTask(states[n], i, Success).docs
  {
    hide DocsOf, TaskDocs;
    RunKeepsInv(c, states, steps, n);
    assert RunsWell(states[n].docs, states[n].tasks[i]);
  }
}
