/** Queues, delay sets and the poll loop: `pipeline/queue/queue_worker.py`, `pipeline/queue/enqueue.py`
    and the guarded handlers of `api/routers/docs.py`. */
module QueueWorker {
  import opened DedupTypes
  import opened Wrappers

  /** What `json.loads` makes of a payload. A missing `doc_id` reads as the empty string. */
  datatype Parsed = Malformed | NotObject | Event(docId: string, force: bool)

  datatype TaskKind = Ingest | Delete

  /** An asyncio task: waiting for the semaphore, or running. A started delete remembers the status it read. */
  datatype Phase = Scheduled | Started(was: Status)

  datatype Task = Task(kind: TaskKind, docId: string, force: bool, phase: Phase)

  /** The documents' statuses, the two Redis lists (LPUSH at index 0, RPOP at the end), the two delay
      sets with their ready times, and the tasks in flight. */
  datatype State = State(
    docs: map<string, Status>,
    uploads: seq<string>,
    deletes: seq<string>,
    uploadDelay: map<string, nat>,
    deleteDelay: map<string, nat>,
    tasks: seq<Task>)

  /** Settings and surroundings of one poll. A database access for a document of `dbDown` raises
      psycopg.OperationalError. */
  datatype Env = Env(parse: string -> Parsed, maxPerPoll: nat, now: nat, retryDelay: nat, dbDown: set<string>)

  predicate IsEvent(parse: string -> Parsed, raw: string) {
    parse(raw).Event? && parse(raw).docId != ""
  }

  function SetStatus(docs: map<string, Status>, d: string, status: Status): map<string, Status> {
    if d in docs then docs[d := status] else docs
  }

  predicate Busy(docs: map<string, Status>, d: string) {
    d in docs && (docs[d] == Running || docs[d] == Deleting)
  }

  // ---------------------------------------------------------------- draining a delay set

  /** The payload goes back to its list, and its document becomes pending unless it is busy. */
  function DrainDocs(env: Env, docs: map<string, Status>, raw: string): map<string, Status> {
    if IsEvent(env.parse, raw) && env.parse(raw).docId !in env.dbDown && !Busy(docs, env.parse(raw).docId)
    then SetStatus(docs, env.parse(raw).docId, Pending) else docs
  }

  function Ready(delay: map<string, nat>, now: nat): set<string> {
    set raw | raw in delay && delay[raw] <= now
  }

  /** Statuses and list after the drained `items`; a payload that is not a JSON object raises, after
      all items have already left the delay set. */
  function Drain(env: Env, docs: map<string, Status>, queue: seq<string>, items: seq<string>): (map<string, Status>, seq<string>, bool) {
    if items == [] then (docs, queue, false)
    else
      var (docs', queue', raised) := Drain(env, docs, queue, items[..|items| - 1]);
      var raw := items[|items| - 1];
      if raised || env.parse(raw) == NotObject then (docs', queue', true)
      else (DrainDocs(env, docs', raw), [raw] + queue', false)
  }

  /** `items` lists the set `ready`, each payload once. */
  predicate Enumerates(items: seq<string>, ready: set<string>) {
    multiset(items) == multiset(ready)
  }

  lemma DrainOneMore(env: Env, docs: map<string, Status>, queue: seq<string>, items: seq<string>, raw: string)
    ensures Drain(env, docs, queue, []) == (docs, queue, false)
    ensures var (docs', queue', raised) := Drain(env, docs, queue, items);
      Drain(env, docs, queue, items + [raw]) ==
        if raised || env.parse(raw) == NotObject then (docs', queue', true) else (DrainDocs(env, docs', raw), [raw] + queue', false)
  {
    assert (items + [raw])[..|items|] == items;
  }

  lemma VisitOneMore(q: set<string>, todo: set<string>, raw: string, items: seq<string>)
    requires raw in todo && todo <= q && Enumerates(items, q - todo)
    ensures Enumerates(items + [raw], q - (todo - {raw}))
  {
    assert q - (todo - {raw}) == (q - todo) + {raw};
  }

  lemma VisitNone(q: set<string>)
    ensures Enumerates([], q - q)
  {
    assert q - q == {};
  }

  // ---------------------------------------------------------------- the two dispatch loops

  /** What became of a payload taken off a list. */
  datatype Fate = Skipped | Dispatched | Delayed | Crashed

  datatype LoopResult = LoopResult(
    docs: map<string, Status>, queue: seq<string>, delay: map<string, nat>, tasks: seq<Task>,
    log: seq<(string, Fate)>, raised: bool)

  /** The payload's fate under the statuses of the moment; None when the database is down. */
  function FateOf(env: Env, kind: TaskKind, docs: map<string, Status>, raw: string): Option<Fate> {
    match env.parse(raw)
    case Malformed => Some(Skipped)
    case NotObject => Some(Crashed)
    case Event(d, _) =>
      if d == "" then Some(Skipped)
      else if d in env.dbDown then None
      else if kind == Ingest && Busy(docs, d) then Some(Delayed)
      else if kind == Delete && d in docs && docs[d] == Running then Some(Delayed)
      else Some(Dispatched)
  }

  function TaskOf(env: Env, kind: TaskKind, raw: string): Task
    requires env.parse(raw).Event?
  {
    Task(kind, env.parse(raw).docId, env.parse(raw).force, Scheduled)
  }

  function Dispatches(log: seq<(string, Fate)>): nat {
    if log == [] then 0 else Dispatches(log[..|log| - 1]) + (if log[|log| - 1].1 == Dispatched then 1 else 0)
  }

  /** The loop over one list, from the state `r` it has reached. */
  function Loop(env: Env, kind: TaskKind, r: LoopResult): LoopResult
    decreases |r.queue|
  {
    if Dispatches(r.log) >= env.maxPerPoll || r.queue == [] || r.raised then r
    else
      var raw, rest := r.queue[|r.queue| - 1], r.queue[..|r.queue| - 1];
      match FateOf(env, kind, r.docs, raw)
      case None => r.(queue := [raw] + rest)
      case Some(fate) => Loop(env, kind, Settle(env, kind, r, raw, rest, fate))
  }

  /** The loop's state once `raw` has met its fate. */
  function Settle(env: Env, kind: TaskKind, r: LoopResult, raw: string, rest: seq<string>, fate: Fate): LoopResult
    requires FateOf(env, kind, r.docs, raw) == Some(fate)
  {
    var r' := r.(queue := rest, log := r.log + [(raw, fate)]);
    match fate
    case Skipped => r'
    case Crashed => r'.(raised := true)
    case Delayed => r'.(delay := r.delay[raw := env.now + env.retryDelay])
    case Dispatched =>
      r'.(docs := if kind == Ingest then SetStatus(r.docs, env.parse(raw).docId, Running) else r.docs,
          tasks := r.tasks + [TaskOf(env, kind, raw)])
  }

  lemma LoopStep(env: Env, kind: TaskKind, r: LoopResult)
    requires Dispatches(r.log) < env.maxPerPoll && r.queue != [] && !r.raised
    ensures var raw, rest := r.queue[|r.queue| - 1], r.queue[..|r.queue| - 1];
      Loop(env, kind, r) == match FateOf(env, kind, r.docs, raw)
        case None => r.(queue := [raw] + rest)
        case Some(fate) => Loop(env, kind, Settle(env, kind, r, raw, rest, fate))
    ensures forall raw, fate :: Dispatches(r.log + [(raw, fate)]) == Dispatches(r.log) + (if fate == Dispatched then 1 else 0)
  {
    forall raw, fate
      ensures Dispatches(r.log + [(raw, fate)]) == Dispatches(r.log) + (if fate == Dispatched then 1 else 0)
    {
      assert (r.log + [(raw, fate)])[..|r.log|] == r.log;
    }
  }

  lemma LoopDone(env: Env, kind: TaskKind, r: LoopResult)
    requires Dispatches(r.log) >= env.maxPerPoll || r.queue == [] || r.raised
    ensures Loop(env, kind, r) == r
  {
  }

  lemma NoDispatches()
    ensures Dispatches([]) == 0
  {
  }

  // ---------------------------------------------------------------- one poll

  datatype PollResult = PollResult(state: State, uploadLog: seq<(string, Fate)>, deleteLog: seq<(string, Fate)>, raised: bool)

  /** A poll that drains the ready uploads and deletes in the given orders. */
  function Poll(env: Env, s: State, ups: seq<string>, dels: seq<string>): PollResult {
    var (docs1, uploads1, raised1) := Drain(env, s.docs, s.uploads, ups);
    var s1 := s.(docs := docs1, uploads := uploads1, uploadDelay := s.uploadDelay - Ready(s.uploadDelay, env.now));
    if raised1 then PollResult(s1, [], [], true)
    else
      var (docs2, deletes2, raised2) := Drain(env, s1.docs, s1.deletes, dels);
      var s2 := s1.(docs := docs2, deletes := deletes2, deleteDelay := s1.deleteDelay - Ready(s1.deleteDelay, env.now));
      if raised2 then PollResult(s2, [], [], true)
      else
        var u := Loop(env, Ingest, LoopResult(s2.docs, s2.uploads, s2.uploadDelay, s2.tasks, [], false));
        var s3 := s2.(docs := u.docs, uploads := u.queue, uploadDelay := u.delay, tasks := u.tasks);
        if u.raised then PollResult(s3, u.log, [], true)
        else
          var d := Loop(env, Delete, LoopResult(s3.docs, s3.deletes, s3.deleteDelay, s3.tasks, [], false));
          PollResult(s3.(docs := d.docs, deletes := d.queue, deleteDelay := d.delay, tasks := d.tasks), u.log, d.log, d.raised)
  }

  // ---------------------------------------------------------------- requests

  /** json.dumps of an event, and its inverse. */
  datatype Codec = Codec(dumps: (string, bool) -> string, parse: string -> Parsed) {
    ghost predicate RoundTrips() {
      forall d, force :: parse(dumps(d, force)) == Event(d, force)
    }
  }

  /** `enqueue_upload_event`. */
  function EnqueueUpload(c: Codec, s: State, d: string, force: bool): State {
    if d !in s.docs || s.docs[d] == Deleted then s
    else s.(docs := if Busy(s.docs, d) then s.docs else s.docs[d := Pending], uploads := [c.dumps(d, force)] + s.uploads)
  }

  /** `enqueue_delete_event`. */
  function EnqueueDelete(c: Codec, s: State, d: string, force: bool): State {
    if d !in s.docs || s.docs[d] == Deleted then s
    else s.(docs := if Busy(s.docs, d) then s.docs else s.docs[d := Pending], deletes := [c.dumps(d, force)] + s.deletes)
  }

  /** `upload_doc` for a new or existing row; `stored` is whether the object upload succeeds. */
  function UploadDoc(c: Codec, s: State, d: string, stored: bool): State {
    if d in s.docs && IsActive(s.docs[d]) then s
    else if !stored then s.(docs := s.docs[d := Uploading])
    else EnqueueUpload(c, s.(docs := s.docs[d := Pending]), d, false)
  }

  /** The `delete_doc` handler. */
  function RequestDelete(c: Codec, s: State, d: string, force: bool): State {
    if d !in s.docs || IsActive(s.docs[d]) then s else EnqueueDelete(c, s, d, force)
  }

  /** What the handler answers: an error for a missing or an active document, else 202. */
  datatype Answer = NotFound | Conflict | Accepted

  /** `reindex_doc`; `changed` says it has a stored object whose ETag moved, or force was given. */
  function ReindexDoc(c: Codec, s: State, d: string, force: bool, changed: bool): State {
    if d !in s.docs || IsActive(s.docs[d]) || !changed then s else EnqueueUpload(c, s, d, force)
  }

  /** Whether `reindex_kb` queues a document it listed with this status. */
  predicate Reindexable(listed: Status, changed: bool) {
    listed != Outdated && !IsActive(listed) && changed
  }

  /** A list without the upload events queued for `d`. */
  function Dequeued(c: Codec, queue: seq<string>, d: string): seq<string> {
    if queue == [] then []
    else
      var front, raw := Dequeued(c, queue[..|queue| - 1], d), queue[|queue| - 1];
      if raw == c.dumps(d, false) || raw == c.dumps(d, true) then front else front + [raw]
  }

  /** `force_fail_doc`: upload events of the document are removed, and it is marked failed. */
  function ForceFailDoc(c: Codec, s: State, d: string): State {
    if d !in s.docs || s.docs[d] !in {Uploading, Pending, Running, Deleting} then s
    else
      s.(docs := s.docs[d := Failed], uploads := Dequeued(c, s.uploads, d),
         uploadDelay := s.uploadDelay - {c.dumps(d, false), c.dumps(d, true)})
  }

  /** `recover_doc`: a running document is marked failed and queued again. */
  function RecoverDoc(c: Codec, s: State, d: string): State {
    if d !in s.docs || s.docs[d] != Running then s else EnqueueUpload(c, s.(docs := s.docs[d := Failed]), d, true)
  }

  /** `reindex_kb` over the rows it listed, judged by the statuses of the listing. */
  function ReindexKb(c: Codec, s: State, rows: seq<(string, Status, bool)>, force: bool): State {
    if rows == [] then s
    else
      var s', (d, listed, changed) := ReindexKb(c, s, rows[..|rows| - 1], force), rows[|rows| - 1];
      if Reindexable(listed, changed) then EnqueueUpload(c, s', d, force) else s'
  }

  // ---------------------------------------------------------------- the worker as it runs

  class Worker {
    var docs: map<string, Status>
    var uploads: seq<string>
    var deletes: seq<string>
    var uploadDelay: map<string, nat>
    var deleteDelay: map<string, nat>
    var tasks: seq<Task>

    ghost function View(): State
      reads this
    {
      State(docs, uploads, deletes, uploadDelay, deleteDelay, tasks)
    }

    method DrainUploads(env: Env) returns (raised: bool, ghost items: seq<string>)
      modifies this
      ensures Enumerates(items, Ready(old(uploadDelay), env.now))
      ensures (docs, uploads, raised) == Drain(env, old(docs), old(uploads), items)
      ensures uploadDelay == old(uploadDelay) - Ready(old(uploadDelay), env.now)
      ensures deletes == old(deletes) && deleteDelay == old(deleteDelay) && tasks == old(tasks)
    {
      hide Drain, DrainDocs, Ready, Enumerates;
      var todo := Ready(uploadDelay, env.now);
      var q := todo;
      DrainOneMore(env, docs, uploads, [], "");
      VisitNone(q);
      uploadDelay := uploadDelay - todo;
      items := [];
      raised := false;
      while todo != {}
        invariant todo <= q && Enumerates(items, q - todo)
        invariant (docs, uploads, raised) == Drain(env, old(docs), old(uploads), items)
        invariant uploadDelay == old(uploadDelay) - q && q == Ready(old(uploadDelay), env.now)
        invariant deletes == old(deletes) && deleteDelay == old(deleteDelay) && tasks == old(tasks)
        decreases todo
      {
        var raw :| raw in todo;
        DrainOneMore(env, old(docs), old(uploads), items, raw);
        VisitOneMore(q, todo, raw, items);
        items := items + [raw];
        todo := todo - {raw};
        if raised || env.parse(raw) == NotObject {
          raised := true;
        } else {
          docs, uploads := DrainDocs(env, docs, raw), [raw] + uploads;
        }
      }
      assert q - todo == q;
    }

    method DrainDeletes(env: Env) returns (raised: bool, ghost items: seq<string>)
      modifies this
      ensures Enumerates(items, Ready(old(deleteDelay), env.now))
      ensures (docs, deletes, raised) == Drain(env, old(docs), old(deletes), items)
      ensures deleteDelay == old(deleteDelay) - Ready(old(deleteDelay), env.now)
      ensures uploads == old(uploads) && uploadDelay == old(uploadDelay) && tasks == old(tasks)
    {
      hide Drain, DrainDocs, Ready, Enumerates;
      var todo := Ready(deleteDelay, env.now);
      var q := todo;
      DrainOneMore(env, docs, deletes, [], "");
      VisitNone(q);
      deleteDelay := deleteDelay - todo;
      items := [];
      raised := false;
      while todo != {}
        invariant todo <= q && Enumerates(items, q - todo)
        invariant (docs, deletes, raised) == Drain(env, old(docs), old(deletes), items)
        invariant deleteDelay == old(deleteDelay) - q && q == Ready(old(deleteDelay), env.now)
        invariant uploads == old(uploads) && uploadDelay == old(uploadDelay) && tasks == old(tasks)
        decreases todo
      {
        var raw :| raw in todo;
        DrainOneMore(env, old(docs), old(deletes), items, raw);
        VisitOneMore(q, todo, raw, items);
        items := items + [raw];
        todo := todo - {raw};
        if raised || env.parse(raw) == NotObject {
          raised := true;
        } else {
          docs, deletes := DrainDocs(env, docs, raw), [raw] + deletes;
        }
      }
      assert q - todo == q;
    }

    method DispatchUploads(env: Env) returns (count: nat, raised: bool, ghost log: seq<(string, Fate)>)
      modifies this
      ensures LoopResult(docs, uploads, uploadDelay, tasks, log, raised)
           == Loop(env, Ingest, LoopResult(old(docs), old(uploads), old(uploadDelay), old(tasks), [], false))
      ensures count == Dispatches(log)
      ensures deletes == old(deletes) && deleteDelay == old(deleteDelay)
    {
      hide Loop, Dispatches;
      count, raised, log := 0, false, [];
      NoDispatches();
      while count < env.maxPerPoll && uploads != [] && !raised
        invariant Loop(env, Ingest, LoopResult(docs, uploads, uploadDelay, tasks, log, raised))
               == Loop(env, Ingest, LoopResult(old(docs), old(uploads), old(uploadDelay), old(tasks), [], false))
        invariant count == Dispatches(log)
        invariant deletes == old(deletes) && deleteDelay == old(deleteDelay)
        decreases |uploads|, raised
      {
        LoopStep(env, Ingest, LoopResult(docs, uploads, uploadDelay, tasks, log, raised));
        var raw := uploads[|uploads| - 1];
        uploads := uploads[..|uploads| - 1];
        var fate := FateOf(env, Ingest, docs, raw);
        if fate == None {
          uploads := [raw] + uploads;
          return;
        }
        log := log + [(raw, fate.value)];
        match fate.value
        case Skipped =>
        case Crashed => raised := true;
        case Delayed => uploadDelay := uploadDelay[raw := env.now + env.retryDelay];
        case Dispatched =>
          docs := SetStatus(docs, env.parse(raw).docId, Running);
          tasks := tasks + [TaskOf(env, Ingest, raw)];
          count := count + 1;
      }
      LoopDone(env, Ingest, LoopResult(docs, uploads, uploadDelay, tasks, log, raised));
    }

    method DispatchDeletes(env: Env) returns (count: nat, raised: bool, ghost log: seq<(string, Fate)>)
      modifies this
      ensures LoopResult(docs, deletes, deleteDelay, tasks, log, raised)
           == Loop(env, Delete, LoopResult(old(docs), old(deletes), old(deleteDelay), old(tasks), [], false))
      ensures count == Dispatches(log)
      ensures uploads == old(uploads) && uploadDelay == old(uploadDelay)
    {
      hide Loop, Dispatches;
      count, raised, log := 0, false, [];
      NoDispatches();
      while count < env.maxPerPoll && deletes != [] && !raised
        invariant Loop(env, Delete, LoopResult(docs, deletes, deleteDelay, tasks, log, raised))
               == Loop(env, Delete, LoopResult(old(docs), old(deletes), old(deleteDelay), old(tasks), [], false))
        invariant count == Dispatches(log)
        invariant uploads == old(uploads) && uploadDelay == old(uploadDelay)
        decreases |deletes|, raised
      {
        LoopStep(env, Delete, LoopResult(docs, deletes, deleteDelay, tasks, log, raised));
        var raw := deletes[|deletes| - 1];
        deletes := deletes[..|deletes| - 1];
        var fate := FateOf(env, Delete, docs, raw);
        if fate == None {
          deletes := [raw] + deletes;
          return;
        }
        log := log + [(raw, fate.value)];
        match fate.value
        case Skipped =>
        case Crashed => raised := true;
        case Delayed => deleteDelay := deleteDelay[raw := env.now + env.retryDelay];
        case Dispatched =>
          tasks := tasks + [TaskOf(env, Delete, raw)];
          count := count + 1;
      }
      LoopDone(env, Delete, LoopResult(docs, deletes, deleteDelay, tasks, log, raised));
    }

    /** `_poll`: more work is likely when a list filled its quota. */
    method RunPoll(env: Env) returns (moreWork: bool, ghost ups: seq<string>, ghost dels: seq<string>)
      modifies this
      ensures Enumerates(ups, Ready(old(uploadDelay), env.now)) && Enumerates(dels, Ready(old(deleteDelay), env.now))
      ensures View() == Poll(env, old(View()), ups, dels).state
      ensures var r := Poll(env, old(View()), ups, dels);
        moreWork <==> !r.raised && (Dispatches(r.uploadLog) >= env.maxPerPoll || Dispatches(r.deleteLog) >= env.maxPerPoll)
    {
      hide Drain, Loop, Ready, Enumerates, Dispatches;
      ghost var start := View();
      var raised;
      raised, ups := DrainUploads(env);
      dels := Listing(Ready(deleteDelay, env.now));
      if raised {
        return false, ups, dels;
      }
      raised, dels := DrainDeletes(env);
      if raised {
        return false, ups, dels;
      }
      var uploadCount, deleteCount;
      ghost var log;
      uploadCount, raised, log := DispatchUploads(env);
      if raised {
        return false, ups, dels;
      }
      deleteCount, raised, log := DispatchDeletes(env);
      if raised {
        return false, ups, dels;
      }
      moreWork := uploadCount >= env.maxPerPoll || deleteCount >= env.maxPerPoll;
    }

    method HandleUpload(c: Codec, d: string, stored: bool) returns (conflict: bool)
      modifies this
      ensures View() == UploadDoc(c, old(View()), d, stored)
      ensures conflict <==> d in old(docs) && IsActive(old(docs)[d])
    {
      conflict := d in docs && IsActive(docs[d]);
      if !conflict {
        docs := docs[d := Uploading];
        if stored {
          docs := docs[d := Pending];
          PushUpload(c, d, false);
        }
      }
    }

    method PushUpload(c: Codec, d: string, force: bool)
      modifies this
      ensures View() == EnqueueUpload(c, old(View()), d, force)
    {
      if d !in docs || docs[d] == Deleted {
        return;
      }
      if !Busy(docs, d) {
        docs := docs[d := Pending];
      }
      uploads := [c.dumps(d, force)] + uploads;
    }

    method HandleDelete(c: Codec, d: string, force: bool) returns (answer: Answer)
      modifies this
      ensures View() == RequestDelete(c, old(View()), d, force)
      ensures answer == NotFound <==> d !in old(docs)
      ensures answer == Conflict <==> d in old(docs) && IsActive(old(docs)[d])
    {
      if d !in docs {
        return NotFound;
      }
      if IsActive(docs[d]) {
        return Conflict;
      }
      PushDelete(c, d, force);
      answer := Accepted;
    }

    method PushDelete(c: Codec, d: string, force: bool)
      modifies this
      ensures View() == EnqueueDelete(c, old(View()), d, force)
    {
      if d !in docs || docs[d] == Deleted {
        return;
      }
      if !Busy(docs, d) {
        docs := docs[d := Pending];
      }
      deletes := [c.dumps(d, force)] + deletes;
    }

    method HandleForceFail(c: Codec, d: string) returns (answer: Answer)
      modifies this
      ensures View() == ForceFailDoc(c, old(View()), d)
      ensures answer == NotFound <==> d !in old(docs)
      ensures answer == Accepted <==> d in old(docs) && old(docs)[d] in {Uploading, Pending, Running, Deleting}
    {
      if d !in docs {
        return NotFound;
      }
      if docs[d] !in {Uploading, Pending, Running, Deleting} {
        return Conflict;
      }
      uploads := Dequeued(c, uploads, d);
      uploadDelay := uploadDelay - {c.dumps(d, false), c.dumps(d, true)};
      docs := docs[d := Failed];
      answer := Accepted;
    }

    method HandleRecover(c: Codec, d: string) returns (answer: Answer)
      modifies this
      ensures View() == RecoverDoc(c, old(View()), d)
      ensures answer == NotFound <==> d !in old(docs)
      ensures answer == Accepted <==> d in old(docs) && old(docs)[d] == Running
    {
      if d !in docs {
        return NotFound;
      }
      if docs[d] != Running {
        return Conflict;
      }
      docs := docs[d := Failed];
      PushUpload(c, d, true);
      answer := Accepted;
    }

    /** Counts the listed rows that were queued and skipped. */
    method HandleReindexKb(c: Codec, rows: seq<(string, Status, bool)>, force: bool) returns (queued: nat, skipped: nat)
      modifies this
      ensures View() == ReindexKb(c, old(View()), rows, force)
      ensures queued == |set i | 0 <= i < |rows| && Reindexable(rows[i].1, rows[i].2)|
      ensures queued + skipped == |rows|
    {
      queued, skipped := 0, 0;
      ghost var chosen: set<int> := {};
      for i := 0 to |rows|
        invariant View() == ReindexKb(c, old(View()), rows[..i], force)
        invariant chosen == (set j | 0 <= j < i && Reindexable(rows[j].1, rows[j].2)) && queued == |chosen|
        invariant queued + skipped == i
      {
        assert rows[..i + 1][..i] == rows[..i];
        var (d, listed, changed) := rows[i];
        if listed == Outdated || IsActive(listed) || !changed {
          skipped := skipped + 1;
        } else {
          PushUpload(c, d, force);
          queued, chosen := queued + 1, chosen + {i};
        }
      }
      assert rows[..|rows|] == rows;
    }
  }

  /** Some order in which to visit a set. */
  ghost function Listing(ready: set<string>): (items: seq<string>)
    ensures Enumerates(items, ready)
  {
    if ready == {} then []
    else
      var raw :| raw in ready;
      assert ready == (ready - {raw}) + {raw};
      Listing(ready - {raw}) + [raw]
  }
}
