/** First in, first out: events are pushed at one end of a list and popped at the other, so a poll works off
    what was queued in the order in which it was queued. */
module QueueOrder {
  import opened DedupTypes
  import opened QueueLaws
  import opened QueueWorker
  import opened Wrappers

  /** The payloads of a list in the order in which they will be popped. */
  function Waiting(queue: seq<string>): seq<string> {
    if queue == [] then [] else [queue[|queue| - 1]] + Waiting(queue[..|queue| - 1])
  }

  /** The payloads a loop has taken off its list. */
  function Popped(log: seq<(string, Fate)>): seq<string> {
    if log == [] then [] else Popped(log[..|log| - 1]) + [log[|log| - 1].0]
  }

  lemma {:induction false} PushedGoesLast(queue: seq<string>, raw: string)
    ensures Waiting([raw] + queue) == Waiting(queue) + [raw]
  {
    if queue == [] {
      assert [raw] + queue == [raw];
      assert Waiting([raw]) == [raw] + Waiting([raw][..0]);
    } else {
      var front, last := queue[..|queue| - 1], queue[|queue| - 1];
      assert ([raw] + queue)[..|queue|] == [raw] + front;
      PushedGoesLast(front, raw);
    }
  }

  lemma PoppedComesFirst(rest: seq<string>, raw: string)
    ensures Waiting(rest + [raw]) == [raw] + Waiting(rest)
  {
    assert (rest + [raw])[..|rest|] == rest;
  }

  lemma PoppedOneMore(log: seq<(string, Fate)>, raw: string, fate: Fate)
    ensures Popped(log + [(raw, fate)]) == Popped(log) + [raw]
  {
    assert (log + [(raw, fate)])[..|log|] == log;
  }

  /** A request queues its event behind all others, as pending unless a pipeline works on the document. */
  lemma RequestGoesLast(c: Codec, s: State, d: string, force: bool)
    requires d in s.docs && s.docs[d] != Deleted
    ensures var s' := EnqueueUpload(c, s, d, force);
      && Waiting(s'.uploads) == Waiting(s.uploads) + [c.dumps(d, force)] && s'.deletes == s.deletes
      && d in s'.docs && s'.docs[d] == if s.docs[d] == Running || s.docs[d] == Deleting then s.docs[d] else Pending
    ensures var s' := EnqueueDelete(c, s, d, force);
      && Waiting(s'.deletes) == Waiting(s.deletes) + [c.dumps(d, force)] && s'.uploads == s.uploads
      && d in s'.docs && s'.docs[d] == if s.docs[d] == Running || s.docs[d] == Deleting then s.docs[d] else Pending
  {
    PushedGoesLast(s.uploads, c.dumps(d, force));
    PushedGoesLast(s.deletes, c.dumps(d, force));
  }

  /** A drain appends the payloads it gets to, in its order. */
  lemma {:induction false} DrainGoesLast(env: Env, docs: map<string, Status>, queue: seq<string>, items: seq<string>)
    ensures Waiting(Drain(env, docs, queue, items).1) == Waiting(queue) + Reached(env, items)
  {
    hide Waiting;
    if items != [] {
      var front, raw := items[..|items| - 1], items[|items| - 1];
      DrainGoesLast(env, docs, queue, front);
      DrainMovesReached(env, docs, queue, front);
      PushedGoesLast(Drain(env, docs, queue, front).1, raw);
      assert Waiting(queue) + (Reached(env, front) + [raw]) == Waiting(queue) + Reached(env, front) + [raw];
    }
  }

  /** `popped` and then `left` are what waited; a last one popped in vain goes to the end. */
  ghost predicate InOrder(waiting: seq<string>, popped: seq<string>, left: seq<string>) {
    || popped + left == waiting
    || exists raw, rest :: popped + [raw] + rest == waiting && left == rest + [raw]
  }

  /** What a loop pops is what waited longest. */
  lemma {:induction false} LoopPopsInOrder(env: Env, kind: TaskKind, r: LoopResult)
    ensures var r' := Loop(env, kind, r);
      InOrder(Popped(r.log) + Waiting(r.queue), Popped(r'.log), Waiting(r'.queue))
    decreases |r.queue|
  {
    hide Loop, Dispatches, Waiting, Popped, InOrder;
    if Dispatches(r.log) >= env.maxPerPoll || r.queue == [] || r.raised {
      LoopDone(env, kind, r);
      NothingPopped(Popped(r.log), Waiting(r.queue));
    } else {
      var raw, rest := r.queue[|r.queue| - 1], r.queue[..|r.queue| - 1];
      assert r.queue == rest + [raw];
      LoopStep(env, kind, r);
      PoppedComesFirst(rest, raw);
      match FateOf(env, kind, r.docs, raw)
      case None =>
        PushedGoesLast(rest, raw);
        PoppedInVain(Popped(r.log), raw, Waiting(rest));
      case Some(fate) =>
        var next := Settle(env, kind, r, raw, rest, fate);
        PoppedOneMore(r.log, raw, fate);
        assert Popped(r.log) + ([raw] + Waiting(rest)) == (Popped(r.log) + [raw]) + Waiting(rest);
        LoopPopsInOrder(env, kind, next);
    }
  }

  lemma NothingPopped(popped: seq<string>, left: seq<string>)
    ensures InOrder(popped + left, popped, left)
  {
  }

  lemma PoppedInVain(popped: seq<string>, raw: string, rest: seq<string>)
    ensures InOrder(popped + ([raw] + rest), popped, rest + [raw])
  {
    assert popped + ([raw] + rest) == popped + [raw] + rest;
  }

  /** A poll whose drains come through works off either list in order: first what was queued, then what was
      drained. */
  lemma PollPopsInOrder(env: Env, s: State, ups: seq<string>, dels: seq<string>)
    requires !Raises(env, ups) && !Raises(env, dels) && !Poll(env, s, ups, dels).raised
    ensures var r := Poll(env, s, ups, dels);
      && InOrder(Waiting(s.uploads) + ups, Popped(r.uploadLog), Waiting(r.state.uploads))
      && InOrder(Waiting(s.deletes) + dels, Popped(r.deleteLog), Waiting(r.state.deletes))
  {
    hide Drain, Loop, Waiting, InOrder, Ready, Popped, Reached, Raises;
    AllReached(env, ups);
    AllReached(env, dels);
    DrainRaises(env, s.docs, s.uploads, ups);
    DrainGoesLast(env, s.docs, s.uploads, ups);
    var (docs1, uploads1, raised1) := Drain(env, s.docs, s.uploads, ups);
    DrainRaises(env, docs1, s.deletes, dels);
    DrainGoesLast(env, docs1, s.deletes, dels);
    var (docs2, deletes2, raised2) := Drain(env, docs1, s.deletes, dels);
    var u0 := LoopResult(docs2, uploads1, s.uploadDelay - Ready(s.uploadDelay, env.now), s.tasks, [], false);
    LoopPopsInOrder(env, Ingest, u0);
    var u := Loop(env, Ingest, u0);
    var d0 := LoopResult(u.docs, deletes2, s.deleteDelay - Ready(s.deleteDelay, env.now), u.tasks, [], false);
    LoopPopsInOrder(env, Delete, d0);
    NoLog(Waiting(uploads1));
    NoLog(Waiting(deletes2));
  }

  lemma AllReached(env: Env, items: seq<string>)
    requires !Raises(env, items)
    ensures Reached(env, items) == items
  {
    hide Raises;
    ReachedStops(env, items);
    if |Reached(env, items)| < |items| {
      SomeRaises(env, items, |Reached(env, items)|);
    }
  }

  lemma SomeRaises(env: Env, items: seq<string>, i: nat)
    requires i < |items| && env.parse(items[i]) == NotObject
    ensures Raises(env, items)
  {
    assert items[i] in items;
  }

  lemma DrainRaises(env: Env, docs: map<string, Status>, queue: seq<string>, items: seq<string>)
    ensures Drain(env, docs, queue, items).2 <==> Raises(env, items)
  {
    DrainRaisesIff(env, docs, queue, items);
  }

  lemma NoLog(waiting: seq<string>)
    ensures Popped([]) + waiting == waiting
  {
  }

  // ---------------------------------------------------------------- requests

  /** Idle in a status from which it can be queued. */
  predicate IsQueueable(docs: map<string, Status>, d: string) {
    d in docs && (docs[d] == Indexed || docs[d] == Failed || docs[d] == Outdated)
  }

  /** A request whose document is idle and not deleted queues its event, last; any other leaves things as
      they are. */
  lemma DeleteQueues(c: Codec, s: State, d: string, force: bool)
    ensures var s' := RequestDelete(c, s, d, force);
      if IsQueueable(s.docs, d) then
        Waiting(s'.deletes) == Waiting(s.deletes) + [c.dumps(d, force)] && s'.uploads == s.uploads && s'.docs == s.docs[d := Pending]
      else s' == s
  {
    hide Waiting;
    PushedGoesLast(s.deletes, c.dumps(d, force));
  }

  lemma ReindexQueues(c: Codec, s: State, d: string, force: bool, changed: bool)
    ensures var s' := ReindexDoc(c, s, d, force, changed);
      if changed && IsQueueable(s.docs, d) then
        Waiting(s'.uploads) == Waiting(s.uploads) + [c.dumps(d, force)] && s'.deletes == s.deletes && s'.docs == s.docs[d := Pending]
      else s' == s
  {
    hide Waiting;
    PushedGoesLast(s.uploads, c.dumps(d, force));
  }

  /** An upload also takes a new document, and one that was deleted. */
  lemma UploadQueues(c: Codec, s: State, d: string)
    ensures var s' := UploadDoc(c, s, d, true);
      if d !in s.docs || s.docs[d] == Deleted || IsQueueable(s.docs, d) then
        Waiting(s'.uploads) == Waiting(s.uploads) + [c.dumps(d, false)] && s'.deletes == s.deletes && s'.docs == s.docs[d := Pending]
      else s' == s
  {
    hide Waiting;
    PushedGoesLast(s.uploads, c.dumps(d, false));
    assert s.docs[d := Pending][d := Pending] == s.docs[d := Pending];
  }

  /** The events a bulk reindex queues: those of the rows listed as indexed or failed whose object changed. */
  function ReindexEvents(c: Codec, rows: seq<(string, Status, bool)>, force: bool): seq<string> {
    if rows == [] then []
    else
      var front, (d, listed, changed) := ReindexEvents(c, rows[..|rows| - 1], force), rows[|rows| - 1];
      if changed && (listed == Indexed || listed == Failed) then front + [c.dumps(d, force)] else front
  }

  /** A bulk reindex queues exactly those, last and in the order of the listing. */
  lemma {:induction false} ReindexKbQueues(c: Codec, s: State, rows: seq<(string, Status, bool)>, force: bool)
    requires forall i :: 0 <= i < |rows| ==> rows[i].0 in s.docs && rows[i].1 == s.docs[rows[i].0]
    requires forall i, j :: 0 <= i < j < |rows| ==> rows[i].0 != rows[j].0
    ensures Waiting(ReindexKb(c, s, rows, force).uploads) == Waiting(s.uploads) + ReindexEvents(c, rows, force)
    ensures ReindexKb(c, s, rows, force).docs.Keys == s.docs.Keys
    ensures forall x :: x in s.docs && (forall i :: 0 <= i < |rows| ==> rows[i].0 != x) ==> ReindexKb(c, s, rows, force).docs[x] == s.docs[x]
  {
    hide Waiting;
    if rows == [] {
      assert Waiting(s.uploads) + [] == Waiting(s.uploads);
    } else {
      var front, row := rows[..|rows| - 1], rows[|rows| - 1];
      ReindexKbQueues(c, s, front, force);
      var s' := ReindexKb(c, s, front, force);
      assert s'.docs[row.0] == row.1;
      PushedGoesLast(s'.uploads, c.dumps(row.0, force));
      assert Waiting(s.uploads) + (ReindexEvents(c, front, force) + [c.dumps(row.0, force)])
          == Waiting(s.uploads) + ReindexEvents(c, front, force) + [c.dumps(row.0, force)];
    }
  }

  /** Failing a document by hand leaves no upload event of it waiting or delayed, and all others in order. */
  lemma ForceFailUnqueues(c: Codec, s: State, d: string)
    requires d in s.docs && (s.docs[d] == Uploading || s.docs[d] == Pending || s.docs[d] == Running || s.docs[d] == Deleting)
    ensures var s' := ForceFailDoc(c, s, d);
      && s'.docs == s.docs[d := Failed] && s'.deletes == s.deletes && s'.deleteDelay == s.deleteDelay && s'.tasks == s.tasks
      && s'.uploads == Without(s.uploads, {c.dumps(d, false), c.dumps(d, true)})
      && s'.uploadDelay == map raw | raw in s.uploadDelay && raw != c.dumps(d, false) && raw != c.dumps(d, true) :: s.uploadDelay[raw]
  {
    hide Dequeued, Without;
    DequeuedIsWithout(c, s.uploads, d);
  }

  /** Recovering a running document queues a forced event of it, last. */
  lemma RecoverQueues(c: Codec, s: State, d: string)
    requires d in s.docs && s.docs[d] == Running
    ensures var s' := RecoverDoc(c, s, d);
      s'.docs == s.docs[d := Pending] && Waiting(s'.uploads) == Waiting(s.uploads) + [c.dumps(d, true)]
  {
    hide Waiting;
    PushedGoesLast(s.uploads, c.dumps(d, true));
    assert s.docs[d := Failed][d := Pending] == s.docs[d := Pending];
  }

  /** A list without some payloads, in its order. */
  function Without(queue: seq<string>, raws: set<string>): seq<string> {
    if queue == [] then []
    else if queue[0] in raws then Without(queue[1..], raws) else [queue[0]] + Without(queue[1..], raws)
  }

  lemma {:induction false} WithoutLast(queue: seq<string>, raw: string, raws: set<string>)
    ensures Without(queue + [raw], raws) == Without(queue, raws) + if raw in raws then [] else [raw]
  {
    if queue == [] {
      assert [raw][1..] == [] && queue + [raw] == [raw];
    } else {
      assert (queue + [raw])[1..] == queue[1..] + [raw];
      WithoutLast(queue[1..], raw, raws);
    }
  }

  lemma {:induction false} DequeuedIsWithout(c: Codec, queue: seq<string>, d: string)
    ensures Dequeued(c, queue, d) == Without(queue, {c.dumps(d, false), c.dumps(d, true)})
  {
    hide Without;
    if queue == [] {
      WithoutNothing({c.dumps(d, false), c.dumps(d, true)});
    } else {
      var front, raw := queue[..|queue| - 1], queue[|queue| - 1];
      DequeuedIsWithout(c, front, d);
      WithoutLast(front, raw, {c.dumps(d, false), c.dumps(d, true)});
      assert queue == front + [raw];
    }
  }

  lemma WithoutNothing(raws: set<string>)
    ensures Without([], raws) == []
  {
  }

  // ---------------------------------------------------------------- drains and loops

  /** Some payload the drain gets to is an event of `d`. */
  ghost predicate DrainsEventOf(env: Env, items: seq<string>, d: string) {
    exists raw :: raw in Reached(env, items) && IsEvent(env.parse, raw) && env.parse(raw).docId == d
  }

  /** A drain marks the documents of its events pending, unless a pipeline works on them or their rows
      cannot be read. */
  lemma {:induction false} DrainStatuses(env: Env, docs: map<string, Status>, queue: seq<string>, items: seq<string>, d: string)
    requires d in docs
    ensures d in Drain(env, docs, queue, items).0
    ensures Drain(env, docs, queue, items).0[d] ==
      if DrainsEventOf(env, items, d) && d !in env.dbDown && docs[d] != Running && docs[d] != Deleting then Pending else docs[d]
  {
    if items != [] {
      var front, raw := items[..|items| - 1], items[|items| - 1];
      DrainStatuses(env, docs, queue, front, d);
      DrainMovesReached(env, docs, queue, front);
      DrainsOneMore(env, front, raw, d);
      assert items == front + [raw];
    }
  }

  lemma DrainsOneMore(env: Env, front: seq<string>, raw: string, d: string)
    ensures DrainsEventOf(env, front + [raw], d) <==>
      || DrainsEventOf(env, front, d)
      || (|Reached(env, front)| == |front| && IsEvent(env.parse, raw) && env.parse(raw).docId == d)
  {
    assert (front + [raw])[..|front|] == front;
    var before, after := Reached(env, front), Reached(env, front + [raw]);
    if |before| == |front| && env.parse(raw) != NotObject {
      assert after == before + [raw];
    } else {
      assert after == before;
    }
  }

  /** The event waits for a database that cannot read its document. */
  predicate IsBlocked(env: Env, raw: string) {
    IsEvent(env.parse, raw) && env.parse(raw).docId in env.dbDown
  }

  /** What a loop logs: no blocked event; a delayed event is due again after the retry delay; and it raises
      exactly at a payload that is no JSON object, its last. */
  ghost predicate LogsWell(env: Env, from: nat, r: LoopResult) {
    && (forall i :: from <= i < |r.log| ==> !IsBlocked(env, r.log[i].0))
    && (forall i :: from <= i < |r.log| && r.log[i].1 == Delayed ==>
          r.log[i].0 in r.delay && r.delay[r.log[i].0] == env.now + env.retryDelay)
    && (r.raised <==> from < |r.log| && env.parse(r.log[|r.log| - 1].0) == NotObject)
    && forall i :: from <= i < |r.log| - 1 ==> env.parse(r.log[i].0) != NotObject
  }

  /** A loop that does not raise ends only when its list is empty, its quota is filled, or the next event is
      blocked, which then waits last. */
  lemma {:induction false} LoopEnds(env: Env, kind: TaskKind, r: LoopResult, from: nat)
    requires from <= |r.log| && LogsWell(env, from, r) && !r.raised
    ensures var r' := Loop(env, kind, r);
      && LogsWell(env, from, r')
      && (!r'.raised ==> r'.queue == [] || Dispatches(r'.log) >= env.maxPerPoll || IsBlocked(env, r'.queue[0]))
    decreases |r.queue|
  {
    hide Loop, Dispatches, LogsWell;
    if Dispatches(r.log) >= env.maxPerPoll || r.queue == [] {
      LoopDone(env, kind, r);
    } else {
      var raw, rest := r.queue[|r.queue| - 1], r.queue[..|r.queue| - 1];
      LoopStep(env, kind, r);
      match FateOf(env, kind, r.docs, raw)
      case None => SameLog(env, from, r, r.(queue := [raw] + rest));
      case Some(fate) =>
        var next := Settle(env, kind, r, raw, rest, fate);
        SettleLogsWell(env, kind, r, raw, rest, fate, from);
        if fate == Crashed {
          LoopDone(env, kind, next);
        } else {
          LoopEnds(env, kind, next, from);
        }
    }
  }

  lemma SameLog(env: Env, from: nat, r: LoopResult, r': LoopResult)
    requires LogsWell(env, from, r) && r'.log == r.log && r'.delay == r.delay && r'.raised == r.raised
    ensures LogsWell(env, from, r')
  {
  }

  lemma SettleLogsWell(env: Env, kind: TaskKind, r: LoopResult, raw: string, rest: seq<string>, fate: Fate, from: nat)
    requires from <= |r.log| && LogsWell(env, from, r) && !r.raised && FateOf(env, kind, r.docs, raw) == Some(fate)
    ensures LogsWell(env, from, Settle(env, kind, r, raw, rest, fate))
    ensures Settle(env, kind, r, raw, rest, fate).raised <==> fate == Crashed
  {
    var next := Settle(env, kind, r, raw, rest, fate);
    assert forall i :: 0 <= i < |r.log| ==> next.log[i] == r.log[i];
  }

  /** A poll raises exactly when a drain or a loop it gets to does. */
  lemma PollRaisesIff(env: Env, s: State, ups: seq<string>, dels: seq<string>)
    ensures var r := Poll(env, s, ups, dels);
      r.raised <==> Raises(env, ups) || Raises(env, dels) || EndsBadly(env, r.uploadLog) || EndsBadly(env, r.deleteLog)
  {
    hide Drain, Loop, Ready, Raises, EndsBadly, LogsWell;
    DrainRaises(env, s.docs, s.uploads, ups);
    var (docs1, uploads1, raised1) := Drain(env, s.docs, s.uploads, ups);
    DrainRaises(env, docs1, s.deletes, dels);
    var (docs2, deletes2, raised2) := Drain(env, docs1, s.deletes, dels);
    EmptyEndsWell(env);
    if !raised1 && !raised2 {
      var u0 := LoopResult(docs2, uploads1, s.uploadDelay - Ready(s.uploadDelay, env.now), s.tasks, [], false);
      LoopRaisesIff(env, Ingest, u0);
      var u := Loop(env, Ingest, u0);
      LoopRaisesIff(env, Delete, LoopResult(u.docs, deletes2, s.deleteDelay - Ready(s.deleteDelay, env.now), u.tasks, [], false));
    }
  }

  /** The last payload popped is no JSON object. */
  ghost predicate EndsBadly(env: Env, log: seq<(string, Fate)>) {
    log != [] && env.parse(log[|log| - 1].0) == NotObject
  }

  lemma EmptyEndsWell(env: Env)
    ensures !EndsBadly(env, [])
  {
  }

  lemma LoopRaisesIff(env: Env, kind: TaskKind, r: LoopResult)
    requires r.log == [] && !r.raised
    ensures Loop(env, kind, r).raised <==> EndsBadly(env, Loop(env, kind, r).log)
  {
    hide Loop;
    LoopEnds(env, kind, r, 0);
  }
}
