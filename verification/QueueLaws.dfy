/** One poll, from arbitrary queue contents and statuses: when it loses an event, its quotas, and that
    no document gets two ingests or an ingest and a delete. */
module QueueLaws {
  import opened DedupTypes
  import opened QueueWorker
  import opened Wrappers

  // ---------------------------------------------------------------- draining

  /** Draining raises exactly when some ready payload is not a JSON object. */
  lemma {:induction false} DrainRaisesIff(env: Env, docs: map<string, Status>, queue: seq<string>, items: seq<string>)
    ensures Drain(env, docs, queue, items).2 <==> exists raw :: raw in items && env.parse(raw) == NotObject
  {
    if items != [] {
      var front, raw := items[..|items| - 1], items[|items| - 1];
      assert items == front + [raw];
      DrainRaisesIff(env, docs, queue, front);
    }
  }

  /** The payloads a drain gets to: those before the first that is not a JSON object. */
  function Reached(env: Env, items: seq<string>): (reached: seq<string>)
    ensures reached <= items
  {
    if items == [] then []
    else
      var front, raw := Reached(env, items[..|items| - 1]), items[|items| - 1];
      if |front| < |items| - 1 || env.parse(raw) == NotObject then front else front + [raw]
  }

  /** A drain moves exactly the payloads it gets to, and raises unless those are all. */
  lemma {:induction false} DrainMovesReached(env: Env, docs: map<string, Status>, queue: seq<string>, items: seq<string>)
    ensures multiset(Drain(env, docs, queue, items).1) == multiset(queue) + multiset(Reached(env, items))
    ensures Drain(env, docs, queue, items).2 <==> |Reached(env, items)| < |items|
  {
    if items != [] {
      DrainMovesReached(env, docs, queue, items[..|items| - 1]);
    }
  }

  /** Some event comes behind a payload that is not a JSON object, in the order of the drain. */
  ghost predicate EventBehindNonObject(env: Env, items: seq<string>) {
    exists i, j :: 0 <= i < j < |items| && env.parse(items[i]) == NotObject && IsEvent(env.parse, items[j])
  }

  /** How many of the payloads are events with payload `raw`. */
  function Copies(items: seq<string>, raw: string): nat {
    multiset(items)[raw]
  }

  lemma {:induction false} ReachedStops(env: Env, items: seq<string>)
    ensures var n := |Reached(env, items)|;
      (forall i :: 0 <= i < n ==> env.parse(items[i]) != NotObject) && (n < |items| ==> env.parse(items[n]) == NotObject)
  {
    if items != [] {
      ReachedStops(env, items[..|items| - 1]);
    }
  }

  /** A drain keeps every event, each in as many copies, if and only if none stands behind a payload
      that is not a JSON object. */
  lemma DrainKeepsEventsIff(env: Env, docs: map<string, Status>, queue: seq<string>, items: seq<string>)
    ensures (forall raw :: IsEvent(env.parse, raw) ==>
               Copies(Drain(env, docs, queue, items).1, raw) == Copies(queue, raw) + Copies(items, raw))
       <==> !EventBehindNonObject(env, items)
  {
    hide Drain, Reached;
    DrainMovesReached(env, docs, queue, items);
    ReachedStops(env, items);
    var n := |Reached(env, items)|;
    var behind := items[n..];
    assert items == Reached(env, items) + behind;
    if j :| n <= j < |items| && IsEvent(env.parse, items[j]) {
      assert env.parse(items[n]) == NotObject && n < j;
      assert items[j] in multiset(behind) by { assert behind[j - n] == items[j]; }
      assert Copies(Drain(env, docs, queue, items).1, items[j]) != Copies(queue, items[j]) + Copies(items, items[j]);
      assert EventBehindNonObject(env, items);
    } else {
      forall raw | IsEvent(env.parse, raw)
        ensures multiset(behind)[raw] == 0
      {
        assert raw !in behind;
      }
    }
  }

  lemma {:induction false} DrainKeepsRows(env: Env, docs: map<string, Status>, queue: seq<string>, items: seq<string>)
    ensures Drain(env, docs, queue, items).0.Keys == docs.Keys
  {
    if items != [] {
      DrainKeepsRows(env, docs, queue, items[..|items| - 1]);
    }
  }

  // ---------------------------------------------------------------- one loop

  function Raws(log: seq<(string, Fate)>): multiset<string> {
    if log == [] then multiset{} else Raws(log[..|log| - 1]) + multiset{log[|log| - 1].0}
  }

  function DelayedIn(log: seq<(string, Fate)>): set<string> {
    set i | 0 <= i < |log| && log[i].1 == Delayed :: log[i].0
  }

  function TasksIn(env: Env, kind: TaskKind, log: seq<(string, Fate)>): seq<Task> {
    if log == [] then []
    else
      var rest, (raw, fate) := TasksIn(env, kind, log[..|log| - 1]), log[|log| - 1];
      if fate == Dispatched && env.parse(raw).Event? then rest + [TaskOf(env, kind, raw)] else rest
  }

  /** Every payload taken off the list is in the log; the well-formed ones were dispatched as tasks or
      put in the delay set, the others skipped. */
  ghost predicate Accounts(env: Env, kind: TaskKind, before: LoopResult, after: LoopResult) {
    && multiset(before.queue) + Raws(before.log) == multiset(after.queue) + Raws(after.log)
    && after.delay.Keys + DelayedIn(before.log) == before.delay.Keys + DelayedIn(after.log)
    && (exists added :: after.tasks == before.tasks + added && TasksIn(env, kind, after.log) == TasksIn(env, kind, before.log) + added)
    && (forall i :: |before.log| <= i < |after.log| ==>
          (IsEvent(env.parse, after.log[i].0) <==> after.log[i].1 == Dispatched || after.log[i].1 == Delayed))
    && before.log <= after.log
  }

  lemma LogOfAppend(env: Env, kind: TaskKind, log: seq<(string, Fate)>, raw: string, fate: Fate)
    ensures Raws(log + [(raw, fate)]) == Raws(log) + multiset{raw}
    ensures DelayedIn(log + [(raw, fate)]) == DelayedIn(log) + (if fate == Delayed then {raw} else {})
    ensures TasksIn(env, kind, log + [(raw, fate)]) ==
      TasksIn(env, kind, log) + (if fate == Dispatched && env.parse(raw).Event? then [TaskOf(env, kind, raw)] else [])
  {
    var longer := log + [(raw, fate)];
    assert longer[..|log|] == log;
    forall x
      ensures x in DelayedIn(longer) <==> x in DelayedIn(log) || (fate == Delayed && x == raw)
    {
      if x in DelayedIn(log) {
        var i :| 0 <= i < |log| && log[i].1 == Delayed && log[i].0 == x;
        assert longer[i] == log[i];
      }
      assert longer[|log|] == (raw, fate);
    }
  }

  lemma SettleAccounts(env: Env, kind: TaskKind, r: LoopResult, raw: string, rest: seq<string>, fate: Fate)
    requires r.queue == rest + [raw] && FateOf(env, kind, r.docs, raw) == Some(fate)
    requires DelayedIn(r.log) <= r.delay.Keys
    ensures Accounts(env, kind, r, Settle(env, kind, r, raw, rest, fate))
    ensures DelayedIn(Settle(env, kind, r, raw, rest, fate).log) <= Settle(env, kind, r, raw, rest, fate).delay.Keys
  {
    hide Raws, DelayedIn, TasksIn;
    var r' := Settle(env, kind, r, raw, rest, fate);
    LogOfAppend(env, kind, r.log, raw, fate);
    var added := if fate == Dispatched then [TaskOf(env, kind, raw)] else [];
    assert r'.tasks == r.tasks + added;
    assert TasksIn(env, kind, r'.log) == TasksIn(env, kind, r.log) + added;
    assert multiset(r.queue) == multiset(rest) + multiset{raw};
    assert r'.delay.Keys == r.delay.Keys + (if fate == Delayed then {raw} else {});
  }

  lemma AccountsTransitive(env: Env, kind: TaskKind, a: LoopResult, b: LoopResult, c: LoopResult)
    requires Accounts(env, kind, a, b) && Accounts(env, kind, b, c)
    requires DelayedIn(a.log) <= a.delay.Keys && DelayedIn(b.log) <= b.delay.Keys && DelayedIn(c.log) <= c.delay.Keys
    ensures Accounts(env, kind, a, c)
  {
    hide Raws, DelayedIn, TasksIn;
    var ab :| b.tasks == a.tasks + ab && TasksIn(env, kind, b.log) == TasksIn(env, kind, a.log) + ab;
    var bc :| c.tasks == b.tasks + bc && TasksIn(env, kind, c.log) == TasksIn(env, kind, b.log) + bc;
    assert c.tasks == a.tasks + (ab + bc) && TasksIn(env, kind, c.log) == TasksIn(env, kind, a.log) + (ab + bc);
    Cancel(multiset(a.queue), Raws(a.log), multiset(b.queue), Raws(b.log), multiset(c.queue), Raws(c.log));
    DelayedGrows(b.log, c.log);
    SetCancel(a.delay.Keys, b.delay.Keys, c.delay.Keys, DelayedIn(a.log), DelayedIn(b.log), DelayedIn(c.log));
    forall i | |a.log| <= i < |c.log|
      ensures IsEvent(env.parse, c.log[i].0) <==> c.log[i].1 == Dispatched || c.log[i].1 == Delayed
    {
      if i < |b.log| {
        assert c.log[i] == b.log[i];
      }
    }
  }

  lemma DelayedGrows(log: seq<(string, Fate)>, longer: seq<(string, Fate)>)
    requires log <= longer
    ensures DelayedIn(log) <= DelayedIn(longer)
  {
    forall x | x in DelayedIn(log)
      ensures x in DelayedIn(longer)
    {
      var i :| 0 <= i < |log| && log[i].1 == Delayed && log[i].0 == x;
      assert longer[i] == log[i];
    }
  }

  lemma Cancel(a: multiset<string>, la: multiset<string>, b: multiset<string>, lb: multiset<string>, c: multiset<string>, lc: multiset<string>)
    requires a + la == b + lb && b + lb == c + lc
    ensures a + la == c + lc
  {
  }

  lemma SetCancel(a: set<string>, b: set<string>, c: set<string>, la: set<string>, lb: set<string>, lc: set<string>)
    requires b + la == a + lb && c + lb == b + lc && la <= a && lb <= b && lb <= lc <= c
    ensures c + la == a + lc
  {
    forall x
      ensures x in c + la <==> x in a + lc
    {
      assert x in b + la <==> x in a + lb;
      assert x in c + lb <==> x in b + lc;
    }
  }

  lemma {:induction false} LoopAccounts(env: Env, kind: TaskKind, r: LoopResult)
    requires DelayedIn(r.log) <= r.delay.Keys
    ensures Accounts(env, kind, r, Loop(env, kind, r))
    ensures DelayedIn(Loop(env, kind, r).log) <= Loop(env, kind, r).delay.Keys
    decreases |r.queue|
  {
    hide Raws, DelayedIn, TasksIn, Loop, Dispatches;
    if Dispatches(r.log) >= env.maxPerPoll || r.queue == [] || r.raised {
      LoopDone(env, kind, r);
      AccountsSelf(env, kind, r);
    } else {
      var raw, rest := r.queue[|r.queue| - 1], r.queue[..|r.queue| - 1];
      assert r.queue == rest + [raw];
      LoopStep(env, kind, r);
      match FateOf(env, kind, r.docs, raw)
      case None =>
        AccountsSelf(env, kind, r);
        assert multiset([raw] + rest) == multiset(r.queue);
      case Some(fate) =>
        var r' := Settle(env, kind, r, raw, rest, fate);
        SettleAccounts(env, kind, r, raw, rest, fate);
        LoopAccounts(env, kind, r');
        AccountsTransitive(env, kind, r, r', Loop(env, kind, r'));
    }
  }

  lemma AccountsSelf(env: Env, kind: TaskKind, r: LoopResult)
    ensures Accounts(env, kind, r, r)
  {
    assert r.tasks == r.tasks + [] && TasksIn(env, kind, r.log) == TasksIn(env, kind, r.log) + [];
  }

  lemma {:induction false} LoopWithinQuota(env: Env, kind: TaskKind, r: LoopResult)
    requires Dispatches(r.log) <= env.maxPerPoll
    ensures Dispatches(Loop(env, kind, r).log) <= env.maxPerPoll
    decreases |r.queue|
  {
    hide Loop, Dispatches;
    if Dispatches(r.log) >= env.maxPerPoll || r.queue == [] || r.raised {
      LoopDone(env, kind, r);
    } else {
      var raw, rest := r.queue[|r.queue| - 1], r.queue[..|r.queue| - 1];
      LoopStep(env, kind, r);
      match FateOf(env, kind, r.docs, raw)
      case None =>
      case Some(fate) => LoopWithinQuota(env, kind, Settle(env, kind, r, raw, rest, fate));
    }
  }

  /** How often document `d` was dispatched. */
  function DispatchesOf(env: Env, log: seq<(string, Fate)>, d: string): nat {
    if log == [] then 0
    else
      var (raw, fate) := log[|log| - 1];
      DispatchesOf(env, log[..|log| - 1], d) + (if fate == Dispatched && env.parse(raw).Event? && env.parse(raw).docId == d then 1 else 0)
  }

  /** The ingest loop dispatches a stored document at most once, never a busy one, and leaves a
      dispatched one running. */
  lemma {:induction false} IngestOnce(env: Env, r: LoopResult, d: string)
    requires d in r.docs
    ensures var r' := Loop(env, Ingest, r);
      && r'.docs.Keys == r.docs.Keys
      && (Busy(r.docs, d) ==> DispatchesOf(env, r'.log, d) == DispatchesOf(env, r.log, d) && r'.docs[d] == r.docs[d])
      && (!Busy(r.docs, d) ==>
            DispatchesOf(env, r'.log, d) == DispatchesOf(env, r.log, d)
            || (DispatchesOf(env, r'.log, d) == DispatchesOf(env, r.log, d) + 1 && r'.docs[d] == Running))
    decreases |r.queue|
  {
    hide Loop, Dispatches, Settle, FateOf, DispatchesOf;
    if Dispatches(r.log) >= env.maxPerPoll || r.queue == [] || r.raised {
      LoopDone(env, Ingest, r);
    } else {
      var raw, rest := r.queue[|r.queue| - 1], r.queue[..|r.queue| - 1];
      LoopStep(env, Ingest, r);
      match FateOf(env, Ingest, r.docs, raw)
      case None =>
      case Some(fate) =>
        IngestStepOnce(env, r, raw, rest, fate, d);
        IngestOnce(env, Settle(env, Ingest, r, raw, rest, fate), d);
    }
  }

  lemma IngestStepOnce(env: Env, r: LoopResult, raw: string, rest: seq<string>, fate: Fate, d: string)
    requires d in r.docs && FateOf(env, Ingest, r.docs, raw) == Some(fate)
    ensures var r' := Settle(env, Ingest, r, raw, rest, fate);
      && r'.queue == rest && r'.docs.Keys == r.docs.Keys
      && ((DispatchesOf(env, r'.log, d) == DispatchesOf(env, r.log, d) && r'.docs[d] == r.docs[d])
          || (!Busy(r.docs, d) && r'.docs[d] == Running && DispatchesOf(env, r'.log, d) == DispatchesOf(env, r.log, d) + 1))
  {
    var r' := Settle(env, Ingest, r, raw, rest, fate);
    assert r'.log[..|r.log|] == r.log;
  }

  /** The delete loop writes no status and never dispatches a running document. */
  lemma {:induction false} DeleteAvoidsRunning(env: Env, r: LoopResult, d: string)
    ensures var r' := Loop(env, Delete, r);
      r'.docs == r.docs && (d in r.docs && r.docs[d] == Running ==> DispatchesOf(env, r'.log, d) == DispatchesOf(env, r.log, d))
    decreases |r.queue|
  {
    hide Loop, Dispatches;
    if Dispatches(r.log) >= env.maxPerPoll || r.queue == [] || r.raised {
      LoopDone(env, Delete, r);
    } else {
      var raw, rest := r.queue[|r.queue| - 1], r.queue[..|r.queue| - 1];
      LoopStep(env, Delete, r);
      match FateOf(env, Delete, r.docs, raw)
      case None =>
      case Some(fate) =>
        var r' := Settle(env, Delete, r, raw, rest, fate);
        assert r'.log[..|r.log|] == r.log;
        DeleteAvoidsRunning(env, r', d);
    }
  }

  // ---------------------------------------------------------------- one poll

  /** The stages of a poll that gets as far as its dispatch loops. */
  ghost predicate PollStages(env: Env, s: State, ups: seq<string>, dels: seq<string>, u: LoopResult, u': LoopResult, d: LoopResult, d': LoopResult) {
    var (docs1, uploads1, raised1) := Drain(env, s.docs, s.uploads, ups);
    var (docs2, deletes2, raised2) := Drain(env, docs1, s.deletes, dels);
    var r := Poll(env, s, ups, dels);
    && !raised1 && !raised2
    && u == LoopResult(docs2, uploads1, s.uploadDelay - Ready(s.uploadDelay, env.now), s.tasks, [], false)
    && u' == Loop(env, Ingest, u)
    && d == LoopResult(u'.docs, deletes2, s.deleteDelay - Ready(s.deleteDelay, env.now), u'.tasks, [], false)
    && d' == (if u'.raised then d else Loop(env, Delete, d))
    && r.state == State(d'.docs, u'.queue, d'.queue, u'.delay, d'.delay, d'.tasks)
    && r.uploadLog == u'.log && r.deleteLog == d'.log
  }

  lemma PollHasStages(env: Env, s: State, ups: seq<string>, dels: seq<string>)
    returns (u: LoopResult, u': LoopResult, d: LoopResult, d': LoopResult)
    requires forall raw :: raw in ups || raw in dels ==> env.parse(raw) != NotObject
    ensures PollStages(env, s, ups, dels, u, u', d, d')
  {
    hide Drain, Loop, Ready;
    DrainRaisesIff(env, s.docs, s.uploads, ups);
    var (docs1, uploads1, raised1) := Drain(env, s.docs, s.uploads, ups);
    DrainRaisesIff(env, docs1, s.deletes, dels);
    var (docs2, deletes2, raised2) := Drain(env, docs1, s.deletes, dels);
    u := LoopResult(docs2, uploads1, s.uploadDelay - Ready(s.uploadDelay, env.now), s.tasks, [], false);
    u' := Loop(env, Ingest, u);
    d := LoopResult(u'.docs, deletes2, s.deleteDelay - Ready(s.deleteDelay, env.now), u'.tasks, [], false);
    d' := if u'.raised then d else Loop(env, Delete, d);
  }

  /** Where the events of one list and delay set are after a poll that drained the set: in as many
      copies still queued or taken off the list, and those dispatched or put back in the delay set. */
  ghost predicate NothingLost(env: Env, queue: seq<string>, delay: map<string, nat>, queue': seq<string>, delay': map<string, nat>,
                              log: seq<(string, Fate)>)
  {
    && (forall raw :: IsEvent(env.parse, raw) ==>
          multiset(queue)[raw] + multiset(Ready(delay, env.now))[raw] == multiset(queue')[raw] + Raws(log)[raw])
    && delay'.Keys == (delay.Keys - Ready(delay, env.now)) + DelayedIn(log)
    && forall i :: 0 <= i < |log| ==> (IsEvent(env.parse, log[i].0) <==> log[i].1 == Dispatched || log[i].1 == Delayed)
  }

  /** The poll broke off before it came to this list and delay set, or lost none of their events. */
  ghost predicate Kept(env: Env, queue: seq<string>, delay: map<string, nat>, queue': seq<string>, delay': map<string, nat>,
                       log: seq<(string, Fate)>)
  {
    (queue' == queue && delay' == delay && log == []) || NothingLost(env, queue, delay, queue', delay', log)
  }

  lemma DrainedKeepsIff(env: Env, docs: map<string, Status>, queue: seq<string>, delay: map<string, nat>, items: seq<string>)
    requires Enumerates(items, Ready(delay, env.now))
    ensures NothingLost(env, queue, delay, Drain(env, docs, queue, items).1, delay - Ready(delay, env.now), [])
       <==> !EventBehindNonObject(env, items)
    ensures Kept(env, queue, delay, Drain(env, docs, queue, items).1, delay - Ready(delay, env.now), [])
       <==> !EventBehindNonObject(env, items)
  {
    hide Drain, EventBehindNonObject, IsEvent, Raws, DelayedIn;
    DrainKeepsEventsIff(env, docs, queue, items);
    EmptyLog(env);
    var queue', ready := Drain(env, docs, queue, items).1, Ready(delay, env.now);
    assert (delay - ready).Keys == delay.Keys - ready;
    assert forall raw :: multiset(ready)[raw] == Copies(items, raw);
    if EventBehindNonObject(env, items) {
      SomeAreReady(env, delay, items);
    }
  }

  lemma SomeAreReady(env: Env, delay: map<string, nat>, items: seq<string>)
    requires Enumerates(items, Ready(delay, env.now)) && EventBehindNonObject(env, items)
    ensures delay - Ready(delay, env.now) != delay
  {
    assert items[0] in multiset(items);
    assert items[0] in Ready(delay, env.now) && items[0] in delay && items[0] !in delay - Ready(delay, env.now);
  }

  ghost predicate Raises(env: Env, items: seq<string>) {
    exists raw :: raw in items && env.parse(raw) == NotObject
  }

  /** For arbitrary queues a poll loses no event if and only if no event stands behind a ready payload
      that is not a JSON object: among the uploads, or, when their drain comes through, among the
      deletes. Its tasks are those it logs, and it stays within its quota for either kind. */
  lemma PollLosesNothingIff(env: Env, s: State, ups: seq<string>, dels: seq<string>)
    requires Enumerates(ups, Ready(s.uploadDelay, env.now)) && Enumerates(dels, Ready(s.deleteDelay, env.now))
    ensures var r := Poll(env, s, ups, dels);
      && (Kept(env, s.uploads, s.uploadDelay, r.state.uploads, r.state.uploadDelay, r.uploadLog)
          <==> !EventBehindNonObject(env, ups))
      && (Kept(env, s.deletes, s.deleteDelay, r.state.deletes, r.state.deleteDelay, r.deleteLog)
          <==> Raises(env, ups) || !EventBehindNonObject(env, dels))
      && r.state.tasks == s.tasks + TasksIn(env, Ingest, r.uploadLog) + TasksIn(env, Delete, r.deleteLog)
      && Dispatches(r.uploadLog) <= env.maxPerPoll && Dispatches(r.deleteLog) <= env.maxPerPoll
  {
    hide Drain, Loop, Ready, Raws, DelayedIn, TasksIn, Kept, NothingLost, EventBehindNonObject, Enumerates;
    EmptyLog(env);
    DrainRaisesIff(env, s.docs, s.uploads, ups);
    DrainedKeepsIff(env, s.docs, s.uploads, s.uploadDelay, ups);
    var (docs1, uploads1, raised1) := Drain(env, s.docs, s.uploads, ups);
    if raised1 {
      UntouchedIsKept(env, s.deletes, s.deleteDelay);
    } else {
      DrainRaisesIff(env, docs1, s.deletes, dels);
      DrainedKeepsIff(env, docs1, s.deletes, s.deleteDelay, dels);
      NoneBehind(env, ups);
      if !Drain(env, docs1, s.deletes, dels).2 {
        NoneBehind(env, dels);
        PollThroughLosesNothing(env, s, ups, dels);
      }
    }
  }

  lemma UntouchedIsKept(env: Env, queue: seq<string>, delay: map<string, nat>)
    ensures Kept(env, queue, delay, queue, delay, [])
  {
  }

  lemma NoneBehind(env: Env, items: seq<string>)
    ensures !Raises(env, items) ==> !EventBehindNonObject(env, items)
  {
    if i, j :| 0 <= i < j < |items| && env.parse(items[i]) == NotObject && IsEvent(env.parse, items[j]) {
      assert items[i] in items;
    }
  }

  /** A loop over a list into which all ready payloads were drained. */
  lemma LoopKeeps(env: Env, kind: TaskKind, queue: seq<string>, delay: map<string, nat>, items: seq<string>, before: LoopResult, after: LoopResult)
    requires Enumerates(items, Ready(delay, env.now)) && multiset(before.queue) == multiset(queue) + multiset(items)
    requires before.delay == delay - Ready(delay, env.now) && before.log == [] && Accounts(env, kind, before, after)
    ensures Kept(env, queue, delay, after.queue, after.delay, after.log)
  {
    hide Raws, DelayedIn, TasksIn, Ready, IsEvent;
    EmptyLog(env);
    assert before.delay.Keys == delay.Keys - Ready(delay, env.now);
    EqualCounts(multiset(queue), multiset(Ready(delay, env.now)), multiset(after.queue), Raws(after.log));
  }

  lemma EqualCounts(a: multiset<string>, b: multiset<string>, c: multiset<string>, d: multiset<string>)
    requires a + b == c + d
    ensures forall raw :: a[raw] + b[raw] == c[raw] + d[raw]
  {
    forall raw
      ensures a[raw] + b[raw] == c[raw] + d[raw]
    {
      assert (a + b)[raw] == (c + d)[raw];
    }
  }

  /** A poll whose drains come through. */
  lemma PollThroughLosesNothing(env: Env, s: State, ups: seq<string>, dels: seq<string>)
    requires Enumerates(ups, Ready(s.uploadDelay, env.now)) && Enumerates(dels, Ready(s.deleteDelay, env.now))
    requires !Raises(env, ups) && !Raises(env, dels)
    ensures var r := Poll(env, s, ups, dels);
      && Kept(env, s.uploads, s.uploadDelay, r.state.uploads, r.state.uploadDelay, r.uploadLog)
      && Kept(env, s.deletes, s.deleteDelay, r.state.deletes, r.state.deleteDelay, r.deleteLog)
      && r.state.tasks == s.tasks + TasksIn(env, Ingest, r.uploadLog) + TasksIn(env, Delete, r.deleteLog)
      && Dispatches(r.uploadLog) <= env.maxPerPoll && Dispatches(r.deleteLog) <= env.maxPerPoll
  {
    hide Drain, Loop, Ready, Poll, Raws, DelayedIn, TasksIn, Kept, Accounts, Enumerates, Dispatches;
    var u, u', d, d' := PollHasStages(env, s, ups, dels);
    var docs1 := Drain(env, s.docs, s.uploads, ups).0;
    DrainMovesReached(env, s.docs, s.uploads, ups);
    DrainMovesReached(env, docs1, s.deletes, dels);
    assert Reached(env, ups) == ups && Reached(env, dels) == dels;
    EmptyLog(env);
    LoopAccounts(env, Ingest, u);
    LoopWithinQuota(env, Ingest, u);
    if u'.raised {
      AccountsSelf(env, Delete, d);
    } else {
      LoopAccounts(env, Delete, d);
      LoopWithinQuota(env, Delete, d);
    }
    LoopKeeps(env, Ingest, s.uploads, s.uploadDelay, ups, u, u');
    LoopKeeps(env, Delete, s.deletes, s.deleteDelay, dels, d, d');
    AddedTasks(env, Ingest, u, u');
    AddedTasks(env, Delete, d, d');
  }

  /** An upload event ready right behind a payload that is JSON but no object vanishes: it is in no
      list, in no delay set, and no task was made of it. */
  lemma PollLosesEvent(env: Env, s: State, bad: string, good: string, ready: nat)
    requires env.parse(bad) == NotObject && IsEvent(env.parse, good) && ready <= env.now
    requires s.uploads == [] && s.uploadDelay == map[bad := ready, good := ready] && s.deleteDelay == map[]
    ensures Enumerates([bad, good], Ready(s.uploadDelay, env.now)) && Enumerates([], Ready(s.deleteDelay, env.now))
    ensures var r := Poll(env, s, [bad, good], []);
      r.raised && r.state.uploads == [] && r.state.uploadDelay == map[] && r.state.tasks == s.tasks
  {
    assert Ready(s.uploadDelay, env.now) == {bad, good};
    assert multiset({bad, good}) == multiset([bad, good]);
    assert Ready(s.deleteDelay, env.now) == {};
    assert [bad, good][..1] == [bad] && [bad][..0] == [];
    assert Drain(env, s.docs, [], [bad]) == (s.docs, [], true);
    assert Drain(env, s.docs, [], [bad, good]) == (s.docs, [], true);
  }

  lemma EmptyLog(env: Env)
    ensures Raws([]) == multiset{} && DelayedIn([]) == {} && Dispatches([]) == 0
    ensures forall kind :: TasksIn(env, kind, []) == []
  {
  }

  lemma AddedTasks(env: Env, kind: TaskKind, before: LoopResult, after: LoopResult)
    requires Accounts(env, kind, before, after) && before.log == []
    ensures after.tasks == before.tasks + TasksIn(env, kind, after.log)
  {
    var added :| after.tasks == before.tasks + added && TasksIn(env, kind, after.log) == TasksIn(env, kind, before.log) + added;
    assert TasksIn(env, kind, after.log) == added;
  }

  /** In one poll, a stored document gets at most one ingest, and not both an ingest and a delete. */
  lemma PollIsExclusive(env: Env, s: State, ups: seq<string>, dels: seq<string>, doc: string)
    requires doc in s.docs
    ensures var r := Poll(env, s, ups, dels);
      && DispatchesOf(env, r.uploadLog, doc) <= 1
      && (DispatchesOf(env, r.uploadLog, doc) == 1 ==> DispatchesOf(env, r.deleteLog, doc) == 0)
  {
    hide Drain, Loop, Ready;
    var (docs1, uploads1, raised1) := Drain(env, s.docs, s.uploads, ups);
    var (docs2, deletes2, raised2) := Drain(env, docs1, s.deletes, dels);
    DrainKeepsRows(env, s.docs, s.uploads, ups);
    DrainKeepsRows(env, docs1, s.deletes, dels);
    if !raised1 && !raised2 {
      var u := LoopResult(docs2, uploads1, s.uploadDelay - Ready(s.uploadDelay, env.now), s.tasks, [], false);
      IngestOnce(env, u, doc);
      var u' := Loop(env, Ingest, u);
      DeleteAvoidsRunning(env, LoopResult(u'.docs, deletes2, s.deleteDelay - Ready(s.deleteDelay, env.now), u'.tasks, [], false), doc);
    }
  }
}
