/**
  What a client is told: the status answer after every step that changes it, the request the
  worker runs, the outcome a finished row holds, and the order in which tasks are recovered.
*/
module TaskAnswers {
  import opened Optional
  import opened TaskModel
  import opened TaskProtocol
  import opened TaskInvariants
  import opened TaskTheorems
  import opened TaskLife
  import opened TaskCache

  // ------------------------------------------------------------- outcomes stored

  /** The whole answer for a task that ended so. */
  predicate Tells(answer: Snapshot, id: TaskId, o: Outcome) {
    match o
    case Returned(r) => answer == Snapshot(id, Completed, Some(r.traceId), Some(r), None)
    case Raised(m) => answer == Snapshot(id, Failed, None, None, Some(m))
  }

  /**
    When the orchestrator has returned or raised, the status answer is what it returned or raised,
    from memory and from the table alike; nothing else is in it unless the task was run before.
  */
  lemma RunAnswers(s: State, o: Outcome)
    requires Reachable(s) && Enabled(s, Run(o))
    ensures var s', id := Apply(s, Run(o)), s.ctl.worker.id;
      && id in s'.mem.tasks && id in s'.disk.repo
      && EnvelopeHolds(s'.mem.tasks[id], o) && RowHolds(s'.disk.repo[id], o)
      && (o.Returned? ==> Cached(s', id).traceId == Persistent(s', id).traceId == Some(o.response.traceId))
      && (id !in s.log.rerun ==> Tells(Cached(s', id), id, o) && Tells(Persistent(s', id), id, o))
  {
    ReachableInv(s);
    RunStores(s, o);
  }

  lemma RunStores(s: State, o: Outcome)
    requires Base(s) && Enabled(s, Run(o))
    requires Shaped(s.disk.repo, s.log.rerun) && OutcomeAgrees(s.mem.tasks, s.disk.repo, s.log.rerun)
    ensures var s', id := ApplyRun(s, o), s.ctl.worker.id;
      && id in s'.mem.tasks && id in s'.disk.repo
      && EnvelopeHolds(s'.mem.tasks[id], o) && RowHolds(s'.disk.repo[id], o)
      && (o.Returned? ==> Cached(s', id).traceId == Persistent(s', id).traceId == Some(o.response.traceId))
      && (id !in s.log.rerun ==> Tells(Cached(s', id), id, o) && Tells(Persistent(s', id), id, o))
  {
    var id := s.ctl.worker.id;
    assert id in s.disk.repo;
    FinishedHolds(s.storage, s.mem.tasks, s.disk.repo, id, o);
    if id !in s.log.rerun { assert ShapeOk(s.disk.repo[id]); }
  }

  /** What an update leaves in a row: a field not given stays in the dictionary and is cleared by the ORM. */
  lemma UpdateKeepsOrClears(storage: Storage, repo: map<TaskId, Record>, id: TaskId, st: Status,
                            trace: Option<string>, result: Option<Response>, error: Option<string>)
    ensures var repo' := UpdatedTable(storage, repo, id, st, trace, result, error);
      && repo'.Keys == repo.Keys
      && (forall x | x in repo && x != id :: repo'[x] == repo[x])
      && (id in repo ==>
            && repo'[id].request == repo[id].request && repo'[id].status == st
            && (trace.Some? || storage.Database? ==> repo'[id].traceId == trace)
            && (result.Some? || storage.Database? ==> repo'[id].result == result)
            && (error.Some? || storage.Database? ==> repo'[id].error == error)
            && (storage.InMemory? && trace == None ==> repo'[id].traceId == repo[id].traceId)
            && (storage.InMemory? && result == None ==> repo'[id].result == repo[id].result)
            && (storage.InMemory? && error == None ==> repo'[id].error == repo[id].error))
  {
  }

  // ------------------------------------------------------------ the other answers

  /** A new submission is queued, from both sides, and nobody has an outcome for it. */
  lemma CreateAnswers(s: State, id: TaskId, request: Request)
    requires Enabled(s, Create(id, request))
    ensures var s' := Apply(s, Create(id, request));
      && Cached(s', id) == Persistent(s', id) == Snapshot(id, Queued, None, None, None)
      && s'.mem.tasks[id].request == request && s'.disk.repo[id].request == Some(request)
  {
  }

  /** A task picked up is running, from both sides; one never run before has no outcome. */
  lemma PickAnswers(s: State)
    requires Reachable(s) && Enabled(s, Pick) && s.ctl.worker.id in s.mem.tasks
    ensures var s', id := Apply(s, Pick), s.ctl.worker.id;
      && Cached(s', id).status.Running? && Persistent(s', id).status.Running?
      && (id !in s'.log.rerun ==> Cached(s', id) == Persistent(s', id) == Snapshot(id, Running, None, None, None))
  {
    ReachableInv(s);
    assert s.ctl.worker.id in s.disk.repo;
    if s.ctl.worker.id !in s.log.rerun { assert ShapeOk(s.disk.repo[s.ctl.worker.id]); }
  }

  /** A recovered task is queued again, with no outcome, whatever was known of it. */
  lemma RecoverAnswers(s: State)
    requires Enabled(s, RecoverLoad) && s.ctl.phase.rest[0] in s.disk.repo
    requires s.disk.repo[s.ctl.phase.rest[0]].request.Some?
    ensures Cached(Apply(s, RecoverLoad), s.ctl.phase.rest[0])
              == Snapshot(s.ctl.phase.rest[0], Queued, None, None, None)
  {
  }

  /** An id nobody knows. */
  lemma UnknownAnswer(s: State, id: TaskId)
    requires id !in s.mem.tasks && id !in s.disk.repo
    ensures Cached(s, id) == Snapshot(id, Failed, None, None, Some("task_not_found"))
  {
  }

  /** The action is about this task. */
  predicate Concerns(s: State, a: Action, id: TaskId) {
    match a
    case Create(x, _) => x == id
    case Pick => s.ctl.worker.Held? && s.ctl.worker.id == id
    case Run(_) => s.ctl.worker.Ready? && s.ctl.worker.id == id
    case RecoverLoad => Recovers(s.ctl.phase, false) && s.ctl.phase.rest[0] == id
    case Crash(_) => true
    case _ => false
  }

  /** No other action changes what is answered for it. */
  lemma AnswerUnchanged(s: State, a: Action, id: TaskId)
    requires Enabled(s, a) && !Concerns(s, a, id)
    ensures Cached(Apply(s, a), id) == Cached(s, id) && Persistent(Apply(s, a), id) == Persistent(s, id)
  {
    if !TableAction(a) { TablesUntouched(s, a); }
  }

  /** A subscription begins with the answer of the moment; every other stream stays as it is. */
  lemma SubscribeAnswers(s: State, sid: StreamId, t: TaskId)
    requires Enabled(s, Subscribe(sid, t))
    ensures var s' := Apply(s, Subscribe(sid, t));
      && sid in s'.mem.streams && s'.mem.streams[sid].puts == [Cached(s, t)] && s'.mem.streams[sid].taken == 0
      && s'.mem.streams[sid].task == t && s'.mem.streams[sid].pc.Open?
      && forall x | x in s.mem.streams :: x in s'.mem.streams && s'.mem.streams[x] == s.mem.streams[x]
  {
  }

  /** Whoever puts, puts the answer of the moment to each subscriber of its tuple and to no other. */
  lemma PutAnswers(s: State, a: Action)
    requires Enabled(s, a) && (a.SubmitPut? || a.WorkerPut?)
    ensures var id := if a.SubmitPut? then a.id else s.ctl.worker.id;
      var to := if a.SubmitPut? then s.ctl.submitters[id].pub.to else s.ctl.worker.pub.to;
      var s' := Apply(s, a);
      && s'.mem.streams.Keys == s.mem.streams.Keys
      && forall x | x in s.mem.streams ::
           s'.mem.streams[x].puts == s.mem.streams[x].puts + if x in to then [Cached(s, id)] else []
  {
    var id := if a.SubmitPut? then a.id else s.ctl.worker.id;
    var to := if a.SubmitPut? then s.ctl.submitters[id].pub.to else s.ctl.worker.pub.to;
    assert Apply(s, a).mem.streams == PutAll(s.mem.streams, to, Cached(s, id));
    assert forall x | x in s.mem.streams :: s.mem.streams[x].puts + [] == s.mem.streams[x].puts;
  }

  // -------------------------------------------------------------- over whole runs

  lemma {:induction false} RequestStays(s: State, run: seq<Action>, id: TaskId)
    requires Valid(s, run) && id in s.disk.repo
    ensures id in After(s, run).disk.repo && After(s, run).disk.repo[id].request == s.disk.repo[id].request
    decreases |run|
  {
    if run != [] {
      RequestStaysByOne(s, run[0], id);
      RequestStays(Apply(s, run[0]), run[1..], id);
    }
  }

  lemma RequestStaysByOne(s: State, a: Action, id: TaskId)
    requires Enabled(s, a) && id in s.disk.repo
    ensures id in Apply(s, a).disk.repo && Apply(s, a).disk.repo[id].request == s.disk.repo[id].request
  {
    if !TableAction(a) { TablesUntouched(s, a); }
  }

  /** What the worker runs, at any later time and after any stops and crashes, is the request that was submitted. */
  lemma WorkerRunsTheSubmittedRequest(s: State, id: TaskId, request: Request, run: seq<Action>)
    requires Reachable(s) && Enabled(s, Create(id, request)) && Valid(Apply(s, Create(id, request)), run)
    requires After(Apply(s, Create(id, request)), run).ctl.worker == Ready(id)
    ensures var s' := After(Apply(s, Create(id, request)), run);
      id in s'.mem.tasks && s'.mem.tasks[id].request == request
  {
    var s1 := Apply(s, Create(id, request));
    ReachableInv(s);
    InvInductive(s, Create(id, request));
    InvAlways(s1, run);
    RequestStays(s1, run, id);
  }

  /** How the last run of this task in the run ended, if there was one. */
  ghost function LastOutcome(s: State, run: seq<Action>, id: TaskId): Option<Outcome>
    requires Valid(s, run)
    decreases |run|
  {
    if run == [] then None
    else
      var later := LastOutcome(Apply(s, run[0]), run[1..], id);
      if later.Some? then later
      else if run[0].Run? && s.ctl.worker.id == id then Some(run[0].outcome)
      else None
  }

  lemma RowAfterOne(s: State, a: Action, id: TaskId)
    requires MemoryBacked(s.mem.tasks, s.disk.repo) && Enabled(s, a)
    requires WorkerAgrees(s.ctl.phase, s.ctl.worker, s.mem.tasks, s.log.recovered)
    requires id in Apply(s, a).disk.repo && Terminal(Apply(s, a).disk.repo[id].status)
    ensures if a.Run? && s.ctl.worker.id == id then RowHolds(Apply(s, a).disk.repo[id], a.outcome)
            else id in s.disk.repo && Apply(s, a).disk.repo[id] == s.disk.repo[id]
  {
    if a.Run? {
      FinishedHolds(s.storage, s.mem.tasks, s.disk.repo, s.ctl.worker.id, a.outcome);
    } else if !TableAction(a) {
      TablesUntouched(s, a);
    }
  }

  /**
    A finished row holds the outcome of the last run of its task, over any stops, crashes and
    repeated runs; a row its task was not run for is as it was.
  */
  lemma {:induction false} FinishedRowHoldsLastOutcome(s: State, run: seq<Action>, id: TaskId)
    requires Inv(s) && Valid(s, run)
    requires id in After(s, run).disk.repo && Terminal(After(s, run).disk.repo[id].status)
    ensures var last := LastOutcome(s, run, id);
      if last.Some? then RowHolds(After(s, run).disk.repo[id], last.value)
      else id in s.disk.repo && After(s, run).disk.repo[id] == s.disk.repo[id]
    decreases |run|
  {
    if run != [] {
      var s1 := Apply(s, run[0]);
      InvInductive(s, run[0]);
      FinishedRowHoldsLastOutcome(s1, run[1..], id);
      if LastOutcome(s1, run[1..], id).None? { RowAfterOne(s, run[0], id); }
    }
  }

  // ------------------------------------------------------------- order of recovery

  /** a stands somewhere before b. */
  ghost predicate Precedes(ids: seq<TaskId>, a: TaskId, b: TaskId) {
    exists k, l | 0 <= k < l < |ids| :: ids[k] == a && ids[l] == b
  }

  /** Whatever is in xs stands there in the order of ids. */
  ghost predicate KeepsOrder(xs: seq<TaskId>, ids: seq<TaskId>) {
    && (forall x | x in xs :: x in ids)
    && forall i, j | 0 <= i < j < |xs| :: Precedes(ids, xs[i], xs[j])
  }

  /** Picking some of a sequence from its end keeps the order. */
  lemma KeepsOrderNext(xs: seq<TaskId>, ids: seq<TaskId>, id: TaskId, more: seq<TaskId>)
    requires KeepsOrder(xs, ids) && (more == [] || more == [id])
    ensures KeepsOrder(xs + more, ids + [id])
  {
    var ys, all := xs + more, ids + [id];
    forall i, j | 0 <= i < j < |ys| ensures Precedes(all, ys[i], ys[j]) {
      if j < |xs| {
        assert Precedes(ids, xs[i], xs[j]);
        var k, l :| 0 <= k < l < |ids| && ids[k] == xs[i] && ids[l] == xs[j];
        assert all[k] == xs[i] && all[l] == xs[j];
      } else {
        assert xs[i] in xs;
        var k :| 0 <= k < |ids| && ids[k] == xs[i];
        assert all[k] == xs[i] && all[|ids|] == id;
      }
    }
  }

  lemma KeepsOrderTransitive(xs: seq<TaskId>, ys: seq<TaskId>, zs: seq<TaskId>)
    requires KeepsOrder(xs, ys) && KeepsOrder(ys, zs)
    ensures KeepsOrder(xs, zs)
  {
    forall i, j | 0 <= i < j < |xs| ensures Precedes(zs, xs[i], xs[j]) {
      assert Precedes(ys, xs[i], xs[j]);
      var k, l :| 0 <= k < l < |ys| && ys[k] == xs[i] && ys[l] == xs[j];
      assert Precedes(zs, ys[k], ys[l]);
    }
  }

  /** The tasks to recover are listed oldest first. */
  lemma {:induction false} RecoverableOldestFirst(created: seq<TaskId>, repo: map<TaskId, Record>)
    ensures KeepsOrder(Recoverable(created, repo), created)
  {
    if created != [] {
      var init, last := created[..|created| - 1], created[|created| - 1];
      RecoverableOldestFirst(init, repo);
      KeepsOrderNext(Recoverable(init, repo), init, last,
                     if last in repo && !Terminal(repo[last].status) then [last] else []);
      assert init + [last] == created;
    }
  }
}
