/**
  Memory and table over whole lives of the worker: when every run of a life keeps the two in
  agreement for the clients, and a run that does not.
*/
module TaskSync {
  import opened Optional
  import opened TaskModel
  import opened TaskProtocol
  import opened TaskInvariants
  import opened TaskTheorems
  import opened TaskLife
  import opened TaskReplay
  import opened TaskStarts
  import opened TaskCache

  // ----------------------------------------------------------- task by task

  lemma AgreeByStorage(s: State, id: TaskId)
    requires Base(s) && Stored(s) && id in s.mem.tasks
    ensures s.storage.InMemory? ==> (Cached(s, id) == Persistent(s, id) <==> !AwaitsPickUp(s, id))
    ensures s.storage.Database? ==>
              (Cached(s, id) == Persistent(s, id) <==> !AwaitsPickUp(s, id) && !Stale(s.mem.tasks[id]))
    ensures AwaitsPickUp(s, id) ==> !Stale(s.mem.tasks[id])
  {
    assert id in s.disk.repo;
    if s.storage.Database? { assert ShapeOk(s.disk.repo[id]); }
  }

  /**
    After any run, and for every task, also one executed again after it finished: over the
    dictionary, forgetting the envelope changes the status answer exactly if the task awaits
    pick-up over a running row; over the ORM, exactly if it does or its envelope is stale.
  */
  lemma CacheFaithfulIff(s0: State, run: seq<Action>, id: TaskId)
    requires Init(s0) && Valid(s0, run) && forall i | 0 <= i < |run| :: Survives(s0.storage, run[i])
    requires id in After(s0, run).mem.tasks
    ensures var s := After(s0, run);
      Cached(s, id) == Persistent(s, id)
      <==> !AwaitsPickUp(s, id) && (s.storage.Database? ==> !Stale(s.mem.tasks[id]))
  {
    InitInv(s0);
    InitStored(s0);
    StoredAlways(s0, run);
    AgreeByStorage(After(s0, run), id);
  }

  /** Picking up a finished task leaves the two in agreement if and only if the table is the dictionary. */
  lemma PickOfFinishedAgreesIff(s: State)
    requires Inv(s) && Stored(s) && Enabled(s, Pick) && PicksFinished(s, Pick)
    ensures var s' := Apply(s, Pick); var id := s.ctl.worker.id;
      Cached(s', id) == Persistent(s', id) <==> s.storage.InMemory?
  {
    InvInductive(s, Pick);
    StoredInductive(s, Pick);
    AgreeByStorage(Apply(s, Pick), s.ctl.worker.id);
    if s.storage.Database? { assert ShapeOk(s.disk.repo[s.ctl.worker.id]); }
  }

  // --------------------------------------------------- agreement over a life

  /** No coroutine but the worker runs until the worker is suspended again. */
  predicate AtRest(w: WorkerPc) {
    w.Off? || Suspended(w)
  }

  /** Memory and table give the same answer for every task that does not await pick-up. */
  ghost predicate InSync(s: State) {
    forall id | id in s.mem.tasks && !AwaitsPickUp(s, id) :: Cached(s, id) == Persistent(s, id)
  }

  ghost predicate NoneStale(tasks: map<TaskId, Envelope>) {
    forall id | id in tasks :: !Stale(tasks[id])
  }

  lemma InSyncIff(s: State)
    requires Base(s) && Stored(s)
    ensures InSync(s) <==> s.storage.InMemory? || NoneStale(s.mem.tasks)
  {
    forall id | id in s.mem.tasks
      ensures Cached(s, id) == Persistent(s, id)
              <==> !AwaitsPickUp(s, id) && (s.storage.Database? ==> !Stale(s.mem.tasks[id]))
      ensures AwaitsPickUp(s, id) ==> !Stale(s.mem.tasks[id])
    {
      AgreeByStorage(s, id);
    }
  }

  lemma NoneStaleStep(s: State, a: Action)
    requires Base(s) && Enabled(s, a) && NoneStale(s.mem.tasks) && !PicksFinished(s, a)
    ensures NoneStale(Apply(s, a).mem.tasks)
  {
    if !TableAction(a) { TablesUntouched(s, a); }
  }

  lemma {:induction false} ForwardKeepsNoneStale(s: State, run: seq<Action>)
    requires Inv(s) && NoneStale(s.mem.tasks) && Valid(s, run) && RunForward(s, run)
    ensures NoneStale(After(s, run).mem.tasks)
    decreases |run|
  {
    if run != [] {
      StepForwardIff(s, run[0]);
      NoneStaleStep(s, run[0]);
      InvInductive(s, run[0]);
      ForwardKeepsNoneStale(Apply(s, run[0]), run[1..]);
    }
  }

  /** The outcome of the status is there. */
  ghost predicate Carries(e: Envelope) {
    (e.status.Completed? && e.result.Some?) || (e.status.Failed? && e.error.Some?)
  }

  /** The outcome a finished envelope does not have yet. */
  function Opposite(e: Envelope): Outcome {
    if e.status.Completed? then Raised("") else Returned(Response("", ""))
  }

  /** Serving a finished task once more, with the other outcome, makes its envelope stale. */
  lemma SpoilingRun(s: State) returns (run: seq<Action>)
    requires s.ctl.worker.Idle? && s.disk.queue != [] && s.disk.queue[0] in s.mem.tasks
    requires Carries(s.mem.tasks[s.disk.queue[0]])
    ensures LifeRun(run) && Valid(s, run) && After(s, run).ctl.worker.Idle?
    ensures !NoneStale(After(s, run).mem.tasks)
  {
    var id := s.disk.queue[0];
    var o := Opposite(s.mem.tasks[id]);
    run := ServingRun(s, o);
    assert After(s, run).mem.tasks[id] == FinishedEnvelope(s.mem.tasks[id], o);
    assert Stale(After(s, run).mem.tasks[id]);
  }

  /** A place of what waits by which the task has finished: earlier in the line, or before the start. */
  ghost predicate FinishedBy(s: State, line: seq<TaskId>, n: nat) {
    && n < |line| && WillBeKnown(s, line[n])
    && (line[n] in line[..n] || (line[n] in s.mem.tasks && Carries(s.mem.tasks[line[n]])
        && !Pending(s.disk.repo, line[n])))
  }

  lemma SpoilingLife(s: State, pushed: seq<TaskId>, n: nat) returns (run: seq<Action>)
    requires Inv(s) && s.ctl.phase.Stopped? && Pushable(s, pushed) && FinishedBy(s, Waiting(s, pushed), n)
    ensures LifeRun(run) && Valid(Apply(s, Start), run) && After(Apply(s, Start), run).ctl.worker.Idle?
    ensures !NoneStale(After(Apply(s, Start), run).mem.tasks)
  {
    var s1, line, o := Apply(s, Start), Waiting(s, pushed), Returned(Response("", ""));
    var r1 := FillingRun(s, pushed);
    var s2 := After(s1, r1);
    var r2 := DrainingRun(s2, n, o);
    RunsCompose(s1, r1, r2);
    var s3 := After(s2, r2);
    var id := line[n];
    assert s3.disk.queue[0] == id;
    assert s3.mem.tasks[id] == if id in line[..n] then FinishedEnvelope(s2.mem.tasks[id], o) else s2.mem.tasks[id];
    var r3 := SpoilingRun(s3);
    RunsCompose(s1, r1 + r2, r3);
    run := r1 + r2 + r3;
  }

  ghost predicate EveryLifeInSync(s: State)
    requires s.ctl.phase.Stopped?
  {
    forall run | LifeRun(run) && Valid(Apply(s, Start), run) && AtRest(After(Apply(s, Start), run).ctl.worker) ::
      InSync(After(Apply(s, Start), run))
  }

  lemma LifeStored(s: State, run: seq<Action>)
    requires Inv(s) && Stored(s) && s.ctl.phase.Stopped? && LifeRun(run) && Valid(Apply(s, Start), run)
    ensures var s' := After(Apply(s, Start), run); Base(s') && Stored(s') && s'.storage == s.storage
  {
    InvInductive(s, Start);
    StoredInductive(s, Start);
    forall i | 0 <= i < |run| ensures Survives(s.storage, run[i]) { assert SameLife(run[i]); }
    StoredAlways(Apply(s, Start), run);
  }

  /** What breaks the agreement in some run of the life: a stale envelope, or a task served again. */
  lemma LifeGoesOutOfSync(s: State) returns (run: seq<Action>)
    requires Inv(s) && Stored(s) && s.ctl.phase.Stopped? && s.storage.Database?
    requires !(NoneStale(s.mem.tasks) && CleanStart(s) && NoneFinished(s))
    ensures LifeRun(run) && Valid(Apply(s, Start), run) && AtRest(After(Apply(s, Start), run).ctl.worker)
    ensures !InSync(After(Apply(s, Start), run))
  {
    if !NoneStale(s.mem.tasks) {
      run := [];
    } else if !CleanStart(s) {
      var pushed, i, j := NotCleanNamesTwice(s);
      assert Waiting(s, pushed)[..j][i] == Waiting(s, pushed)[j];
      run := SpoilingLife(s, pushed, j);
    } else {
      var id :| id in s.mem.tasks && id in s.disk.repo && Terminal(s.disk.repo[id].status)
        && (id in s.disk.queue || Enqueuing(s.ctl, id));
      var pushed := if id in s.disk.queue then [] else [id];
      assert id in Waiting(s, pushed);
      var n :| 0 <= n < |Waiting(s, pushed)| && Waiting(s, pushed)[n] == id;
      assert ShapeOk(s.disk.repo[id]);
      run := SpoilingLife(s, pushed, n);
    }
    LifeStored(s, run);
    InSyncIff(After(Apply(s, Start), run));
  }

  /**
    Whenever the manager can be started: memory and table agree whenever the worker is suspended,
    in every run up to the next stop or crash, if and only if the table is the dictionary, or no
    envelope is stale, what waits names no task twice and no finished one.
  */
  lemma InSyncIffCleanStart(s: State)
    requires Inv(s) && Stored(s) && s.ctl.phase.Stopped?
    ensures EveryLifeInSync(s) <==>
            s.storage.InMemory? || (NoneStale(s.mem.tasks) && CleanStart(s) && NoneFinished(s))
  {
    if s.storage.Database? && !(NoneStale(s.mem.tasks) && CleanStart(s) && NoneFinished(s)) {
      var run := LifeGoesOutOfSync(s);
    } else {
      forall run | LifeRun(run) && Valid(Apply(s, Start), run) && AtRest(After(Apply(s, Start), run).ctl.worker)
        ensures InSync(After(Apply(s, Start), run))
      {
        LifeStored(s, run);
        InSyncIff(After(Apply(s, Start), run));
        if s.storage.Database? {
          ForwardIffCleanStart(s);
          InvInductive(s, Start);
          ForwardKeepsNoneStale(Apply(s, Start), run);
        }
      }
    }
  }

  /** After a boot this is: the table is the dictionary, or the queue holds no unfinished task. */
  lemma InSyncIffQueueClean(s: State)
    requires Inv(s) && Stored(s) && Booted(s)
    ensures EveryLifeInSync(s) <==> s.storage.InMemory? || CleanQueue(s.disk)
  {
    InSyncIffCleanStart(s);
    BootIsClean(s);
  }

  /** From every boot of the ORM over a queue with an unfinished task, a run that ends out of step. */
  lemma DirtyQueueGoesOutOfSync(s: State, id: TaskId) returns (run: seq<Action>, other: TaskId)
    requires Init(s) && s.storage.Database? && id in s.disk.queue && Pending(s.disk.repo, id)
    ensures Valid(s, run) && other in After(s, run).mem.tasks && AtRest(After(s, run).ctl.worker)
    ensures Cached(After(s, run), other) != Persistent(After(s, run), other)
  {
    InitInv(s);
    InitStored(s);
    var life := LifeGoesOutOfSync(s);
    OneStep(s, Start);
    RunsCompose(s, [Start], life);
    run := [Start] + life;
    other :| other in After(s, run).mem.tasks && Cached(After(s, run), other) != Persistent(After(s, run), other);
  }
}
