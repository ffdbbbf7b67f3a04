/**
  What holds of the task manager in every reachable state: over every interleaving of
  submitters, subscribers and worker, with stops and crashes at arbitrary points.
*/
module TaskTheorems {
  import opened Optional
  import opened TaskModel
  import opened TaskProtocol
  import opened TaskInvariants

  ghost predicate Inv(s: State) {
    && TableListed(s.disk)
    && References(s)
    && WorkerAgrees(s.ctl.phase, s.ctl.worker, s.mem.tasks, s.log.recovered)
    && Registered(s.mem.subs, s.mem.streams)
    && TuplesOk(s.mem.streams, s.ctl.worker, s.ctl.submitters)
    && Conserved(s.disk.queue, s.ctl.worker, s.log)
    && AtLeastOnce(s.disk, s.ctl, s.log.failed)
    && Known(s.disk.repo, s.mem.tasks, s.ctl.phase)
    && RestUnfinished(s.ctl.phase, s.disk.repo)
    && StatusAgrees(s.mem.tasks, s.disk.repo, s.log.recovered)
    && OutcomeAgrees(s.mem.tasks, s.disk.repo, s.log.rerun)
    && Shaped(s.disk.repo, s.log.rerun)
    && StreamsOk(s.mem.streams)
    && Monotone(s.mem.tasks, s.disk.repo, s.mem.streams, s.log.setback)
    && Delivered(s)
  }

  /** A process that has just been created and not started, with nothing in memory. */
  ghost predicate Booted(s: State) {
    && s.mem == Memory(map[], map[], map[])
    && s.ctl == Control(map[], Off, Stopped)
  }

  /** A first boot over any well-formed table and any queue of its ids. */
  ghost predicate Init(s: State) {
    && Booted(s)
    && TableListed(s.disk) && AllIn(s.disk.queue, s.disk.repo) && Shaped(s.disk.repo, {})
    && s.log == History(s.disk.queue, [], {}, {}, {}, {})
  }

  lemma InitInv(s: State)
    requires Init(s)
    ensures Inv(s)
  {
  }

  lemma InvInductive(s: State, a: Action)
    requires Inv(s) && Enabled(s, a)
    ensures Inv(Apply(s, a))
  {
    TableListedInductive(s, a);
    ReferencesInductive(s, a);
    WorkerAgreesInductive(s, a);
    RegisteredInductive(s, a);
    TuplesOkInductive(s, a);
    ConservedInductive(s, a);
    AtLeastOnceInductive(s, a);
    KnownInductive(s, a);
    RestUnfinishedInductive(s, a);
    StatusAgreesInductive(s, a);
    OutcomeAgreesInductive(s, a);
    ShapedInductive(s, a);
    StreamsOkInductive(s, a);
    MonotoneInductive(s, a);
    DeliveredInductive(s, a);
  }

  /** Every reachable state satisfies the invariant. */
  lemma {:induction false} InvAlways(s: State, run: seq<Action>)
    requires Inv(s) && Valid(s, run)
    ensures Inv(After(s, run))
    decreases |run|
  {
    if run != [] {
      InvInductive(s, run[0]);
      InvAlways(Apply(s, run[0]), run[1..]);
    }
  }

  ghost predicate Reachable(s: State) {
    exists s0, run :: Init(s0) && Valid(s0, run) && After(s0, run) == s
  }

  lemma ReachableInv(s: State)
    requires Reachable(s)
    ensures Inv(s)
  {
    var s0, run :| Init(s0) && Valid(s0, run) && After(s0, run) == s;
    InitInv(s0);
    InvAlways(s0, run);
  }

  lemma InitReachable(s: State)
    requires Init(s)
    ensures Reachable(s)
  {
    assert Valid(s, []) && After(s, []) == s;
  }

  lemma ReachableStep(s: State, a: Action)
    requires Reachable(s) && Enabled(s, a)
    ensures Reachable(Apply(s, a))
  {
    var s0, run :| Init(s0) && Valid(s0, run) && After(s0, run) == s;
    OneStep(s, a);
    RunsCompose(s0, run, [a]);
  }

  lemma ReachableStreams(s: State)
    requires Reachable(s)
    ensures Registered(s.mem.subs, s.mem.streams) && StreamsOk(s.mem.streams) && Delivered(s)
  {
    ReachableInv(s);
  }

  lemma ReachableWork(s: State)
    requires Reachable(s)
    ensures AtLeastOnce(s.disk, s.ctl, s.log.failed) && Known(s.disk.repo, s.mem.tasks, s.ctl.phase)
    ensures StatusAgrees(s.mem.tasks, s.disk.repo, s.log.recovered) && MemoryBacked(s.mem.tasks, s.disk.repo)
    ensures WorkerAgrees(s.ctl.phase, s.ctl.worker, s.mem.tasks, s.log.recovered)
  {
    ReachableInv(s);
  }

  // ----------------------------------------------------- terminal delivery

  /**
    No missed terminal event: whoever is registered on a finished task has been told, or is
    among those the worker has yet to tell.
  */
  lemma NoMissedTerminalEvent(s: State, t: TaskId, x: StreamId)
    requires Reachable(s)
    requires t in s.mem.subs && x in s.mem.subs[t] && Terminal(GetStatus(s.mem.tasks, s.disk.repo, t).status)
    ensures x in s.mem.streams
    ensures || HasTerminal(s.mem.streams[x].puts)
            || (s.ctl.worker.Reporting? && s.ctl.worker.id == t && x in Awaiting(s.ctl.worker, s.mem.subs))
  {
    ReachableStreams(s);
  }

  /** Nothing is left to do but to read: the worker is idle over an empty queue, no submit is in flight. */
  ghost predicate Quiet(s: State) {
    s.ctl.worker.Idle? && s.disk.queue == [] && s.ctl.submitters == map[]
  }

  /** In a quiet system every status is terminal whose task can be read and was enqueued. */
  lemma QuietMeansTerminal(s: State, t: TaskId)
    requires Reachable(s) && Quiet(s)
    requires t in s.disk.repo ==> s.disk.repo[t].request.Some? && t !in s.log.failed
    ensures Terminal(GetStatus(s.mem.tasks, s.disk.repo, t).status)
  {
    ReachableWork(s);
    assert !Pending(s.disk.repo, t);
  }

  /** In a drained system every listening subscriber has an unread item, and a terminal one among those put. */
  lemma DrainedLeavesNobodyWaiting(s: State, x: StreamId)
    requires Reachable(s) && Quiet(s) && Listening(s, x, Open)
    requires var t := s.mem.streams[x].task;
      t in s.disk.repo ==> s.disk.repo[t].request.Some? && t !in s.log.failed
    ensures Enabled(s, NextItem(x)) && HasTerminal(s.mem.streams[x].puts)
  {
    var t := s.mem.streams[x].task;
    QuietMeansTerminal(s, t);
    ReachableStreams(s);
    assert t in s.mem.subs && x in s.mem.subs[t];
    var i :| 0 <= i < |s.mem.streams[x].puts| && Terminal(s.mem.streams[x].puts[i].status);
    assert StreamOk(s.mem.streams[x]);
  }

  // ----------------------------------------------------------- persistence

  /** While the manager is up or recovering, no unfinished task is forgotten. */
  lemma UnfinishedTasksAreCovered(s: State, id: TaskId)
    requires Reachable(s) && !s.ctl.phase.Stopped? && Pending(s.disk.repo, id)
    ensures Covered(s.disk.queue, s.ctl, s.log.failed, id)
  {
    ReachableInv(s);
  }

  /** The worker discards an id only if its task is finished, or its stored request cannot be read back. */
  lemma OnlyFinishedIdsAreDropped(s: State, id: TaskId)
    requires Reachable(s) && s.ctl.worker == Held(id) && id !in s.mem.tasks
    ensures id in s.disk.repo && (Terminal(s.disk.repo[id].status) || s.disk.repo[id].request.None?)
  {
    ReachableInv(s);
    assert id in HeldItems(s.ctl.worker);
    assert Pending(s.disk.repo, id) ==> id in s.mem.tasks;
  }

  /** What the worker runs is the request that was persisted at submission. */
  lemma WorkerRunsThePersistedRequest(s: State, id: TaskId)
    requires Reachable(s) && s.ctl.worker == Ready(id)
    ensures id in s.mem.tasks && id in s.disk.repo && s.disk.repo[id].request == Some(s.mem.tasks[id].request)
  {
    ReachableInv(s);
  }

  // ------------------------------------------------------- memory as a cache

  /**
    For a task that was never executed again after finishing, forgetting its envelope changes no
    status answer, unless the task was recovered while the table said "running" and awaits pick-up;
    then exactly the status differs.
  */
  lemma EnvelopeIsAFaithfulCache(s: State, id: TaskId)
    requires Reachable(s) && id in s.mem.tasks && id !in s.log.rerun
    ensures id in s.disk.repo
    ensures
      var cached, stored := GetStatus(s.mem.tasks, s.disk.repo, id), GetStatus(s.mem.tasks - {id}, s.disk.repo, id);
      && (cached == stored <==> !(id in s.log.recovered && s.disk.repo[id].status.Running?))
      && (cached != stored ==> cached == stored.(status := Queued) && stored.status.Running?)
  {
    ReachableInv(s);
    assert ShapeOk(s.disk.repo[id]);
  }

  // ---------------------------------------------------------------- streams

  /** A stream starts with its snapshot, stays on its task, and yields at most one terminal item, last. */
  lemma StreamShape(s: State, x: StreamId)
    requires Reachable(s) && x in s.mem.streams
    ensures var st := s.mem.streams[x];
      && |st.puts| > 0 && st.puts[0] == st.first && st.taken <= |st.puts|
      && (forall i | 0 <= i < |st.puts| :: st.puts[i].id == st.task)
      && (forall i | 0 <= i < st.taken && Terminal(st.puts[i].status) :: i == st.taken - 1 && !st.pc.Open?)
  {
    ReachableInv(s);
    assert StreamOk(s.mem.streams[x]);
  }

  /** If the visible status of its task never moved backwards, a stream never goes backwards. */
  lemma StreamNeverGoesBack(s: State, x: StreamId, i: nat, j: nat)
    requires Reachable(s) && x in s.mem.streams
    requires s.mem.streams[x].task !in s.log.setback && i <= j < |s.mem.streams[x].puts|
    ensures var before, after := s.mem.streams[x].puts[i].status, s.mem.streams[x].puts[j].status;
      && Rank(before) <= Rank(after)
      && (before.Running? ==> !after.Queued?)
      && (before.Completed? || before.Failed? ==> after.Completed? || after.Failed?)
  {
    ReachableInv(s);
  }

  /** `_subscribers` is exactly the relation between tasks and the streams that have not left: no empty set stays. */
  lemma SubscribersAreTheOpenStreams(s: State, t: TaskId)
    requires Reachable(s)
    ensures forall x :: x in SubsOf(s.mem.subs, t)
                        <==> x in s.mem.streams && s.mem.streams[x].task == t && !s.mem.streams[x].pc.Closed?
    ensures t in s.mem.subs <==> SubsOf(s.mem.subs, t) != {}
  {
    ReachableInv(s);
  }
}
