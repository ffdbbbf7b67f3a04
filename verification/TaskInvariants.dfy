/**
  What every action of the task manager keeps. Each invariant speaks of the few fields it
  needs and is proved inductive on its own; `InvInductive` collects them.
*/
module TaskInvariants {
  import opened Optional
  import opened TaskModel
  import opened TaskProtocol

  ghost predicate Distinct<T(!new)>(xs: seq<T>) {
    forall i, j | 0 <= i < j < |xs| :: xs[i] != xs[j]
  }

  // ---------------------------------------------------------------- frames

  /** The actions that change what memory or the table say of a task. */
  predicate TableAction(a: Action) {
    a.Create? || a.Pick? || a.Run? || a.RecoverLoad? || a.Crash?
  }

  lemma TablesUntouched(s: State, a: Action)
    requires Enabled(s, a) && !TableAction(a)
    ensures var s' := Apply(s, a);
      && s'.mem.tasks == s.mem.tasks && s'.disk.repo == s.disk.repo
      && s'.log.recovered == s.log.recovered && s'.log.rerun == s.log.rerun && s'.log.setback == s.log.setback
  {
  }

  /** The actions that change what subscribers have received or where they are. */
  predicate StreamAction(a: Action) {
    a.SubmitPut? || a.WorkerPut? || a.Subscribe? || a.NextItem? || a.Leave? || a.Unregister? || a.Crash?
  }

  lemma StreamsUntouched(s: State, a: Action)
    requires Enabled(s, a) && !StreamAction(a)
    ensures Apply(s, a).mem.subs == s.mem.subs && Apply(s, a).mem.streams == s.mem.streams
  {
  }

  // ------------------------------------------------------------ references

  /** `created` lists the rows of the table, each once. */
  ghost predicate TableListed(disk: Disk) {
    && Distinct(disk.created)
    && (forall id :: id in disk.created <==> id in disk.repo)
  }

  /** Every envelope in memory has a row, and holds the request of that row. */
  ghost predicate MemoryBacked(tasks: map<TaskId, Envelope>, repo: map<TaskId, Record>) {
    forall id | id in tasks :: id in repo && repo[id].request == Some(tasks[id].request)
  }

  ghost predicate AllIn<V>(ids: seq<TaskId>, m: map<TaskId, V>) {
    forall id | id in ids :: id in m
  }

  /** Recovery walks over rows, and the row it is about to enqueue is in memory. */
  ghost predicate RecoveryBacked(phase: Phase, tasks: map<TaskId, Envelope>, repo: map<TaskId, Record>) {
    phase.Recovering? ==>
      && AllIn(phase.rest, repo)
      && (phase.loaded ==> phase.rest != [] && phase.rest[0] in tasks)
  }

  /** Every id the system mentions is persisted. */
  ghost predicate References(s: State) {
    && MemoryBacked(s.mem.tasks, s.disk.repo)
    && AllIn(s.disk.queue, s.disk.repo)
    && AllIn(HeldItems(s.ctl.worker), s.disk.repo)
    && s.ctl.submitters.Keys <= s.mem.tasks.Keys
    && RecoveryBacked(s.ctl.phase, s.mem.tasks, s.disk.repo)
    && s.log.recovered <= s.mem.tasks.Keys
    && s.log.rerun <= s.disk.repo.Keys && s.log.setback <= s.disk.repo.Keys
  }

  /** What the worker's program counter says about the envelope it works on. */
  ghost predicate WorkerAgrees(phase: Phase, w: WorkerPc, tasks: map<TaskId, Envelope>, recovered: set<TaskId>) {
    && (phase.Up? <==> !w.Off?)
    && (w.Announcing? || w.Ready? ==> w.id in tasks && tasks[w.id].status.Running? && w.id !in recovered)
    && (w.Reporting? ==> w.id in tasks && Terminal(tasks[w.id].status) && w.id !in recovered)
  }

  /** `_subscribers` holds exactly the streams that have not left, under their task, and no empty set. */
  ghost predicate Registered(subs: map<TaskId, set<StreamId>>, streams: map<StreamId, Stream>) {
    && (forall t | t in subs :: subs[t] != {})
    && (forall t, x | t in subs && x in subs[t] :: x in streams && streams[x].task == t && !streams[x].pc.Closed?)
    && (forall x | x in streams && !streams[x].pc.Closed? :: x in SubsOf(subs, streams[x].task))
  }

  ghost predicate TupleOk(streams: map<StreamId, Stream>, id: TaskId, pub: PublishPc) {
    pub.Sending? ==> forall x | x in pub.to :: x in streams && streams[x].task == id
  }

  /** A publisher's tuple names existing subscribers of its own task. */
  ghost predicate TuplesOk(streams: map<StreamId, Stream>, w: WorkerPc, submitters: map<TaskId, SubmitPc>) {
    && (Publishes(w) ==> TupleOk(streams, w.id, w.pub))
    && (forall id | id in submitters && submitters[id].Publishing? :: TupleOk(streams, id, submitters[id].pub))
  }

  lemma RecoverableSpec(created: seq<TaskId>, repo: map<TaskId, Record>)
    ensures forall id :: id in Recoverable(created, repo) <==> id in created && id in repo && !Terminal(repo[id].status)
    ensures Distinct(created) ==> Distinct(Recoverable(created, repo))
  {
    if created != [] {
      RecoverableSpec(created[..|created| - 1], repo);
    }
  }

  lemma TableListedInductive(s: State, a: Action)
    requires TableListed(s.disk) && Enabled(s, a)
    ensures TableListed(Apply(s, a).disk)
  {
  }

  lemma MemoryBackedInductive(s: State, a: Action)
    requires MemoryBacked(s.mem.tasks, s.disk.repo) && Enabled(s, a)
    ensures var s' := Apply(s, a); MemoryBacked(s'.mem.tasks, s'.disk.repo)
  {
  }

  lemma WorkBackedInductive(s: State, a: Action)
    requires References(s) && Enabled(s, a)
    ensures var s' := Apply(s, a);
      AllIn(s'.disk.queue, s'.disk.repo) && AllIn(HeldItems(s'.ctl.worker), s'.disk.repo)
  {
  }

  lemma RecoveryBackedInductive(s: State, a: Action)
    requires TableListed(s.disk) && References(s) && Enabled(s, a)
    ensures var s' := Apply(s, a); RecoveryBacked(s'.ctl.phase, s'.mem.tasks, s'.disk.repo)
  {
    if a.Start? { RecoverableSpec(s.disk.created, s.disk.repo); }
  }

  lemma ReferencesInductive(s: State, a: Action)
    requires TableListed(s.disk) && References(s) && Enabled(s, a)
    requires WorkerAgrees(s.ctl.phase, s.ctl.worker, s.mem.tasks, s.log.recovered)
    ensures References(Apply(s, a))
  {
    MemoryBackedInductive(s, a);
    WorkBackedInductive(s, a);
    RecoveryBackedInductive(s, a);
  }

  lemma WorkerAgreesByWorker(s: State, a: Action)
    requires References(s) && Enabled(s, a) && WorkerAction(a)
    requires WorkerAgrees(s.ctl.phase, s.ctl.worker, s.mem.tasks, s.log.recovered)
    ensures var s' := Apply(s, a); WorkerAgrees(s'.ctl.phase, s'.ctl.worker, s'.mem.tasks, s'.log.recovered)
  {
  }

  lemma WorkerAgreesInductive(s: State, a: Action)
    requires References(s) && Enabled(s, a)
    requires WorkerAgrees(s.ctl.phase, s.ctl.worker, s.mem.tasks, s.log.recovered)
    ensures var s' := Apply(s, a); WorkerAgrees(s'.ctl.phase, s'.ctl.worker, s'.mem.tasks, s'.log.recovered)
  {
    if WorkerAction(a) { WorkerAgreesByWorker(s, a); }
  }

  lemma RegisteredByUnregister(s: State, sid: StreamId)
    requires Registered(s.mem.subs, s.mem.streams) && Enabled(s, Unregister(sid))
    ensures var s' := ApplyUnregister(s, sid); Registered(s'.mem.subs, s'.mem.streams)
  {
  }

  lemma RegisteredByStreams(s: State, a: Action)
    requires Registered(s.mem.subs, s.mem.streams) && Enabled(s, a) && StreamAction(a) && !a.Unregister?
    ensures var s' := Apply(s, a); Registered(s'.mem.subs, s'.mem.streams)
  {
  }

  lemma RegisteredInductive(s: State, a: Action)
    requires Registered(s.mem.subs, s.mem.streams) && Enabled(s, a)
    ensures var s' := Apply(s, a); Registered(s'.mem.subs, s'.mem.streams)
  {
    if a.Unregister? {
      RegisteredByUnregister(s, a.sid);
    } else if StreamAction(a) {
      RegisteredByStreams(s, a);
    } else {
      StreamsUntouched(s, a);
    }
  }

  lemma TuplesOkByStreams(s: State, a: Action)
    requires Enabled(s, a) && StreamAction(a) && TuplesOk(s.mem.streams, s.ctl.worker, s.ctl.submitters)
    ensures var s' := Apply(s, a); TuplesOk(s'.mem.streams, s'.ctl.worker, s'.ctl.submitters)
  {
  }

  lemma TuplesOkInductive(s: State, a: Action)
    requires Registered(s.mem.subs, s.mem.streams) && Enabled(s, a)
    requires TuplesOk(s.mem.streams, s.ctl.worker, s.ctl.submitters)
    ensures var s' := Apply(s, a); TuplesOk(s'.mem.streams, s'.ctl.worker, s'.ctl.submitters)
  {
    if StreamAction(a) { TuplesOkByStreams(s, a); } else { StreamsUntouched(s, a); }
  }

  // ------------------------------------------------- the queue, and recovery

  ghost function Ids(fates: seq<Served>): seq<TaskId> {
    seq(|fates|, i requires 0 <= i < |fates| => fates[i].id)
  }

  /**
    First in, first out, nothing lost unaccounted: what went in is what came out, then what is held, then the queue.
  */
  ghost predicate Conserved(queue: seq<TaskId>, w: WorkerPc, log: History) {
    log.enqueued == Ids(log.fates) + HeldItems(w) + queue
  }

  /** An unfinished task whose stored request can be read back. */
  ghost predicate Pending(repo: map<TaskId, Record>, id: TaskId) {
    id in repo && !Terminal(repo[id].status) && repo[id].request.Some?
  }

  /** Someone is going to execute the task, or its enqueue has raised. */
  ghost predicate Covered(queue: seq<TaskId>, ctl: Control, failed: set<TaskId>, id: TaskId) {
    || id in queue
    || id in HeldItems(ctl.worker)
    || (ctl.phase.Recovering? && id in ctl.phase.rest)
    || (id in ctl.submitters && ctl.submitters[id].Created?)
    || id in failed
  }

  ghost predicate AtLeastOnce(disk: Disk, ctl: Control, failed: set<TaskId>) {
    !ctl.phase.Stopped? ==> forall id | Pending(disk.repo, id) :: Covered(disk.queue, ctl, failed, id)
  }

  /** The worker will find an envelope for every unfinished task. */
  ghost predicate Known(repo: map<TaskId, Record>, tasks: map<TaskId, Envelope>, phase: Phase) {
    !phase.Stopped? ==>
      forall id | Pending(repo, id) :: id in tasks || (phase.Recovering? && id in phase.rest)
  }

  ghost predicate RestUnfinished(phase: Phase, repo: map<TaskId, Record>) {
    phase.Recovering? ==> forall id | id in phase.rest && id in repo :: !Terminal(repo[id].status)
  }

  lemma IdsAppend(a: seq<Served>, b: seq<Served>)
    ensures Ids(a + b) == Ids(a) + Ids(b)
  {
  }

  lemma IdsAllLost(xs: seq<TaskId>)
    ensures Ids(AllLost(xs)) == xs
  {
  }

  lemma ConservedByPush(queue: seq<TaskId>, w: WorkerPc, log: History, log': History, more: seq<TaskId>)
    requires Conserved(queue, w, log) && log'.enqueued == log.enqueued + more && log'.fates == log.fates
    ensures Conserved(queue + more, w, log')
  {
    var out := Ids(log.fates) + HeldItems(w);
    assert out + (queue + more) == out + queue + more;
  }

  /** Ids taken from the front of what was waiting become lost. */
  lemma ConservedByLoss(queue: seq<TaskId>, w: WorkerPc, log: History, log': History, lost: seq<TaskId>,
                        left: seq<TaskId>)
    requires Conserved(queue, w, log) && HeldItems(w) + queue == lost + left
    requires log'.enqueued == log.enqueued && log'.fates == log.fates + AllLost(lost)
    ensures Conserved(left, Off, log')
  {
    IdsAllLost(lost);
    IdsAppend(log.fates, AllLost(lost));
    assert Ids(log.fates) + HeldItems(w) + queue == Ids(log.fates) + (HeldItems(w) + queue);
    assert Ids(log.fates) + lost + left == Ids(log.fates) + (lost + left);
    assert Ids(log'.fates) + [] + left == Ids(log'.fates) + left;
  }

  lemma ConservedByWorker(s: State, a: Action)
    requires Conserved(s.disk.queue, s.ctl.worker, s.log) && Enabled(s, a) && WorkerAction(a)
    ensures var s' := Apply(s, a); Conserved(s'.disk.queue, s'.ctl.worker, s'.log)
  {
  }

  lemma ConservedInductive(s: State, a: Action)
    requires WorkerAgrees(s.ctl.phase, s.ctl.worker, s.mem.tasks, s.log.recovered)
    requires Conserved(s.disk.queue, s.ctl.worker, s.log) && Enabled(s, a)
    ensures var s' := Apply(s, a); Conserved(s'.disk.queue, s'.ctl.worker, s'.log)
  {
    var s' := Apply(s, a);
    var queue, w, held := s.disk.queue, s.ctl.worker, HeldItems(s.ctl.worker);
    match a {
      case Stop => ConservedByLoss(queue, w, s.log, s'.log, held, queue);
      case Crash(true) => ConservedByLoss(queue, w, s.log, s'.log, held, queue);
      case Crash(false) => ConservedByLoss(queue, w, s.log, s'.log, held + queue, []);
      case SubmitPush(id) => ConservedByPush(queue, w, s.log, s'.log, [id]);
      case RecoverPush => ConservedByPush(queue, w, s.log, s'.log, [s.ctl.phase.rest[0]]);
      case SubmitPushRaises(id, pushed) => ConservedByPush(queue, w, s.log, s'.log, if pushed then [id] else []);
      case RecoverPushRaises(pushed) =>
        ConservedByPush(queue, w, s.log, s'.log, if pushed then [s.ctl.phase.rest[0]] else []);
      case _ => if WorkerAction(a) { ConservedByWorker(s, a); }
    }
  }

  lemma AtLeastOnceByWorker(s: State, a: Action)
    requires References(s) && Enabled(s, a) && WorkerAction(a)
    requires WorkerAgrees(s.ctl.phase, s.ctl.worker, s.mem.tasks, s.log.recovered)
    requires Known(s.disk.repo, s.mem.tasks, s.ctl.phase) && AtLeastOnce(s.disk, s.ctl, s.log.failed)
    ensures var s' := Apply(s, a); AtLeastOnce(s'.disk, s'.ctl, s'.log.failed)
  {
    var s' := Apply(s, a);
    forall id | !s'.ctl.phase.Stopped? && Pending(s'.disk.repo, id)
      ensures Covered(s'.disk.queue, s'.ctl, s'.log.failed, id)
    {
      if !Pending(s.disk.repo, id) { assert a.Pick? && s.ctl.worker.id == id; }
    }
  }

  lemma AtLeastOnceByRecovery(s: State, a: Action)
    requires TableListed(s.disk) && Enabled(s, a) && RecoveryAction(a)
    requires AtLeastOnce(s.disk, s.ctl, s.log.failed)
    requires WorkerAgrees(s.ctl.phase, s.ctl.worker, s.mem.tasks, s.log.recovered)
    ensures var s' := Apply(s, a); AtLeastOnce(s'.disk, s'.ctl, s'.log.failed)
  {
    if a.Start? { RecoverableSpec(s.disk.created, s.disk.repo); }
  }

  lemma AtLeastOnceInductive(s: State, a: Action)
    requires TableListed(s.disk) && References(s) && Enabled(s, a)
    requires WorkerAgrees(s.ctl.phase, s.ctl.worker, s.mem.tasks, s.log.recovered)
    requires Known(s.disk.repo, s.mem.tasks, s.ctl.phase)
    requires AtLeastOnce(s.disk, s.ctl, s.log.failed)
    ensures var s' := Apply(s, a); AtLeastOnce(s'.disk, s'.ctl, s'.log.failed)
  {
    if WorkerAction(a) {
      AtLeastOnceByWorker(s, a);
    } else if RecoveryAction(a) {
      AtLeastOnceByRecovery(s, a);
    } else {
      forall id | !Apply(s, a).ctl.phase.Stopped? && Pending(Apply(s, a).disk.repo, id)
        ensures Covered(Apply(s, a).disk.queue, Apply(s, a).ctl, Apply(s, a).log.failed, id)
      {
        if !Pending(s.disk.repo, id) { assert a.Create?; }
      }
    }
  }

  lemma KnownByRecovery(s: State, a: Action)
    requires TableListed(s.disk) && References(s) && Enabled(s, a) && RecoveryAction(a)
    requires Known(s.disk.repo, s.mem.tasks, s.ctl.phase)
    ensures var s' := Apply(s, a); Known(s'.disk.repo, s'.mem.tasks, s'.ctl.phase)
  {
    if a.Start? { RecoverableSpec(s.disk.created, s.disk.repo); }
  }

  lemma KnownByTables(s: State, a: Action)
    requires References(s) && Enabled(s, a) && TableAction(a) && !a.RecoverLoad?
    requires Known(s.disk.repo, s.mem.tasks, s.ctl.phase)
    ensures var s' := Apply(s, a); Known(s'.disk.repo, s'.mem.tasks, s'.ctl.phase)
  {
  }

  lemma KnownInductive(s: State, a: Action)
    requires TableListed(s.disk) && References(s) && Enabled(s, a)
    requires Known(s.disk.repo, s.mem.tasks, s.ctl.phase)
    ensures var s' := Apply(s, a); Known(s'.disk.repo, s'.mem.tasks, s'.ctl.phase)
  {
    if RecoveryAction(a) {
      KnownByRecovery(s, a);
    } else if TableAction(a) {
      KnownByTables(s, a);
    } else {
      TablesUntouched(s, a);
    }
  }

  lemma RestUnfinishedInductive(s: State, a: Action)
    requires RestUnfinished(s.ctl.phase, s.disk.repo) && Enabled(s, a)
    requires WorkerAgrees(s.ctl.phase, s.ctl.worker, s.mem.tasks, s.log.recovered)
    ensures var s' := Apply(s, a); RestUnfinished(s'.ctl.phase, s'.disk.repo)
  {
    if a.Start? { RecoverableSpec(s.disk.created, s.disk.repo); }
  }

  // ------------------------------------------------------ memory as a cache

  /** Memory and table agree on the status, but for a recovered task still waiting to be picked up. */
  ghost predicate StatusAgrees(tasks: map<TaskId, Envelope>, repo: map<TaskId, Record>, recovered: set<TaskId>) {
    && (forall id | id in tasks && id in repo ::
          tasks[id].status == repo[id].status || (id in recovered && repo[id].status.Running?))
    && (forall id | id in tasks && id in recovered :: tasks[id].status.Queued?)
  }

  /** Memory and table hold the same result and error. */
  ghost predicate OutcomeAgrees(tasks: map<TaskId, Envelope>, repo: map<TaskId, Record>, rerun: set<TaskId>) {
    forall id | id in tasks && id in repo && id !in rerun ::
      tasks[id].result == repo[id].result && tasks[id].error == repo[id].error
  }

  ghost predicate ShapeOk(r: Record) {
    && (r.status.Completed? <==> r.result.Some?)
    && (r.status.Failed? <==> r.error.Some?)
    && r.traceId == TraceOf(r.result)
  }

  /** A row has a result iff it is completed, an error iff it has failed, and the trace id of its result. */
  ghost predicate Shaped(repo: map<TaskId, Record>, rerun: set<TaskId>) {
    forall id | id in repo && id !in rerun :: ShapeOk(repo[id])
  }

  lemma StatusAgreesByTables(s: State, a: Action)
    requires References(s) && RestUnfinished(s.ctl.phase, s.disk.repo) && Enabled(s, a) && TableAction(a)
    requires WorkerAgrees(s.ctl.phase, s.ctl.worker, s.mem.tasks, s.log.recovered)
    requires StatusAgrees(s.mem.tasks, s.disk.repo, s.log.recovered)
    ensures var s' := Apply(s, a); StatusAgrees(s'.mem.tasks, s'.disk.repo, s'.log.recovered)
  {
  }

  lemma StatusAgreesInductive(s: State, a: Action)
    requires References(s) && RestUnfinished(s.ctl.phase, s.disk.repo) && Enabled(s, a)
    requires WorkerAgrees(s.ctl.phase, s.ctl.worker, s.mem.tasks, s.log.recovered)
    requires StatusAgrees(s.mem.tasks, s.disk.repo, s.log.recovered)
    ensures var s' := Apply(s, a); StatusAgrees(s'.mem.tasks, s'.disk.repo, s'.log.recovered)
  {
    if TableAction(a) { StatusAgreesByTables(s, a); } else { TablesUntouched(s, a); }
  }

  lemma OutcomeAgreesByRun(s: State, o: Outcome)
    requires References(s) && RestUnfinished(s.ctl.phase, s.disk.repo) && Enabled(s, Run(o))
    requires WorkerAgrees(s.ctl.phase, s.ctl.worker, s.mem.tasks, s.log.recovered)
    requires StatusAgrees(s.mem.tasks, s.disk.repo, s.log.recovered)
    requires Shaped(s.disk.repo, s.log.rerun)
    requires OutcomeAgrees(s.mem.tasks, s.disk.repo, s.log.rerun)
    ensures var s' := ApplyRun(s, o); OutcomeAgrees(s'.mem.tasks, s'.disk.repo, s'.log.rerun)
  {
  }

  lemma OutcomeAgreesByTables(s: State, a: Action)
    requires References(s) && RestUnfinished(s.ctl.phase, s.disk.repo) && Enabled(s, a) && TableAction(a) && !a.Run?
    requires WorkerAgrees(s.ctl.phase, s.ctl.worker, s.mem.tasks, s.log.recovered)
    requires StatusAgrees(s.mem.tasks, s.disk.repo, s.log.recovered)
    requires Shaped(s.disk.repo, s.log.rerun)
    requires OutcomeAgrees(s.mem.tasks, s.disk.repo, s.log.rerun)
    ensures var s' := Apply(s, a); OutcomeAgrees(s'.mem.tasks, s'.disk.repo, s'.log.rerun)
  {
  }

  lemma OutcomeAgreesInductive(s: State, a: Action)
    requires References(s) && RestUnfinished(s.ctl.phase, s.disk.repo) && Enabled(s, a)
    requires WorkerAgrees(s.ctl.phase, s.ctl.worker, s.mem.tasks, s.log.recovered)
    requires StatusAgrees(s.mem.tasks, s.disk.repo, s.log.recovered)
    requires Shaped(s.disk.repo, s.log.rerun)
    requires OutcomeAgrees(s.mem.tasks, s.disk.repo, s.log.rerun)
    ensures var s' := Apply(s, a); OutcomeAgrees(s'.mem.tasks, s'.disk.repo, s'.log.rerun)
  {
    if a.Run? {
      OutcomeAgreesByRun(s, a.outcome);
    } else if TableAction(a) {
      OutcomeAgreesByTables(s, a);
    } else {
      TablesUntouched(s, a);
    }
  }

  lemma ShapedByTables(s: State, a: Action)
    requires References(s) && Shaped(s.disk.repo, s.log.rerun) && Enabled(s, a) && TableAction(a)
    requires WorkerAgrees(s.ctl.phase, s.ctl.worker, s.mem.tasks, s.log.recovered)
    requires StatusAgrees(s.mem.tasks, s.disk.repo, s.log.recovered)
    ensures var s' := Apply(s, a); Shaped(s'.disk.repo, s'.log.rerun)
  {
  }

  lemma ShapedInductive(s: State, a: Action)
    requires References(s) && Shaped(s.disk.repo, s.log.rerun) && Enabled(s, a)
    requires WorkerAgrees(s.ctl.phase, s.ctl.worker, s.mem.tasks, s.log.recovered)
    requires StatusAgrees(s.mem.tasks, s.disk.repo, s.log.recovered)
    ensures var s' := Apply(s, a); Shaped(s'.disk.repo, s'.log.rerun)
  {
    if TableAction(a) { ShapedByTables(s, a); } else { TablesUntouched(s, a); }
  }

  // -------------------------------------------------------- status streams

  ghost predicate HasTerminal(puts: seq<Snapshot>) {
    exists i :: 0 <= i < |puts| && Terminal(puts[i].status)
  }

  ghost predicate StreamOk(x: Stream) {
    && |x.puts| > 0 && x.puts[0] == x.first
    && x.taken <= |x.puts|
    && (forall i | 0 <= i < |x.puts| :: x.puts[i].id == x.task)
    && (forall i | 0 <= i < x.taken - 1 :: !Terminal(x.puts[i].status))
    && (x.pc.Open? && x.taken > 0 ==> !Terminal(x.puts[x.taken - 1].status))
  }

  /** A stream begins with the snapshot taken at subscription, and ends at the first terminal item it yields. */
  ghost predicate StreamsOk(streams: map<StreamId, Stream>) {
    forall x | x in streams :: StreamOk(streams[x])
  }

  ghost predicate Ascending(puts: seq<Snapshot>, top: nat) {
    && (forall i, j | 0 <= i < j < |puts| :: Rank(puts[i].status) <= Rank(puts[j].status))
    && (forall i | 0 <= i < |puts| :: Rank(puts[i].status) <= top)
  }

  /** As long as the status of its task never moved backwards, what a stream receives does not either. */
  ghost predicate Monotone(tasks: map<TaskId, Envelope>, repo: map<TaskId, Record>,
                           streams: map<StreamId, Stream>, setback: set<TaskId>)
  {
    forall x | x in streams && streams[x].task !in setback ::
      Ascending(streams[x].puts, Rank(GetStatus(tasks, repo, streams[x].task).status))
  }

  /** Whoever is registered on a finished task has been told, or is about to be told. */
  ghost predicate Delivered(s: State) {
    forall t, x | t in s.mem.subs && x in s.mem.subs[t] && x in s.mem.streams
                  && Terminal(GetStatus(s.mem.tasks, s.disk.repo, t).status) ::
      || HasTerminal(s.mem.streams[x].puts)
      || (s.ctl.worker.Reporting? && s.ctl.worker.id == t && x in Awaiting(s.ctl.worker, s.mem.subs))
  }

  lemma PutAllStreamsOk(streams: map<StreamId, Stream>, id: TaskId, to: set<StreamId>, item: Snapshot)
    requires TupleOk(streams, id, Sending(to)) && StreamsOk(streams) && item.id == id
    ensures StreamsOk(PutAll(streams, to, item))
  {
  }

  lemma StreamsOkByStreams(s: State, a: Action)
    requires TuplesOk(s.mem.streams, s.ctl.worker, s.ctl.submitters)
    requires StreamsOk(s.mem.streams) && Enabled(s, a) && StreamAction(a)
    ensures StreamsOk(Apply(s, a).mem.streams)
  {
    match a {
      case SubmitPut(id) =>
        PutAllStreamsOk(s.mem.streams, id, s.ctl.submitters[id].pub.to, GetStatus(s.mem.tasks, s.disk.repo, id));
      case WorkerPut =>
        var w := s.ctl.worker;
        PutAllStreamsOk(s.mem.streams, w.id, w.pub.to, GetStatus(s.mem.tasks, s.disk.repo, w.id));
      case _ =>
    }
  }

  lemma StreamsOkInductive(s: State, a: Action)
    requires TuplesOk(s.mem.streams, s.ctl.worker, s.ctl.submitters)
    requires StreamsOk(s.mem.streams) && Enabled(s, a)
    ensures StreamsOk(Apply(s, a).mem.streams)
  {
    if StreamAction(a) { StreamsOkByStreams(s, a); } else { StreamsUntouched(s, a); }
  }

  lemma HasTerminalPut(puts: seq<Snapshot>, item: Snapshot)
    ensures HasTerminal(puts) || Terminal(item.status) ==> HasTerminal(puts + [item])
  {
    if HasTerminal(puts) {
      var i :| 0 <= i < |puts| && Terminal(puts[i].status);
      assert (puts + [item])[i] == puts[i];
    } else {
      assert (puts + [item])[|puts|] == item;
    }
  }

  lemma PutAllTerminal(streams: map<StreamId, Stream>, to: set<StreamId>, item: Snapshot)
    ensures forall x | x in streams ::
              HasTerminal(streams[x].puts) || (x in to && Terminal(item.status)) ==>
                  HasTerminal(PutAll(streams, to, item)[x].puts)
  {
    forall x | x in streams { HasTerminalPut(streams[x].puts, item); }
  }

  lemma PutAllMonotone(tasks: map<TaskId, Envelope>, repo: map<TaskId, Record>, streams: map<StreamId, Stream>,
                       setback: set<TaskId>, id: TaskId, to: set<StreamId>)
    requires TupleOk(streams, id, Sending(to))
    requires Monotone(tasks, repo, streams, setback)
    ensures Monotone(tasks, repo, PutAll(streams, to, GetStatus(tasks, repo, id)), setback)
  {
  }

  lemma MonotoneByStreams(s: State, a: Action)
    requires TuplesOk(s.mem.streams, s.ctl.worker, s.ctl.submitters) && Enabled(s, a) && StreamAction(a)
    requires Monotone(s.mem.tasks, s.disk.repo, s.mem.streams, s.log.setback)
    ensures var s' := Apply(s, a); Monotone(s'.mem.tasks, s'.disk.repo, s'.mem.streams, s'.log.setback)
  {
    match a {
      case SubmitPut(id) =>
        PutAllMonotone(s.mem.tasks, s.disk.repo, s.mem.streams, s.log.setback, id, s.ctl.submitters[id].pub.to);
      case WorkerPut =>
        PutAllMonotone(s.mem.tasks, s.disk.repo, s.mem.streams, s.log.setback, s.ctl.worker.id, s.ctl.worker.pub.to);
      case _ =>
    }
  }

  lemma MonotoneByTables(s: State, a: Action)
    requires References(s) && Enabled(s, a) && TableAction(a)
    requires WorkerAgrees(s.ctl.phase, s.ctl.worker, s.mem.tasks, s.log.recovered)
    requires Monotone(s.mem.tasks, s.disk.repo, s.mem.streams, s.log.setback)
    ensures var s' := Apply(s, a); Monotone(s'.mem.tasks, s'.disk.repo, s'.mem.streams, s'.log.setback)
  {
  }

  lemma MonotoneInductive(s: State, a: Action)
    requires References(s) && TuplesOk(s.mem.streams, s.ctl.worker, s.ctl.submitters) && Enabled(s, a)
    requires WorkerAgrees(s.ctl.phase, s.ctl.worker, s.mem.tasks, s.log.recovered)
    requires Monotone(s.mem.tasks, s.disk.repo, s.mem.streams, s.log.setback)
    ensures var s' := Apply(s, a); Monotone(s'.mem.tasks, s'.disk.repo, s'.mem.streams, s'.log.setback)
  {
    if StreamAction(a) {
      MonotoneByStreams(s, a);
    } else if TableAction(a) {
      MonotoneByTables(s, a);
    } else {
      StreamsUntouched(s, a);
      TablesUntouched(s, a);
    }
  }

  lemma DeliveredByPut(s: State, a: Action)
    requires Registered(s.mem.subs, s.mem.streams) && Enabled(s, a) && (a.SubmitPut? || a.WorkerPut?)
    requires TuplesOk(s.mem.streams, s.ctl.worker, s.ctl.submitters)
    requires WorkerAgrees(s.ctl.phase, s.ctl.worker, s.mem.tasks, s.log.recovered)
    requires Delivered(s)
    ensures Delivered(Apply(s, a))
  {
    match a {
      case SubmitPut(id) =>
        PutAllTerminal(s.mem.streams, s.ctl.submitters[id].pub.to, GetStatus(s.mem.tasks, s.disk.repo, id));
      case WorkerPut =>
        PutAllTerminal(s.mem.streams, s.ctl.worker.pub.to, GetStatus(s.mem.tasks, s.disk.repo, s.ctl.worker.id));
    }
  }

  lemma DeliveredBySubscribe(s: State, sid: StreamId, t: TaskId)
    requires Registered(s.mem.subs, s.mem.streams) && Enabled(s, Subscribe(sid, t)) && Delivered(s)
    ensures Delivered(ApplySubscribe(s, sid, t))
  {
    HasTerminalPut([], GetStatus(s.mem.tasks, s.disk.repo, t));
  }

  lemma DeliveredByUnregister(s: State, sid: StreamId)
    requires Registered(s.mem.subs, s.mem.streams) && Enabled(s, Unregister(sid)) && Delivered(s)
    ensures Delivered(ApplyUnregister(s, sid))
  {
  }

  lemma DeliveredByReader(s: State, a: Action)
    requires Registered(s.mem.subs, s.mem.streams) && Enabled(s, a) && (a.NextItem? || a.Leave? || a.Crash?)
    requires Delivered(s)
    ensures Delivered(Apply(s, a))
  {
  }

  lemma DeliveredByStreams(s: State, a: Action)
    requires Registered(s.mem.subs, s.mem.streams) && Enabled(s, a) && StreamAction(a)
    requires TuplesOk(s.mem.streams, s.ctl.worker, s.ctl.submitters)
    requires WorkerAgrees(s.ctl.phase, s.ctl.worker, s.mem.tasks, s.log.recovered)
    requires Delivered(s)
    ensures Delivered(Apply(s, a))
  {
    match a {
      case Subscribe(sid, t) => DeliveredBySubscribe(s, sid, t);
      case Unregister(sid) => DeliveredByUnregister(s, sid);
      case SubmitPut(_) => DeliveredByPut(s, a);
      case WorkerPut => DeliveredByPut(s, a);
      case _ => DeliveredByReader(s, a);
    }
  }

  lemma DeliveredByRun(s: State, o: Outcome)
    requires References(s) && Registered(s.mem.subs, s.mem.streams) && Enabled(s, Run(o))
    requires WorkerAgrees(s.ctl.phase, s.ctl.worker, s.mem.tasks, s.log.recovered)
    requires Delivered(s)
    ensures Delivered(ApplyRun(s, o))
  {
  }

  lemma DeliveredByWorker(s: State, a: Action)
    requires References(s) && Registered(s.mem.subs, s.mem.streams) && Enabled(s, a) && WorkerAction(a)
              && !a.WorkerPut? && !a.Run?
    requires WorkerAgrees(s.ctl.phase, s.ctl.worker, s.mem.tasks, s.log.recovered)
    requires Delivered(s)
    ensures Delivered(Apply(s, a))
  {
  }

  lemma DeliveredByTables(s: State, a: Action)
    requires References(s) && Registered(s.mem.subs, s.mem.streams) && Enabled(s, a) && TableAction(a)
              && !WorkerAction(a)
    requires WorkerAgrees(s.ctl.phase, s.ctl.worker, s.mem.tasks, s.log.recovered)
    requires Delivered(s)
    ensures Delivered(Apply(s, a))
  {
  }

  lemma DeliveredInductive(s: State, a: Action)
    requires References(s) && Registered(s.mem.subs, s.mem.streams) && Enabled(s, a)
    requires TuplesOk(s.mem.streams, s.ctl.worker, s.ctl.submitters)
    requires WorkerAgrees(s.ctl.phase, s.ctl.worker, s.mem.tasks, s.log.recovered)
    requires Delivered(s)
    ensures Delivered(Apply(s, a))
  {
    if StreamAction(a) {
      DeliveredByStreams(s, a);
    } else if a.Run? {
      DeliveredByRun(s, a.outcome);
    } else if WorkerAction(a) {
      DeliveredByWorker(s, a);
    } else if TableAction(a) {
      DeliveredByTables(s, a);
    } else {
      StreamsUntouched(s, a);
      TablesUntouched(s, a);
    }
  }
}
