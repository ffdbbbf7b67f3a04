/**
  The task manager as a transition system. Every coroutine has a program counter; one
  action runs a coroutine from one suspension point to the next, or less. `Apply` is a
  function of the action, so a run is a list of actions and the same run can drive two
  systems. A dequeue that times out or raises changes nothing and has no action.
*/
module TaskProtocol {
  import opened Optional
  import opened TaskModel

  /** `_publish_status`: waiting for the lock, or holding its tuple of subscriber queues. */
  datatype PublishPc = AwaitLock | Sending(to: set<StreamId>)

  datatype WorkerPc =
    | Off                                       // no worker coroutine
    | Idle                                      // in dequeue or in sleep
    | Held(id: TaskId)                          // dequeue has returned id
    | Announcing(id: TaskId, pub: PublishPc)    // "running" stored, being published
    | Ready(id: TaskId)                         // about to call the orchestrator
    | Reporting(id: TaskId, pub: PublishPc)     // terminal status stored, being published

  datatype SubmitPc = Created | Publishing(pub: PublishPc)

  datatype StreamPc = Open | Closing | Closed

  /** A subscriber: everything put into its queue, and how much of it has been yielded. */
  datatype Stream = Stream(task: TaskId, pc: StreamPc, first: Snapshot, puts: seq<Snapshot>, taken: nat)

  datatype Phase =
    | Stopped                                          // process alive, no worker
    | Recovering(rest: seq<TaskId>, loaded: bool)      // start() is in its recovery loop
    | Up

  datatype Fate = Executed | Dropped | Lost
  datatype Served = Served(id: TaskId, fate: Fate)

  /** What survives a crash: the table (rows listed oldest first) and perhaps the backend queue. */
  datatype Disk = Disk(repo: map<TaskId, Record>, created: seq<TaskId>, queue: seq<TaskId>)

  /** The manager's own fields `_tasks` and `_subscribers`, and the subscriber queues. */
  datatype Memory = Memory(tasks: map<TaskId, Envelope>, subs: map<TaskId, set<StreamId>>,
                           streams: map<StreamId, Stream>)

  /** Where every coroutine is. */
  datatype Control = Control(submitters: map<TaskId, SubmitPc>, worker: WorkerPc, phase: Phase)

  /** History; no guard and no other component reads it. */
  datatype History = History(
    enqueued: seq<TaskId>,      // every id ever put into the queue
    fates: seq<Served>,         // what became of every id taken out of it
    failed: set<TaskId>,        // ids whose enqueue raised since the last start
    recovered: set<TaskId>,     // loaded by recovery and not picked up yet
    rerun: set<TaskId>,         // picked up although the table said terminal
    setback: set<TaskId>)       // visible status has moved backwards

  datatype State = State(storage: Storage, disk: Disk, mem: Memory, ctl: Control, log: History)

  datatype Action =
    | Create(id: TaskId, request: Request)
    | SubmitPush(id: TaskId)
    | SubmitPushRaises(id: TaskId, pushed: bool)
    | SubmitTake(id: TaskId)
    | SubmitPut(id: TaskId)
    | Subscribe(sid: StreamId, task: TaskId)
    | NextItem(sid: StreamId)
    | Leave(sid: StreamId)
    | Unregister(sid: StreamId)
    | Dequeue
    | Pick
    | WorkerTake
    | WorkerPut
    | Run(outcome: Outcome)
    | Start
    | RecoverLoad
    | RecoverPush
    | RecoverPushRaises(pushed: bool)
    | BeginServing
    | Stop
    | Crash(queueSurvives: bool)

  /** What the worker coroutine does. */
  predicate WorkerAction(a: Action) {
    a.Dequeue? || a.Pick? || a.WorkerTake? || a.WorkerPut? || a.Run?
  }

  /** What start() and the recovery loop do. */
  predicate RecoveryAction(a: Action) {
    a.Start? || a.RecoverLoad? || a.RecoverPush? || a.RecoverPushRaises? || a.BeginServing?
  }

  function SubsOf(subs: map<TaskId, set<StreamId>>, t: TaskId): set<StreamId> {
    if t in subs then subs[t] else {}
  }

  /** The id the worker has taken out of the queue and not yet executed. */
  function HeldItems(w: WorkerPc): seq<TaskId> {
    match w
    case Held(id) => [id]
    case Announcing(id, _) => [id]
    case Ready(id) => [id]
    case _ => []
  }

  /** The subscribers a terminal publication in progress has still to reach. */
  function Awaiting(w: WorkerPc, subs: map<TaskId, set<StreamId>>): set<StreamId> {
    match w
    case Reporting(id, AwaitLock) => SubsOf(subs, id)
    case Reporting(_, Sending(to)) => to
    case _ => {}
  }

  function AllLost(ids: seq<TaskId>): seq<Served> {
    seq(|ids|, i requires 0 <= i < |ids| => Served(ids[i], Lost))
  }

  function PutAll(streams: map<StreamId, Stream>, to: set<StreamId>, item: Snapshot): map<StreamId, Stream> {
    map x | x in streams :: if x in to then streams[x].(puts := streams[x].puts + [item]) else streams[x]
  }

  /** A uuid4: nothing in the system has mentioned it. */
  predicate Fresh(s: State, id: TaskId) {
    id !in s.disk.repo && forall x | x in s.mem.streams :: s.mem.streams[x].task != id
  }

  predicate Submitting(s: State, id: TaskId) {
    id in s.ctl.submitters
  }

  predicate Listening(s: State, sid: StreamId, pc: StreamPc) {
    sid in s.mem.streams && s.mem.streams[sid].pc == pc
  }

  predicate Publishes(w: WorkerPc) {
    w.Announcing? || w.Reporting?
  }

  /**
    Where a cancellation can reach the worker: in its dequeue (whose item may be on the way) or
    its sleep. The subscriber lock is never held across a suspension and the subscriber queues
    are unbounded, so no await between taking an id and the next dequeue ever suspends.
  */
  predicate Suspended(w: WorkerPc) {
    w.Idle? || w.Held?
  }

  /** Recovery is at its enqueue call (loaded) or before it. */
  predicate Recovers(p: Phase, loaded: bool) {
    p.Recovering? && p.rest != [] && p.loaded == loaded
  }

  predicate Enabled(s: State, a: Action) {
    match a
    case Create(id, _) => Fresh(s, id)
    case SubmitPush(id) => Submitting(s, id) && s.ctl.submitters[id].Created?
    case SubmitPushRaises(id, _) => Submitting(s, id) && s.ctl.submitters[id].Created?
    case SubmitTake(id) => Submitting(s, id) && s.ctl.submitters[id] == Publishing(AwaitLock)
    case SubmitPut(id) => Submitting(s, id) && s.ctl.submitters[id].Publishing? && s.ctl.submitters[id].pub.Sending?
    case Subscribe(sid, _) => sid !in s.mem.streams
    case NextItem(sid) => Listening(s, sid, Open) && s.mem.streams[sid].taken < |s.mem.streams[sid].puts|
    case Leave(sid) => Listening(s, sid, Open)
    case Unregister(sid) => Listening(s, sid, Closing)
    case Dequeue => s.ctl.worker.Idle? && s.disk.queue != []
    case Pick => s.ctl.worker.Held?
    case WorkerTake => Publishes(s.ctl.worker) && s.ctl.worker.pub.AwaitLock?
    case WorkerPut => Publishes(s.ctl.worker) && s.ctl.worker.pub.Sending?
    case Run(_) => s.ctl.worker.Ready?
    case Start => s.ctl.phase.Stopped?
    case RecoverLoad => Recovers(s.ctl.phase, false)
    case RecoverPush => Recovers(s.ctl.phase, true)
    case RecoverPushRaises(_) => Recovers(s.ctl.phase, true)
    case BeginServing => s.ctl.phase.Recovering? && s.ctl.phase.rest == []
    case Stop => s.ctl.phase.Up? && Suspended(s.ctl.worker)
    case Crash(_) => true
  }

  // ------------------------------------------------------------------ submit

  function ApplyCreate(s: State, id: TaskId, request: Request): State {
    s.(disk := s.disk.(repo := s.disk.repo[id := Record(Some(request), Queued, None, None, None)],
                       created := s.disk.created + [id]),
       mem := s.mem.(tasks := s.mem.tasks[id := Envelope(request, Queued, None, None)]),
       ctl := s.ctl.(submitters := s.ctl.submitters[id := Created]))
  }

  function ApplySubmitPush(s: State, id: TaskId): State {
    s.(disk := s.disk.(queue := s.disk.queue + [id]),
       ctl := s.ctl.(submitters := s.ctl.submitters[id := Publishing(AwaitLock)]),
       log := s.log.(enqueued := s.log.enqueued + [id]))
  }

  /** The backend raised; whether it had stored the item is unknown to the caller. */
  function ApplySubmitPushRaises(s: State, id: TaskId, pushed: bool): State {
    var stored := if pushed then [id] else [];
    s.(disk := s.disk.(queue := s.disk.queue + stored),
       ctl := s.ctl.(submitters := s.ctl.submitters - {id}),
       log := s.log.(enqueued := s.log.enqueued + stored, failed := s.log.failed + {id}))
  }

  function ApplySubmitTake(s: State, id: TaskId): State {
    var to := SubsOf(s.mem.subs, id);
    s.(ctl := s.ctl.(submitters := if to == {} then s.ctl.submitters - {id}
                                   else s.ctl.submitters[id := Publishing(Sending(to))]))
  }

  function ApplySubmitPut(s: State, id: TaskId): State
    requires Enabled(s, SubmitPut(id))
  {
    var item := GetStatus(s.mem.tasks, s.disk.repo, id);
    s.(mem := s.mem.(streams := PutAll(s.mem.streams, s.ctl.submitters[id].pub.to, item)),
       ctl := s.ctl.(submitters := s.ctl.submitters - {id}))
  }

  // ------------------------------------------------------------- subscribers

  function ApplySubscribe(s: State, sid: StreamId, t: TaskId): State {
    var first := GetStatus(s.mem.tasks, s.disk.repo, t);
    s.(mem := s.mem.(subs := s.mem.subs[t := SubsOf(s.mem.subs, t) + {sid}],
                     streams := s.mem.streams[sid := Stream(t, Open, first, [first], 0)]))
  }

  function ApplyNextItem(s: State, sid: StreamId): State
    requires Enabled(s, NextItem(sid))
  {
    var x := s.mem.streams[sid];
    var pc := if Terminal(x.puts[x.taken].status) then Closing else Open;
    s.(mem := s.mem.(streams := s.mem.streams[sid := x.(taken := x.taken + 1, pc := pc)]))
  }

  function ApplyLeave(s: State, sid: StreamId): State
    requires Enabled(s, Leave(sid))
  {
    s.(mem := s.mem.(streams := s.mem.streams[sid := s.mem.streams[sid].(pc := Closing)]))
  }

  function ApplyUnregister(s: State, sid: StreamId): State
    requires Enabled(s, Unregister(sid))
  {
    var t := s.mem.streams[sid].task;
    var left := SubsOf(s.mem.subs, t) - {sid};
    s.(mem := s.mem.(streams := s.mem.streams[sid := s.mem.streams[sid].(pc := Closed)],
                     subs := if t !in s.mem.subs then s.mem.subs
                             else if left == {} then s.mem.subs - {t}
                             else s.mem.subs[t := left]))
  }

  // ------------------------------------------------------------------ worker

  function ApplyDequeue(s: State): State
    requires Enabled(s, Dequeue)
  {
    s.(disk := s.disk.(queue := s.disk.queue[1..]), ctl := s.ctl.(worker := Held(s.disk.queue[0])))
  }

  function ApplyPick(s: State): State
    requires Enabled(s, Pick)
  {
    var id := s.ctl.worker.id;
    if id !in s.mem.tasks then
      s.(ctl := s.ctl.(worker := Idle), log := s.log.(fates := s.log.fates + [Served(id, Dropped)]))
    else
      var again := id in s.disk.repo && Terminal(s.disk.repo[id].status);
      s.(disk := s.disk.(repo := UpdatedTable(s.storage, s.disk.repo, id, Running, None, None, None)),
         mem := s.mem.(tasks := s.mem.tasks[id := s.mem.tasks[id].(status := Running)]),
         ctl := s.ctl.(worker := Announcing(id, AwaitLock)),
         log := s.log.(recovered := s.log.recovered - {id},
                       rerun := if again then s.log.rerun + {id} else s.log.rerun,
                       setback := if Terminal(s.mem.tasks[id].status) then s.log.setback + {id} else s.log.setback))
  }

  function Published(w: WorkerPc): WorkerPc
    requires Publishes(w)
  {
    if w.Announcing? then Ready(w.id) else Idle
  }

  function ApplyWorkerTake(s: State): State
    requires Enabled(s, WorkerTake)
  {
    var to := SubsOf(s.mem.subs, s.ctl.worker.id);
    s.(ctl := s.ctl.(worker := if to == {} then Published(s.ctl.worker) else s.ctl.worker.(pub := Sending(to))))
  }

  function ApplyWorkerPut(s: State): State
    requires Enabled(s, WorkerPut)
  {
    var item := GetStatus(s.mem.tasks, s.disk.repo, s.ctl.worker.id);
    s.(mem := s.mem.(streams := PutAll(s.mem.streams, s.ctl.worker.pub.to, item)),
       ctl := s.ctl.(worker := Published(s.ctl.worker)))
  }

  function FinishedEnvelope(e: Envelope, outcome: Outcome): Envelope {
    match outcome
    case Returned(r) => e.(status := Completed, result := Some(r))
    case Raised(m) => e.(status := Failed, error := Some(m))
  }

  function FinishedTable(storage: Storage, repo: map<TaskId, Record>, id: TaskId,
                         outcome: Outcome): map<TaskId, Record>
  {
    match outcome
    case Returned(r) => UpdatedTable(storage, repo, id, Completed, Some(r.traceId), Some(r), None)
    case Raised(m) => UpdatedTable(storage, repo, id, Failed, None, None, Some(m))
  }

  lemma FinishedHolds(storage: Storage, tasks: map<TaskId, Envelope>, repo: map<TaskId, Record>, id: TaskId, o: Outcome)
    ensures id in tasks ==> EnvelopeHolds(FinishedEnvelope(tasks[id], o), o)
    ensures id in tasks ==> FinishedEnvelope(tasks[id], o).request == tasks[id].request
    ensures id in repo ==>
              var done := FinishedTable(storage, repo, id, o); id in done && RowHolds(done[id], o)
    ensures forall x | x in repo && x != id ::
              x in FinishedTable(storage, repo, id, o) && FinishedTable(storage, repo, id, o)[x] == repo[x]
  {
  }

  function ApplyRun(s: State, outcome: Outcome): State
    requires Enabled(s, Run(outcome))
  {
    var id := s.ctl.worker.id;
    var tasks := s.mem.tasks;
    s.(disk := s.disk.(repo := FinishedTable(s.storage, s.disk.repo, id, outcome)),
       mem := s.mem.(tasks := if id in tasks then tasks[id := FinishedEnvelope(tasks[id], outcome)] else tasks),
       ctl := s.ctl.(worker := Reporting(id, AwaitLock)),
       log := s.log.(fates := s.log.fates + [Served(id, Executed)]))
  }

  // -------------------------------------------------- start, recovery, stop

  function ApplyStart(s: State): State {
    s.(ctl := s.ctl.(phase := Recovering(Recoverable(s.disk.created, s.disk.repo), false)),
       log := s.log.(failed := {}))
  }

  /** A row whose request does not parse is skipped; any other gets a fresh envelope. */
  function ApplyRecoverLoad(s: State): State
    requires Enabled(s, RecoverLoad)
  {
    var id := s.ctl.phase.rest[0];
    if id !in s.disk.repo || s.disk.repo[id].request.None? then
      s.(ctl := s.ctl.(phase := Recovering(s.ctl.phase.rest[1..], false)))
    else
      var back := Rank(GetStatus(s.mem.tasks, s.disk.repo, id).status) > Rank(Queued);
      s.(mem := s.mem.(tasks := s.mem.tasks[id := Envelope(s.disk.repo[id].request.value, Queued, None, None)]),
         ctl := s.ctl.(phase := Recovering(s.ctl.phase.rest, true)),
         log := s.log.(recovered := s.log.recovered + {id},
                       setback := if back then s.log.setback + {id} else s.log.setback))
  }

  function ApplyRecoverPush(s: State): State
    requires Enabled(s, RecoverPush)
  {
    var id := s.ctl.phase.rest[0];
    s.(disk := s.disk.(queue := s.disk.queue + [id]),
       ctl := s.ctl.(phase := Recovering(s.ctl.phase.rest[1..], false)),
       log := s.log.(enqueued := s.log.enqueued + [id]))
  }

  function ApplyRecoverPushRaises(s: State, pushed: bool): State
    requires Enabled(s, RecoverPushRaises(pushed))
  {
    var id := s.ctl.phase.rest[0];
    var stored := if pushed then [id] else [];
    s.(disk := s.disk.(queue := s.disk.queue + stored),
       ctl := s.ctl.(phase := Recovering(s.ctl.phase.rest[1..], false)),
       log := s.log.(enqueued := s.log.enqueued + stored, failed := s.log.failed + {id}))
  }

  function ApplyBeginServing(s: State): State {
    s.(ctl := s.ctl.(phase := Up, worker := Idle))
  }

  /** `stop` cancels the worker where it is suspended; an item on its way out of the queue is lost. */
  function ApplyStop(s: State): State {
    s.(ctl := s.ctl.(phase := Stopped, worker := Off),
       log := s.log.(fates := s.log.fates + AllLost(HeldItems(s.ctl.worker))))
  }

  /** The process dies and is started again: only the table, and perhaps the queue, survive. */
  function ApplyCrash(s: State, queueSurvives: bool): State {
    var lost := HeldItems(s.ctl.worker) + if queueSurvives then [] else s.disk.queue;
    s.(disk := s.disk.(queue := if queueSurvives then s.disk.queue else []),
       mem := Memory(map[], map[], map[]),
       ctl := Control(map[], Off, Stopped),
       log := s.log.(fates := s.log.fates + AllLost(lost), recovered := {}, setback := {}))
  }

  function Apply(s: State, a: Action): State
    requires Enabled(s, a)
  {
    match a
    case Create(id, request) => ApplyCreate(s, id, request)
    case SubmitPush(id) => ApplySubmitPush(s, id)
    case SubmitPushRaises(id, pushed) => ApplySubmitPushRaises(s, id, pushed)
    case SubmitTake(id) => ApplySubmitTake(s, id)
    case SubmitPut(id) => ApplySubmitPut(s, id)
    case Subscribe(sid, t) => ApplySubscribe(s, sid, t)
    case NextItem(sid) => ApplyNextItem(s, sid)
    case Leave(sid) => ApplyLeave(s, sid)
    case Unregister(sid) => ApplyUnregister(s, sid)
    case Dequeue => ApplyDequeue(s)
    case Pick => ApplyPick(s)
    case WorkerTake => ApplyWorkerTake(s)
    case WorkerPut => ApplyWorkerPut(s)
    case Run(outcome) => ApplyRun(s, outcome)
    case Start => ApplyStart(s)
    case RecoverLoad => ApplyRecoverLoad(s)
    case RecoverPush => ApplyRecoverPush(s)
    case RecoverPushRaises(pushed) => ApplyRecoverPushRaises(s, pushed)
    case BeginServing => ApplyBeginServing(s)
    case Stop => ApplyStop(s)
    case Crash(survives) => ApplyCrash(s, survives)
  }

  /** A run is a list of actions, each enabled when its turn comes. */
  ghost predicate Valid(s: State, run: seq<Action>)
    decreases |run|
  {
    run == [] || (Enabled(s, run[0]) && Valid(Apply(s, run[0]), run[1..]))
  }

  ghost function After(s: State, run: seq<Action>): State
    requires Valid(s, run)
    decreases |run|
  {
    if run == [] then s else After(Apply(s, run[0]), run[1..])
  }

  lemma {:induction false} RunsCompose(s: State, a: seq<Action>, b: seq<Action>)
    requires Valid(s, a) && Valid(After(s, a), b)
    ensures Valid(s, a + b) && After(s, a + b) == After(After(s, a), b)
    decreases |a|
  {
    if a == [] {
      assert a + b == b;
    } else {
      RunsCompose(Apply(s, a[0]), a[1..], b);
      assert (a + b)[0] == a[0] && (a + b)[1..] == a[1..] + b;
    }
  }

  lemma OneStep(s: State, a: Action)
    requires Enabled(s, a)
    ensures Valid(s, [a]) && After(s, [a]) == Apply(s, a)
  {
    assert [a][1..] == [];
    assert Valid(Apply(s, a), []);
  }

  lemma TwoSteps(s: State, a: Action, b: Action)
    requires Enabled(s, a) && Enabled(Apply(s, a), b)
    ensures Valid(s, [a, b]) && After(s, [a, b]) == Apply(Apply(s, a), b)
  {
    OneStep(s, a);
    OneStep(Apply(s, a), b);
    RunsCompose(s, [a], [b]);
    assert [a] + [b] == [a, b];
  }
}
