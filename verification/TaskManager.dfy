/**
  The task manager as the object it is: every method runs one coroutine from a suspension
  point to the next and does to the object's state exactly what its action does in
  TaskProtocol. The constructor makes an initial state, and `StaysReachable` carries
  reachability over each such step, so what is proved of reachable states holds of the object.
  Where the coroutines are (`ctl`) and what has happened (`log`) are ghost.
*/
module TaskManager {
  import opened Optional
  import opened TaskModel
  import opened TaskProtocol
  import opened TaskStore
  import Invariants = TaskInvariants
  import Theorems = TaskTheorems
  import Replay = TaskReplay
  import opened TaskAnswers

  // ------------------------------------------- what whole coroutine turns do

  /** `_tasks` after one turn of the worker loop on this id. */
  function TurnMemory(memory: map<TaskId, Envelope>, id: TaskId, run: Request -> Outcome): map<TaskId, Envelope> {
    if id in memory then memory[id := FinishedEnvelope(memory[id], run(memory[id].request))] else memory
  }

  /** The table after it: marked running, then finished. */
  function TurnTable(storage: Storage, memory: map<TaskId, Envelope>, table: map<TaskId, Record>, id: TaskId,
                     run: Request -> Outcome): map<TaskId, Record>
  {
    if id in memory then
      FinishedTable(storage, UpdatedTable(storage, table, id, Running, None, None, None), id, run(memory[id].request))
    else table
  }

  /** Marking a known task running and then finishing it is the turn. */
  lemma TurnOfKnown(storage: Storage, memory: map<TaskId, Envelope>, table: map<TaskId, Record>, id: TaskId,
                    run: Request -> Outcome)
    requires id in memory
    ensures var marked, o := memory[id := memory[id].(status := Running)], run(memory[id].request);
      && TurnMemory(memory, id, run) == marked[id := FinishedEnvelope(marked[id], o)]
      && TurnTable(storage, memory, table, id, run)
         == FinishedTable(storage, UpdatedTable(storage, table, id, Running, None, None, None), id, o)
  {
  }

  /** After a turn on each of these ids. */
  function DrainedMemory(memory: map<TaskId, Envelope>, ids: seq<TaskId>,
                         run: Request -> Outcome): map<TaskId, Envelope>
  {
    if ids == [] then memory
    else TurnMemory(DrainedMemory(memory, ids[..|ids| - 1], run), ids[|ids| - 1], run)
  }

  function DrainedTable(storage: Storage, memory: map<TaskId, Envelope>, table: map<TaskId, Record>, ids: seq<TaskId>,
                        run: Request -> Outcome): map<TaskId, Record>
  {
    if ids == [] then table
    else
      var init := ids[..|ids| - 1];
      TurnTable(storage, DrainedMemory(memory, init, run), DrainedTable(storage, memory, table, init, run),
                ids[|ids| - 1], run)
  }

  lemma NextTurn(storage: Storage, memory: map<TaskId, Envelope>, table: map<TaskId, Record>, served: seq<Served>,
                 all: seq<TaskId>, n: nat, run: Request -> Outcome, known: set<TaskId>)
    requires n < |all|
    ensures all[n..][0] == all[n] && all[n..][1..] == all[n + 1..]
    ensures DrainedMemory(memory, all[..n + 1], run) == TurnMemory(DrainedMemory(memory, all[..n], run), all[n], run)
    ensures DrainedTable(storage, memory, table, all[..n + 1], run)
         == TurnTable(storage, DrainedMemory(memory, all[..n], run),
             DrainedTable(storage, memory, table, all[..n], run),
                      all[n], run)
    ensures served + Replay.FatesOf(all[..n + 1], known)
         == served + Replay.FatesOf(all[..n], known) + [Replay.FateOf(all[n], known)]
  {
    assert all[..n + 1][..n] == all[..n] && all[..n + 1][n] == all[n];
    Replay.NextFates(all, n, known);
  }

  /** Every known id that had a turn holds what the orchestrator made of its request, in memory and in the table. */
  lemma {:induction false} DrainedHolds(storage: Storage, memory: map<TaskId, Envelope>, table: map<TaskId, Record>,
                                        ids: seq<TaskId>, run: Request -> Outcome)
    ensures var m, t := DrainedMemory(memory, ids, run), DrainedTable(storage, memory, table, ids, run);
      && m.Keys == memory.Keys && t.Keys == table.Keys
      && (forall id | id in memory :: m[id].request == memory[id].request)
      && (forall id | id in ids && id in memory ::
            && EnvelopeHolds(m[id], run(memory[id].request))
            && (id in table ==> RowHolds(t[id], run(memory[id].request))))
  {
    if ids != [] {
      var init, last := ids[..|ids| - 1], ids[|ids| - 1];
      DrainedHolds(storage, memory, table, init, run);
      var m, t := DrainedMemory(memory, init, run), DrainedTable(storage, memory, table, init, run);
      assert forall id :: id in ids <==> id in init || id == last;
      if last in memory { TurnHolds(storage, m, t, last, run); }
    }
  }

  lemma TurnHolds(storage: Storage, memory: map<TaskId, Envelope>, table: map<TaskId, Record>, id: TaskId,
                  run: Request -> Outcome)
    requires id in memory
    ensures var m, t := TurnMemory(memory, id, run), TurnTable(storage, memory, table, id, run);
      && m.Keys == memory.Keys && t.Keys == table.Keys
      && m[id].request == memory[id].request && EnvelopeHolds(m[id], run(memory[id].request))
      && (id in table ==> RowHolds(t[id], run(memory[id].request)))
      && (forall x | x in memory && x != id :: m[x] == memory[x])
      && (forall x | x in table && x != id :: t[x] == table[x])
  {
    var marked := UpdatedTable(storage, table, id, Running, None, None, None);
    FinishedHolds(storage, memory, marked, id, run(memory[id].request));
  }

  /** How the enqueue of this id ends during recovery. */
  function FaultOf(faults: map<TaskId, Fault>, id: TaskId): Fault {
    if id in faults then faults[id] else NoFault
  }

  predicate Readable(table: map<TaskId, Record>, id: TaskId) {
    id in table && table[id].request.Some?
  }

  /** What recovery of one row appends to the queue. */
  function EnqueuedOne(id: TaskId, fault: Fault, table: map<TaskId, Record>): seq<TaskId> {
    if Readable(table, id) && !fault.RaisesBefore? then [id] else []
  }

  /** The id if its enqueue raised. */
  function FailedOne(id: TaskId, fault: Fault, table: map<TaskId, Record>): set<TaskId> {
    if Readable(table, id) && !fault.NoFault? then {id} else {}
  }

  /** `_tasks` after the row has been loaded. */
  function LoadedOne(memory: map<TaskId, Envelope>, id: TaskId, table: map<TaskId, Record>): map<TaskId, Envelope> {
    if Readable(table, id) then memory[id := Envelope(table[id].request.value, Queued, None, None)] else memory
  }

  /** The same for a list of rows. */
  function Enqueued(ids: seq<TaskId>, faults: map<TaskId, Fault>, table: map<TaskId, Record>): seq<TaskId> {
    if ids == [] then []
    else
      var id := ids[|ids| - 1];
      Enqueued(ids[..|ids| - 1], faults, table) + EnqueuedOne(id, FaultOf(faults, id), table)
  }

  function Failing(ids: seq<TaskId>, faults: map<TaskId, Fault>, table: map<TaskId, Record>): set<TaskId> {
    if ids == [] then {}
    else
      var id := ids[|ids| - 1];
      Failing(ids[..|ids| - 1], faults, table) + FailedOne(id, FaultOf(faults, id), table)
  }

  function Loaded(memory: map<TaskId, Envelope>, ids: seq<TaskId>, table: map<TaskId, Record>): map<TaskId, Envelope> {
    if ids == [] then memory
    else LoadedOne(Loaded(memory, ids[..|ids| - 1], table), ids[|ids| - 1], table)
  }

  lemma NextRow(memory: map<TaskId, Envelope>, queue: seq<TaskId>, failed: set<TaskId>, ids: seq<TaskId>, i: nat,
                faults: map<TaskId, Fault>, table: map<TaskId, Record>)
    requires i < |ids|
    ensures ids[i..][0] == ids[i] && ids[i..][1..] == ids[i + 1..]
    ensures queue + Enqueued(ids[..i + 1], faults, table)
         == queue + Enqueued(ids[..i], faults, table) + EnqueuedOne(ids[i], FaultOf(faults, ids[i]), table)
    ensures failed + Failing(ids[..i + 1], faults, table)
         == failed + Failing(ids[..i], faults, table) + FailedOne(ids[i], FaultOf(faults, ids[i]), table)
    ensures Loaded(memory, ids[..i + 1], table) == LoadedOne(Loaded(memory, ids[..i], table), ids[i], table)
  {
    assert ids[..i + 1][..i] == ids[..i] && ids[..i + 1][i] == ids[i];
  }

  lemma {:induction false} EnqueuedKeepsOrder(ids: seq<TaskId>, faults: map<TaskId, Fault>, table: map<TaskId, Record>)
    ensures KeepsOrder(Enqueued(ids, faults, table), ids)
  {
    if ids != [] {
      var init, id := ids[..|ids| - 1], ids[|ids| - 1];
      EnqueuedKeepsOrder(init, faults, table);
      KeepsOrderNext(Enqueued(init, faults, table), init, id, EnqueuedOne(id, FaultOf(faults, id), table));
      assert init + [id] == ids;
    }
  }

  /** What recovery puts into the queue stands there oldest first. */
  lemma RecoveredOldestFirst(created: seq<TaskId>, faults: map<TaskId, Fault>, table: map<TaskId, Record>)
    ensures KeepsOrder(Enqueued(Recoverable(created, table), faults, table), created)
  {
    RecoverableOldestFirst(created, table);
    EnqueuedKeepsOrder(Recoverable(created, table), faults, table);
    KeepsOrderTransitive(Enqueued(Recoverable(created, table), faults, table), Recoverable(created, table), created);
  }

  /** Without faults recovery enqueues every readable task. */
  lemma {:induction false} EnqueuedWithoutFaults(ids: seq<TaskId>, table: map<TaskId, Record>)
    ensures Enqueued(ids, map[], table) == Replay.PendingOf(ids, table)
  {
    if ids != [] {
      var n := |ids| - 1;
      EnqueuedWithoutFaults(ids[..n], table);
      Replay.PendingOfConcat(ids[..n], ids[n..], table);
      assert ids[..n] + ids[n..] == ids && ids[n..] == [ids[n]];
    }
  }

  // --------------------------------------------------------------- the classes

  /** An entry of `_tasks`; the worker keeps a reference to it while it runs the task. */
  class TaskEnvelope {
    const taskId: TaskId
    const request: Request
    var status: Status
    var result: Option<Response>
    var error: Option<string>

    constructor (taskId: TaskId, request: Request)
      ensures this.taskId == taskId && View() == Envelope(request, Queued, None, None)
    {
      this.taskId, this.request := taskId, request;
      status, result, error := Queued, None, None;
    }

    function View(): Envelope
      reads this
    {
      Envelope(request, status, result, error)
    }

    method Update(status: Status, result: Option<Response>, error: Option<string>)
      modifies this
      ensures View() == Envelope(request, status, Merge(old(this.result), result), Merge(old(this.error), error))
    {
      this.status := status;
      if result.Some? { this.result := result; }
      if error.Some? { this.error := error; }
    }
  }

  class TaskManager {
    const repo: TaskRepository
    const queue: QueueBackend
    const orchestrator: Request -> Outcome
    var tasks: map<TaskId, TaskEnvelope>
    var subscribers: map<TaskId, set<StreamId>>
    var streams: map<StreamId, Stream>
    var stopped: bool       // `_stopped`
    var workerTask: bool    // whether `_worker_task` is set
    ghost var ctl: Control
    ghost var log: History

    ghost var memory: map<TaskId, Envelope>  // the contents of the envelopes

    /** Every envelope sits under its own id, and `memory` is what the envelopes hold. */
    ghost predicate EnvelopesValid()
      reads this`tasks, this`memory, tasks.Values
    {
      && memory.Keys == tasks.Keys
      && (forall id | id in tasks :: var e := tasks[id];
            e.taskId == id && memory[id] == Envelope(e.request, e.status, e.result, e.error))
    }

    /** The object's fields agree with each other and with the worker's program counter. */
    ghost predicate Valid()
      reads this`tasks, this`memory, this`stopped, this`workerTask, this`ctl, tasks.Values
      reads repo`rows, repo`table, repo.rows.Values
    {
      && repo.Valid() && EnvelopesValid()
      && (workerTask <==> ctl.phase.Up?) && (workerTask ==> !stopped)
    }

    /** The protocol state this object is in. */
    ghost function Abs(): State
      reads this, repo, queue
    {
      State(repo.storage, Disk(repo.table, repo.created, queue.items), Memory(memory, subscribers, streams), ctl, log)
    }

    /** A method that takes a step of the protocol keeps the object in a reachable state. */
    twostate lemma StaysReachable(a: Action)
      requires Theorems.Reachable(old(Abs())) && Enabled(old(Abs()), a) && Abs() == Apply(old(Abs()), a)
      ensures Theorems.Reachable(Abs())
    {
      Theorems.ReachableStep(old(Abs()), a);
    }

    /** Envelopes and rows are only ever replaced by new ones. */
    twostate predicate Grown()
      reads this, repo
    {
      fresh(tasks.Values - old(tasks.Values)) && fresh(repo.rows.Values - old(repo.rows.Values))
    }

    /** On any well-formed table, and any queue of its ids. */
    constructor (repo: TaskRepository, queue: QueueBackend, orchestrator: Request -> Outcome)
      requires repo.Valid()
      requires Invariants.TableListed(Disk(repo.table, repo.created, queue.items))
      requires Invariants.AllIn(queue.items, repo.table) && Invariants.Shaped(repo.table, {})
      ensures Valid() && this.repo == repo && this.queue == queue && this.orchestrator == orchestrator
      ensures Theorems.Init(Abs()) && Theorems.Reachable(Abs())
    {
      this.repo, this.queue, this.orchestrator := repo, queue, orchestrator;
      tasks, memory, subscribers, streams := map[], map[], map[], map[];
      stopped, workerTask := false, false;
      ctl := Control(map[], Off, Stopped);
      log := History(queue.items, [], {}, {}, {}, {});
      new;
      Theorems.InitReachable(Abs());
    }

    // ---------------------------------------------------------------- status

    method GetStatus(id: TaskId) returns (snapshot: Snapshot)
      requires Valid()
      ensures snapshot == TaskModel.GetStatus(memory, repo.table, id)
    {
      if id in tasks {
        var task := tasks[id];
        var traceId := if task.result.Some? then Some(task.result.value.traceId) else None;
        return Snapshot(id, task.status, traceId, task.result, task.error);
      }
      var persistent := repo.Get(id);
      if persistent == None {
        return Snapshot(id, Failed, None, None, Some("task_not_found"));
      }
      var row := persistent.value;
      return Snapshot(id, row.status, row.traceId, row.result, row.error);
    }

    /** Putting one snapshot into every queue of a tuple. */
    method PutIntoAll(to: set<StreamId>, item: Snapshot)
      modifies this`streams
      ensures streams == PutAll(old(streams), to, item)
    {
      var rest := to;
      while rest != {}
        invariant rest <= to
        invariant streams == PutAll(old(streams), to - rest, item)
        decreases rest
      {
        var x :| x in rest;
        if x in streams {
          streams := streams[x := streams[x].(puts := streams[x].puts + [item])];
        }
        rest := rest - {x};
      }
      assert to - rest == to;
    }

    // ---------------------------------------------------------------- submit

    method NewEnvelope(id: TaskId, request: Request)
      requires EnvelopesValid()
      modifies this`tasks, this`memory
      ensures EnvelopesValid() && fresh(tasks.Values - old(tasks.Values)) && tasks.Keys == old(tasks.Keys) + {id}
      ensures memory == old(memory)[id := Envelope(request, Queued, None, None)]
    {
      var envelope := new TaskEnvelope(id, request);
      tasks, memory := tasks[id := envelope], memory[id := envelope.View()];
    }

    /** Memory first, then the table, so that an unfinished submission survives the process. */
    method StoreNew(id: TaskId, request: Request)
      requires Valid() && id !in repo.rows && id !in tasks
      modifies this`tasks, this`memory, repo
      ensures Valid() && Grown()
      ensures memory == old(memory)[id := Envelope(request, Queued, None, None)]
      ensures repo.table == old(repo.table)[id := Record(Some(request), Queued, None, None, None)]
      ensures repo.created == old(repo.created) + [id]
    {
      NewEnvelope(id, request);
      repo.Create(id, request);
    }

    method SubmitCreate(id: TaskId, request: Request)
      requires Valid() && Fresh(Abs(), id) && id !in tasks
      modifies this, repo
      ensures Valid() && Grown() && Abs() == ApplyCreate(old(Abs()), id, request)
    {
      StoreNew(id, request);
      ctl := ctl.(submitters := ctl.submitters[id := Created]);
    }

    method SubmitEnqueue(id: TaskId, fault: Fault) returns (ok: bool)
      requires Valid() && id in ctl.submitters && ctl.submitters[id].Created?
      modifies this, queue
      ensures Valid() && Grown() && ok == fault.NoFault?
      ensures Abs() == if ok then ApplySubmitPush(old(Abs()), id)
                else ApplySubmitPushRaises(old(Abs()), id, fault.RaisesAfter?)
    {
      ok := queue.Enqueue(id, fault);
      if ok {
        ctl := ctl.(submitters := ctl.submitters[id := Publishing(AwaitLock)]);
        log := log.(enqueued := log.enqueued + [id]);
      } else {
        ctl := ctl.(submitters := ctl.submitters - {id});
        log := log.(enqueued := log.enqueued + if fault.RaisesAfter? then [id] else [], failed := log.failed + {id});
      }
    }

    method SubmitTakeTuple(id: TaskId) returns (to: set<StreamId>)
      requires Valid() && Enabled(Abs(), SubmitTake(id))
      modifies this`ctl
      ensures Valid() && to == SubsOf(subscribers, id) && Abs() == ApplySubmitTake(old(Abs()), id)
    {
      to := if id in subscribers then subscribers[id] else {};
      ctl := ctl.(submitters := if to == {} then ctl.submitters - {id}
          else ctl.submitters[id := Publishing(Sending(to))]);
    }

    method SubmitPublish(id: TaskId, to: set<StreamId>)
      requires Valid() && Enabled(Abs(), SubmitPut(id)) && to == ctl.submitters[id].pub.to
      modifies this`streams, this`ctl
      ensures Valid() && Abs() == ApplySubmitPut(old(Abs()), id)
    {
      var snapshot := GetStatus(id);
      PutIntoAll(to, snapshot);
      ctl := ctl.(submitters := ctl.submitters - {id});
    }

    // ----------------------------------------------------------- subscribers

    method SubscribeStatus(sid: StreamId, task: TaskId)
      requires Valid() && sid !in streams
      modifies this`subscribers, this`streams
      ensures Valid() && Abs() == ApplySubscribe(old(Abs()), sid, task)
    {
      subscribers := subscribers[task := (if task in subscribers then subscribers[task] else {}) + {sid}];
      var first := GetStatus(task);
      streams := streams[sid := Stream(task, Open, first, [first], 0)];
    }

    method NextStatus(sid: StreamId) returns (current: Snapshot, more: bool)
      requires Valid() && Enabled(Abs(), NextItem(sid))
      modifies this`streams
      ensures Valid() && Abs() == ApplyNextItem(old(Abs()), sid)
      ensures current == old(streams[sid].puts[streams[sid].taken]) && more == !Terminal(current.status)
    {
      var x := streams[sid];
      current := x.puts[x.taken];
      more := !Terminal(current.status);
      streams := streams[sid := x.(taken := x.taken + 1, pc := if more then Open else Closing)];
    }

    method CloseStream(sid: StreamId)
      requires Valid() && Enabled(Abs(), Unregister(sid))
      modifies this`subscribers, this`streams
      ensures Valid() && Abs() == ApplyUnregister(old(Abs()), sid)
    {
      var task := streams[sid].task;
      streams := streams[sid := streams[sid].(pc := Closed)];
      if task !in subscribers {
        return;
      }
      subscribers := subscribers[task := subscribers[task] - {sid}];
      if subscribers[task] == {} {
        subscribers := subscribers - {task};
      }
    }

    // ---------------------------------------------------------------- worker

    method WorkerDequeue() returns (id: TaskId)
      requires Valid() && Enabled(Abs(), Action.Dequeue)
      modifies this`ctl, queue
      ensures Valid() && Abs() == ApplyDequeue(old(Abs())) && ctl.worker == Held(id)
    {
      var item := queue.Dequeue();
      id := item.value;
      ctl := ctl.(worker := Held(id));
    }

    method SetEnvelope(id: TaskId, envelope: TaskEnvelope, status: Status, result: Option<Response>,
                       error: Option<string>)
      requires EnvelopesValid() && id in tasks && tasks[id] == envelope
      modifies this`memory, envelope
      ensures EnvelopesValid()
      ensures var e := old(memory[id]);
        memory == old(memory)[id := Envelope(e.request, status, Merge(e.result, result), Merge(e.error, error))]
    {
      envelope.Update(status, result, error);
      memory := memory[id := envelope.View()];
    }

    /** Every status transition is made in memory and in the table together. */
    method StoreStatus(id: TaskId, envelope: TaskEnvelope, status: Status,
                       traceId: Option<string>, result: Option<Response>, error: Option<string>)
      requires repo.Valid() && EnvelopesValid() && id in tasks && tasks[id] == envelope
      modifies this`memory, envelope, repo`table, repo.rows.Values
      ensures repo.Valid() && EnvelopesValid()
      ensures var e := old(memory[id]);
        memory == old(memory)[id := Envelope(e.request, status, Merge(e.result, result), Merge(e.error, error))]
      ensures repo.table == UpdatedTable(repo.storage, old(repo.table), id, status, traceId, result, error)
    {
      SetEnvelope(id, envelope, status, result, error);
      repo.UpdateStatus(id, status, traceId, result, error);
    }

    /** And the worker moves on; `pc` and `next` are where to. */
    method Transition(id: TaskId, envelope: TaskEnvelope, status: Status,
                      traceId: Option<string>, result: Option<Response>, error: Option<string>,
                      ghost pc: WorkerPc, ghost next: History)
      requires repo.Valid() && EnvelopesValid() && id in tasks && tasks[id] == envelope
      modifies this`ctl, this`log, this`memory, envelope, repo`table, repo.rows.Values
      ensures repo.Valid() && EnvelopesValid()
      ensures ctl == old(ctl).(worker := pc) && log == next
      ensures var e := old(memory[id]);
        memory == old(memory)[id := Envelope(e.request, status, Merge(e.result, result), Merge(e.error, error))]
      ensures repo.table == UpdatedTable(repo.storage, old(repo.table), id, status, traceId, result, error)
    {
      StoreStatus(id, envelope, status, traceId, result, error);
      ctl, log := ctl.(worker := pc), next;
    }

    /** Looks the envelope up; if there is one, marks the task running in memory and in the table. */
    method WorkerPick(id: TaskId) returns (envelope: TaskEnvelope?)
      requires Valid() && ctl.worker == Held(id)
      modifies this`ctl, this`log, this`memory, tasks.Values, repo`table, repo.rows.Values
      ensures Valid() && Abs() == ApplyPick(old(Abs()))
      ensures if id in tasks then envelope == tasks[id] else envelope == null
      ensures ctl == old(ctl).(worker := if id in tasks then Announcing(id, AwaitLock) else Idle)
      ensures log.fates == old(log.fates) + if id in tasks then [] else [Served(id, Dropped)]
    {
      if id in tasks {
        envelope := tasks[id];
        WorkerMarksRunning(id, envelope);
      } else {
        envelope := null;
        ctl := ctl.(worker := Idle);
        log := log.(fates := log.fates + [Served(id, Dropped)]);
      }
    }

    method WorkerMarksRunning(id: TaskId, envelope: TaskEnvelope)
      requires Valid() && ctl.worker == Held(id) && id in tasks && tasks[id] == envelope
      modifies this`ctl, this`log, this`memory, envelope, repo`table, repo.rows.Values
      ensures Valid() && Abs() == ApplyPick(old(Abs()))
    {
      ghost var next := log.(
        recovered := log.recovered - {id},
        rerun := if id in repo.table && Terminal(repo.table[id].status) then log.rerun + {id} else log.rerun,
        setback := if Terminal(memory[id].status) then log.setback + {id} else log.setback);
      Transition(id, envelope, Running, None, None, None, Announcing(id, AwaitLock), next);
    }

    method WorkerTakeTuple(id: TaskId) returns (to: set<StreamId>)
      requires Valid() && Enabled(Abs(), WorkerTake) && ctl.worker.id == id
      modifies this`ctl
      ensures Valid() && to == SubsOf(subscribers, id) && Abs() == ApplyWorkerTake(old(Abs()))
    {
      to := if id in subscribers then subscribers[id] else {};
      ctl := ctl.(worker := if to == {} then Published(ctl.worker) else ctl.worker.(pub := Sending(to)));
    }

    method WorkerPublish(id: TaskId, to: set<StreamId>)
      requires Valid() && Enabled(Abs(), Action.WorkerPut) && ctl.worker.id == id && to == ctl.worker.pub.to
      modifies this`streams, this`ctl
      ensures Valid() && Abs() == ApplyWorkerPut(old(Abs()))
    {
      var snapshot := GetStatus(id);
      PutIntoAll(to, snapshot);
      ctl := ctl.(worker := Published(ctl.worker));
    }

    method WorkerSucceeds(id: TaskId, envelope: TaskEnvelope, response: Response)
      requires Valid() && ctl.worker == Ready(id) && id in tasks && tasks[id] == envelope
      modifies this`ctl, this`log, this`memory, envelope, repo`table, repo.rows.Values
      ensures Valid() && Abs() == ApplyRun(old(Abs()), Returned(response))
    {
      ghost var next := log.(fates := log.fates + [Served(id, Executed)]);
      Transition(id, envelope, Completed, Some(response.traceId), Some(response), None, Reporting(id, AwaitLock), next);
    }

    method WorkerFails(id: TaskId, envelope: TaskEnvelope, message: string)
      requires Valid() && ctl.worker == Ready(id) && id in tasks && tasks[id] == envelope
      modifies this`ctl, this`log, this`memory, envelope, repo`table, repo.rows.Values
      ensures Valid() && Abs() == ApplyRun(old(Abs()), Raised(message))
    {
      ghost var next := log.(fates := log.fates + [Served(id, Executed)]);
      Transition(id, envelope, Failed, None, None, Some(message), Reporting(id, AwaitLock), next);
    }

    /** Runs the orchestrator on the envelope the worker holds and stores how it ended. */
    method WorkerExecute(id: TaskId, envelope: TaskEnvelope)
      requires Valid() && ctl.worker == Ready(id) && id in tasks && tasks[id] == envelope
      modifies this`ctl, this`log, this`memory, envelope, repo`table, repo.rows.Values
      ensures Valid() && Abs() == ApplyRun(old(Abs()), orchestrator(envelope.request))
      ensures id in memory && EnvelopeHolds(memory[id], orchestrator(envelope.request))
      ensures id in repo.table ==> RowHolds(repo.table[id], orchestrator(envelope.request))
    {
      FinishedHolds(repo.storage, memory, repo.table, id, orchestrator(envelope.request));
      match orchestrator(envelope.request) {
        case Returned(response) => WorkerSucceeds(id, envelope, response);
        case Raised(message) => WorkerFails(id, envelope, message);
      }
    }

    /** `_publish_status`, uninterrupted. */
    method WorkerPublishStatus(id: TaskId)
      requires Valid() && Enabled(Abs(), WorkerTake) && ctl.worker.id == id
      modifies this`streams, this`ctl
      ensures Valid() && log == old(log) && ctl == old(ctl).(worker := Published(old(ctl.worker)))
      ensures streams == PutAll(old(streams), SubsOf(subscribers, id), TaskModel.GetStatus(memory, repo.table, id))
    {
      var to := WorkerTakeTuple(id);
      if to != {} {
        WorkerPublish(id, to);
      } else {
        assert streams == PutAll(streams, {}, TaskModel.GetStatus(memory, repo.table, id));
      }
    }

    /** The body of the worker loop on an id it has found an envelope for. */
    method WorkerServes(id: TaskId, envelope: TaskEnvelope)
      requires Valid() && ctl.worker == Announcing(id, AwaitLock) && id in tasks && tasks[id] == envelope
      modifies this`streams, this`ctl, this`log, this`memory, envelope, repo`table, repo.rows.Values
      ensures Valid() && ctl == old(ctl).(worker := Idle)
      ensures log.fates == old(log.fates) + [Served(id, Executed)]
      ensures memory == old(memory)[id := FinishedEnvelope(old(memory[id]), orchestrator(envelope.request))]
      ensures repo.table == FinishedTable(repo.storage, old(repo.table), id, orchestrator(envelope.request))
      ensures id in memory && EnvelopeHolds(memory[id], orchestrator(envelope.request))
      ensures id in repo.table ==> RowHolds(repo.table[id], orchestrator(envelope.request))
    {
      WorkerPublishStatus(id);
      assert ctl == old(ctl).(worker := Ready(id)) && log == old(log);
      WorkerExecute(id, envelope);
      assert memory == old(memory)[id := FinishedEnvelope(old(memory[id]), orchestrator(envelope.request))];
      assert repo.table == FinishedTable(repo.storage, old(repo.table), id, orchestrator(envelope.request));
      WorkerPublishStatus(id);
    }

    /** The head of a non-empty queue, marked running if there is an envelope for it. */
    method WorkerTakes() returns (id: TaskId, envelope: TaskEnvelope?)
      requires Valid() && ctl.worker.Idle? && queue.items != []
      modifies this`ctl, this`log, this`memory, queue, tasks.Values, repo`table, repo.rows.Values
      ensures Valid() && id == old(queue.items)[0] && queue.items == old(queue.items)[1..]
      ensures if id in tasks then envelope == tasks[id] else envelope == null
      ensures memory.Keys == tasks.Keys && (envelope != null ==> envelope.request == memory[id].request)
      ensures ctl == old(ctl).(worker := if id in tasks then Announcing(id, AwaitLock) else Idle)
      ensures log.fates == old(log.fates) + if id in tasks then [] else [Served(id, Dropped)]
      ensures memory == if id in tasks then old(memory)[id := old(memory[id]).(status := Running)] else old(memory)
      ensures repo.table == if id in tasks
                then UpdatedTable(repo.storage, old(repo.table), id, Running, None, None, None)
                            else old(repo.table)
    {
      id := WorkerDequeue();
      envelope := WorkerPick(id);
    }

    /** Each of these that was known has ended as the orchestrator says of its request, in memory and in the table. */
    ghost predicate Holds(ids: seq<TaskId>, known: map<TaskId, Envelope>)
      reads this`memory, repo`table
    {
      forall id | id in ids && id in known ::
        && id in memory && EnvelopeHolds(memory[id], orchestrator(known[id].request))
        && (id in repo.table ==> RowHolds(repo.table[id], orchestrator(known[id].request)))
    }

    /** The rest of a turn, told from its beginning: m and t are what memory and table were before the marking. */
    method WorkerServesTaken(id: TaskId, envelope: TaskEnvelope,
                             ghost m: map<TaskId, Envelope>, ghost t: map<TaskId, Record>)
      requires Valid() && ctl.worker == Announcing(id, AwaitLock) && id in tasks && tasks[id] == envelope
      requires id in m && id in memory && envelope.request == memory[id].request
      requires memory == m[id := m[id].(status := Running)]
      requires repo.table == UpdatedTable(repo.storage, t, id, Running, None, None, None)
      modifies this`streams, this`ctl, this`log, this`memory, envelope, repo`table, repo.rows.Values
      ensures Valid() && ctl == old(ctl).(worker := Idle)
      ensures log.fates == old(log.fates) + [Served(id, Executed)]
      ensures memory == TurnMemory(m, id, orchestrator)
      ensures repo.table == TurnTable(repo.storage, m, t, id, orchestrator)
    {
      TurnOfKnown(repo.storage, m, t, id, orchestrator);
      WorkerServes(id, envelope);
    }

    /** One turn of the worker loop over a non-empty queue. */
    method WorkerTurn()
      requires Valid() && ctl.worker.Idle? && queue.items != []
      modifies this`streams, this`ctl, this`log, this`memory, queue, tasks.Values, repo`table, repo.rows.Values
      ensures Valid() && ctl == old(ctl) && queue.items == old(queue.items)[1..]
      ensures log.fates == old(log.fates) + [Replay.FateOf(old(queue.items)[0], tasks.Keys)]
      ensures memory == TurnMemory(old(memory), old(queue.items)[0], orchestrator)
      ensures repo.table == TurnTable(repo.storage, old(memory), old(repo.table), old(queue.items)[0], orchestrator)
    {
      ghost var m, t := memory, repo.table;
      var id, envelope := WorkerTakes();
      if envelope != null {
        WorkerServesTaken(id, envelope, m, t);
      }
    }

    /** `_worker_loop` until a dequeue times out: every queued id is served, in order. */
    method WorkerLoop()
      requires Valid() && workerTask && ctl.worker.Idle?
      modifies this`streams, this`ctl, this`log, this`memory, queue, tasks.Values, repo`table, repo.rows.Values
      ensures Valid() && ctl == old(ctl)
      ensures queue.items == []
      ensures log.fates == old(log.fates) + Replay.FatesOf(old(queue.items), tasks.Keys)
      ensures memory == DrainedMemory(old(memory), old(queue.items), orchestrator)
      ensures repo.table == DrainedTable(repo.storage, old(memory), old(repo.table), old(queue.items), orchestrator)
      ensures Holds(old(queue.items), old(memory))
    {
      ghost var all := queue.items;
      ghost var n := 0;
      while !stopped && queue.items != []
        invariant Valid() && ctl == old(ctl)
        invariant 0 <= n <= |all| && queue.items == all[n..]
        invariant log.fates == old(log.fates) + Replay.FatesOf(all[..n], tasks.Keys)
        invariant memory == DrainedMemory(old(memory), all[..n], orchestrator)
        invariant repo.table == DrainedTable(repo.storage, old(memory), old(repo.table), all[..n], orchestrator)
        decreases |queue.items|
      {
        NextTurn(repo.storage, old(memory), old(repo.table), old(log.fates), all, n, orchestrator, tasks.Keys);
        WorkerTurn();
        n := n + 1;
      }
      assert all[..n] == all;
      DrainedHolds(repo.storage, old(memory), old(repo.table), all, orchestrator);
    }

    // -------------------------------------------------------- start and stop

    method BeginRecovery() returns (ids: seq<TaskId>)
      requires Valid() && ctl.phase.Stopped?
      modifies this`ctl, this`log
      ensures Valid() && Abs() == ApplyStart(old(Abs())) && ctl.phase == Recovering(ids, false)
    {
      ids := repo.ListRecoverable();
      ctl := ctl.(phase := Recovering(ids, false));
      log := log.(failed := {});
    }

    /** A row whose request does not parse is skipped; any other gets a fresh envelope. */
    method LoadEnvelope(id: TaskId) returns (loaded: bool)
      requires Valid() && Recovers(ctl.phase, false) && ctl.phase.rest[0] == id
      modifies this`tasks, this`memory, this`ctl, this`log
      ensures Valid() && Grown() && Abs() == ApplyRecoverLoad(old(Abs()))
      ensures loaded == (id in repo.table && repo.table[id].request.Some?)
    {
      var record := repo.Get(id);
      loaded := record.Some? && record.value.request.Some?;
      if loaded {
        LoadRequest(id, record.value.request.value);
      } else {
        ctl := ctl.(phase := Recovering(ctl.phase.rest[1..], false));
      }
    }

    method LoadRequest(id: TaskId, request: Request)
      requires Valid() && Recovers(ctl.phase, false) && ctl.phase.rest[0] == id
      modifies this`tasks, this`memory, this`ctl, this`log
      ensures Valid() && Grown() && memory == old(memory)[id := Envelope(request, Queued, None, None)]
      ensures ctl == old(ctl).(phase := Recovering(old(ctl.phase.rest), true))
      ensures var back := Rank(TaskModel.GetStatus(old(memory), repo.table, id).status) > Rank(Queued);
        log == old(log).(recovered := old(log.recovered) + {id},
                         setback := if back then old(log.setback) + {id} else old(log.setback))
    {
      if Rank(TaskModel.GetStatus(memory, repo.table, id).status) > Rank(Queued) {
        log := log.(setback := log.setback + {id});
      }
      log := log.(recovered := log.recovered + {id});
      ctl := ctl.(phase := Recovering(ctl.phase.rest, true));
      NewEnvelope(id, request);
    }

    method RecoverEnqueue(id: TaskId, fault: Fault)
      requires Valid() && Recovers(ctl.phase, true) && ctl.phase.rest[0] == id
      modifies this`ctl, this`log, queue
      ensures Valid()
      ensures Abs() == if fault.NoFault? then ApplyRecoverPush(old(Abs()))
                       else ApplyRecoverPushRaises(old(Abs()), fault.RaisesAfter?)
    {
      var ok := queue.Enqueue(id, fault);
      ctl := ctl.(phase := Recovering(ctl.phase.rest[1..], false));
      log := log.(enqueued := log.enqueued + if fault.RaisesBefore? then [] else [id],
                  failed := if ok then log.failed else log.failed + {id});
    }

    /** One turn of the recovery loop, however its enqueue ends. */
    method RecoverOne(id: TaskId, fault: Fault)
      requires Valid() && Recovers(ctl.phase, false) && ctl.phase.rest[0] == id
      modifies this`tasks, this`memory, this`ctl, this`log, queue
      ensures Valid() && Grown() && log.fates == old(log.fates)
      ensures ctl == old(ctl).(phase := Recovering(old(ctl.phase.rest)[1..], false))
      ensures queue.items == old(queue.items) + EnqueuedOne(id, fault, repo.table)
      ensures log.failed == old(log.failed) + FailedOne(id, fault, repo.table)
      ensures memory == LoadedOne(old(memory), id, repo.table)
    {
      var loaded := LoadEnvelope(id);
      if !loaded {
        assert queue.items + [] == queue.items && log.failed + {} == log.failed;
        return;
      }
      assert ctl == old(ctl).(phase := Recovering(old(ctl.phase.rest), true));
      assert log.failed == old(log.failed) && log.fates == old(log.fates);
      RecoverEnqueue(id, fault);
    }

    /** `_recover_pending_tasks`: `faults` says which enqueues raise. */
    method RecoverPendingTasks(ids: seq<TaskId>, faults: map<TaskId, Fault>)
      requires Valid() && ctl.phase == Recovering(ids, false)
      modifies this`tasks, this`memory, this`ctl, this`log, queue
      ensures Valid() && Grown() && log.fates == old(log.fates)
      ensures ctl == old(ctl).(phase := Recovering([], false))
      ensures queue.items == old(queue.items) + Enqueued(ids, faults, repo.table)
      ensures log.failed == old(log.failed) + Failing(ids, faults, repo.table)
      ensures memory == Loaded(old(memory), ids, repo.table)
    {
      assert ids[0..] == ids;
      for i := 0 to |ids|
        invariant Valid() && Grown() && log.fates == old(log.fates)
        invariant ctl == old(ctl).(phase := Recovering(ids[i..], false))
        invariant queue.items == old(queue.items) + Enqueued(ids[..i], faults, repo.table)
        invariant log.failed == old(log.failed) + Failing(ids[..i], faults, repo.table)
        invariant memory == Loaded(old(memory), ids[..i], repo.table)
      {
        NextRow(old(memory), old(queue.items), old(log.failed), ids, i, faults, repo.table);
        RecoverOne(ids[i], FaultOf(faults, ids[i]));
      }
      assert ids[..|ids|] == ids;
    }

    method Serve()
      requires Valid() && Enabled(Abs(), BeginServing) && !stopped
      modifies this`ctl, this`workerTask
      ensures Valid() && workerTask && Abs() == ApplyBeginServing(old(Abs()))
    {
      ctl := ctl.(phase := Up, worker := Idle);
      workerTask := true;
    }

    /** `start`: nothing when the worker runs already, else recovery and then the worker. */
    method Start(faults: map<TaskId, Fault>)
      requires Valid() && !ctl.phase.Recovering?
      modifies this`tasks, this`memory, this`stopped, this`workerTask, this`ctl, this`log, queue
      ensures Valid() && Grown() && workerTask && log.fates == old(log.fates)
      ensures old(workerTask) ==> Abs() == old(Abs())
      ensures !old(workerTask) ==>
                var ids := Recoverable(repo.created, repo.table);
                && ctl == old(ctl).(phase := Up, worker := Idle)
                && queue.items == old(queue.items) + Enqueued(ids, faults, repo.table)
                && memory == Loaded(old(memory), ids, repo.table)
                && log.failed == Failing(ids, faults, repo.table)
                && KeepsOrder(Enqueued(ids, faults, repo.table), repo.created)
    {
      if !workerTask {
        RecoveredOldestFirst(repo.created, faults, repo.table);
        stopped := false;
        var ids := BeginRecovery();
        RecoverPendingTasks(ids, faults);
        Serve();
      }
    }

    /** `stop`: cancels the worker, if there is one, where it is suspended. */
    method Stop()
      requires Valid() && !ctl.phase.Recovering? && (workerTask ==> Suspended(ctl.worker))
      modifies this`stopped, this`workerTask, this`ctl, this`log
      ensures Valid() && stopped && !workerTask
      ensures Abs() == if old(workerTask) then ApplyStop(old(Abs())) else old(Abs())
    {
      stopped := true;
      if workerTask {
        log := log.(fates := log.fates + AllLost(HeldItems(ctl.worker)));
        ctl := ctl.(phase := Stopped, worker := Off);
        workerTask := false;
      }
    }
  }
}
