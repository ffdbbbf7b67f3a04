/**
  The envelope in memory against the row in the table, for tasks that are executed again after
  they finished: the dictionary keeps what memory keeps, the ORM overwrites it, and what each of
  them therefore holds at every step.
*/
module TaskCache {
  import opened Optional
  import opened TaskModel
  import opened TaskProtocol
  import opened TaskInvariants
  import opened TaskTheorems

  // -------------------------------------------------------------- invariants

  ghost predicate NoOutcome(e: Envelope) {
    e.result.None? && e.error.None?
  }

  ghost predicate EmptyRow(r: Record) {
    r.result.None? && r.error.None? && r.traceId.None?
  }

  /** The worker is between marking the task running and storing how it ended. */
  predicate Executing(w: WorkerPc, id: TaskId) {
    (w.Announcing? || w.Ready?) && w.id == id
  }

  /** A recovered task that waits for pick-up has a fresh envelope. */
  ghost predicate RecoveredFresh(tasks: map<TaskId, Envelope>, recovered: set<TaskId>) {
    forall id | id in recovered && id in tasks :: NoOutcome(tasks[id])
  }

  /** The dictionary holds the outcome memory holds; an unfinished row not being executed has none. */
  ghost predicate Merged(tasks: map<TaskId, Envelope>, repo: map<TaskId, Record>, w: WorkerPc) {
    && (forall id | id in repo :: repo[id].traceId == TraceOf(repo[id].result))
    && (forall id | id in repo && !Terminal(repo[id].status) && !Executing(w, id) :: EmptyRow(repo[id]))
    && (forall id | id in tasks && id in repo ::
          tasks[id].result == repo[id].result && tasks[id].error == repo[id].error)
  }

  /** The table holds the outcome of its status only, and memory holds at least that. */
  ghost predicate Overwritten(tasks: map<TaskId, Envelope>, repo: map<TaskId, Record>) {
    && (forall id | id in repo :: ShapeOk(repo[id]))
    && (forall id | id in tasks && id in repo ::
          && (repo[id].status.Completed? ==> tasks[id].result == repo[id].result)
          && (repo[id].status.Failed? ==> tasks[id].error == repo[id].error))
  }

  ghost predicate Stored(s: State) {
    && RecoveredFresh(s.mem.tasks, s.log.recovered)
    && (s.storage.InMemory? ==> Merged(s.mem.tasks, s.disk.repo, s.ctl.worker))
    && (s.storage.Database? ==> Overwritten(s.mem.tasks, s.disk.repo))
  }

  /** What the proofs below need of `Inv`. */
  ghost predicate Base(s: State) {
    && MemoryBacked(s.mem.tasks, s.disk.repo)
    && WorkerAgrees(s.ctl.phase, s.ctl.worker, s.mem.tasks, s.log.recovered)
    && StatusAgrees(s.mem.tasks, s.disk.repo, s.log.recovered)
    && RestUnfinished(s.ctl.phase, s.disk.repo)
  }

  lemma RecoveredFreshInductive(s: State, a: Action)
    requires Base(s) && Enabled(s, a) && RecoveredFresh(s.mem.tasks, s.log.recovered)
    ensures RecoveredFresh(Apply(s, a).mem.tasks, Apply(s, a).log.recovered)
  {
    if !TableAction(a) { TablesUntouched(s, a); }
  }

  lemma OverwrittenInductive(s: State, a: Action)
    requires Base(s) && Enabled(s, a) && s.storage.Database? && Overwritten(s.mem.tasks, s.disk.repo)
    ensures Overwritten(Apply(s, a).mem.tasks, Apply(s, a).disk.repo)
  {
    if !TableAction(a) { TablesUntouched(s, a); }
  }

  lemma MergedByPick(s: State)
    requires Base(s) && Enabled(s, Pick)
    requires s.storage.InMemory? && Merged(s.mem.tasks, s.disk.repo, s.ctl.worker)
    ensures var s' := ApplyPick(s); Merged(s'.mem.tasks, s'.disk.repo, s'.ctl.worker)
  {
  }

  lemma MergedByRun(s: State, o: Outcome)
    requires Base(s) && Enabled(s, Run(o))
    requires s.storage.InMemory? && Merged(s.mem.tasks, s.disk.repo, s.ctl.worker)
    ensures var s' := ApplyRun(s, o); Merged(s'.mem.tasks, s'.disk.repo, s'.ctl.worker)
  {
  }

  lemma MergedByLoad(s: State, a: Action)
    requires Base(s) && Enabled(s, a) && (a.Create? || a.RecoverLoad?)
    requires s.storage.InMemory? && Merged(s.mem.tasks, s.disk.repo, s.ctl.worker)
    ensures Merged(Apply(s, a).mem.tasks, Apply(s, a).disk.repo, Apply(s, a).ctl.worker)
  {
  }

  /** Executing ends only with the outcome stored: no other action takes the worker out of it. */
  lemma ExecutingStays(s: State, a: Action)
    requires Base(s) && Enabled(s, a) && !TableAction(a)
    ensures forall id :: Executing(s.ctl.worker, id) ==> Executing(Apply(s, a).ctl.worker, id)
  {
  }

  lemma MergedInductive(s: State, a: Action)
    requires Base(s) && Enabled(s, a) && !a.Crash?
    requires s.storage.InMemory? && Merged(s.mem.tasks, s.disk.repo, s.ctl.worker)
    ensures Merged(Apply(s, a).mem.tasks, Apply(s, a).disk.repo, Apply(s, a).ctl.worker)
  {
    if a.Pick? {
      MergedByPick(s);
    } else if a.Run? {
      MergedByRun(s, a.outcome);
    } else if TableAction(a) {
      MergedByLoad(s, a);
    } else {
      TablesUntouched(s, a);
      ExecutingStays(s, a);
    }
  }

  /** A table in memory does not outlive its process, so a crash is no step of its runs. */
  ghost predicate Survives(storage: Storage, a: Action) {
    storage.InMemory? ==> !a.Crash?
  }

  lemma StoredInductive(s: State, a: Action)
    requires Inv(s) && Stored(s) && Enabled(s, a) && Survives(s.storage, a)
    ensures Stored(Apply(s, a)) && Apply(s, a).storage == s.storage
  {
    RecoveredFreshInductive(s, a);
    if s.storage.InMemory? { MergedInductive(s, a); } else { OverwrittenInductive(s, a); }
  }

  lemma {:induction false} StoredAlways(s: State, run: seq<Action>)
    requires Inv(s) && Stored(s) && Valid(s, run)
    requires forall i | 0 <= i < |run| :: Survives(s.storage, run[i])
    ensures Inv(After(s, run)) && Stored(After(s, run)) && After(s, run).storage == s.storage
    decreases |run|
  {
    if run != [] {
      InvInductive(s, run[0]);
      StoredInductive(s, run[0]);
      StoredAlways(Apply(s, run[0]), run[1..]);
    }
  }

  lemma InitStored(s: State)
    requires Init(s)
    ensures Stored(s)
  {
  }

  // ------------------------------------------- when memory and table agree

  /** The answer of a status query, and what it would be without the envelope. */
  function Cached(s: State, id: TaskId): Snapshot {
    GetStatus(s.mem.tasks, s.disk.repo, id)
  }

  function Persistent(s: State, id: TaskId): Snapshot {
    GetStatus(s.mem.tasks - {id}, s.disk.repo, id)
  }

  /** Recovered while its row said running, and not picked up yet. */
  ghost predicate AwaitsPickUp(s: State, id: TaskId) {
    id in s.log.recovered && id in s.disk.repo && s.disk.repo[id].status.Running?
  }

  /** The envelope carries an outcome that is not that of its status. */
  predicate Stale(e: Envelope) {
    (e.result.Some? && !e.status.Completed?) || (e.error.Some? && !e.status.Failed?)
  }
}
