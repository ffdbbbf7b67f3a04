/**
  One life of the worker: from a start() up to the next stop or crash. What every run of a life
  keeps when the queue, the tasks to recover and the submitters still to enqueue name no task
  twice, and when no finished task is among them.
*/
module TaskLife {
  import opened Optional
  import opened TaskModel
  import opened TaskProtocol
  import opened TaskInvariants
  import opened TaskTheorems

  // --------------------------------------------------- the single-life invariant

  predicate SameLife(a: Action) {
    !a.Stop? && !a.Crash?
  }

  ghost predicate LifeRun(run: seq<Action>) {
    forall i | 0 <= i < |run| :: SameLife(run[i])
  }

  /** Of the ids enqueued since n0, only ones the manager does not know occur twice. */
  ghost predicate LineOnce(line: seq<TaskId>, n0: nat, tasks: map<TaskId, Envelope>) {
    forall i, j | n0 <= i < j < |line| && line[i] == line[j] :: line[i] !in tasks
  }

  /** An id in the line that the manager does not know will never be recovered. */
  ghost predicate LineStale(line: seq<TaskId>, n0: nat, tasks: map<TaskId, Envelope>, repo: map<TaskId, Record>) {
    forall i | n0 <= i < |line| :: line[i] in tasks || (line[i] in repo && !Pending(repo, line[i]))
  }

  ghost predicate InLine(line: seq<TaskId>, n0: nat, id: TaskId) {
    exists i :: n0 <= i < |line| && line[i] == id
  }

  /** Its submitter has stored the task and not yet enqueued it. */
  predicate Enqueuing(ctl: Control, id: TaskId) {
    id in ctl.submitters && ctl.submitters[id].Created?
  }

  /** Whoever is still to enqueue an id is the only one, and the id is not in the line. */
  ghost predicate Outside(line: seq<TaskId>, n0: nat, ctl: Control, repo: map<TaskId, Record>) {
    && (forall id | Enqueuing(ctl, id) ::
          !InLine(line, n0, id) && id in repo && !(ctl.phase.Recovering? && id in ctl.phase.rest))
    && (ctl.phase.Recovering? ==>
          && Distinct(ctl.phase.rest)
          && forall id | id in ctl.phase.rest && Pending(repo, id) :: !InLine(line, n0, id))
  }

  /** Known ids that wait in the line, or to enter it, belong to unfinished tasks. */
  ghost predicate Ahead(line: seq<TaskId>, served: nat, tasks: map<TaskId, Envelope>, ctl: Control,
                        repo: map<TaskId, Record>)
  {
    && (forall i | served <= i < |line| && line[i] in tasks :: line[i] in repo && !Terminal(repo[line[i]].status))
    && (forall id | Enqueuing(ctl, id) :: id in repo && !Terminal(repo[id].status))
  }

  /** Since n0 nothing was lost: what left the line was executed if the manager knew it and dropped otherwise. */
  ghost predicate FatesKnown(fates: seq<Served>, n0: nat, tasks: map<TaskId, Envelope>) {
    forall i | n0 <= i < |fates| :: fates[i].fate == if fates[i].id in tasks then Executed else Dropped
  }

  /** Every task of this life is in the line, or about to enter it, or its enqueue has raised. */
  ghost predicate Accounted(line: seq<TaskId>, n0: nat, tasks: map<TaskId, Envelope>, ctl: Control,
                            failed: set<TaskId>)
  {
    forall id | id in tasks ::
      || InLine(line, n0, id)
      || Enqueuing(ctl, id)
      || (ctl.phase.Recovering? && id in ctl.phase.rest)
      || id in failed
  }

  /** No task is in line twice since n0. */
  ghost predicate Once(s: State, n0: nat) {
    && n0 <= |s.log.fates|
    && !s.ctl.phase.Stopped?
    && LineOnce(s.log.enqueued, n0, s.mem.tasks)
    && LineStale(s.log.enqueued, n0, s.mem.tasks, s.disk.repo)
    && Outside(s.log.enqueued, n0, s.ctl, s.disk.repo)
    && FatesKnown(s.log.fates, n0, s.mem.tasks)
  }

  /** And none of those still to be served is finished. */
  ghost predicate Tidy(s: State, n0: nat) {
    Once(s, n0) && Ahead(s.log.enqueued, |s.log.fates|, s.mem.tasks, s.ctl, s.disk.repo)
  }

  /** The first life after a boot: every task in memory belongs to it. */
  ghost predicate Life(s: State, n0: nat) {
    Tidy(s, n0) && Accounted(s.log.enqueued, n0, s.mem.tasks, s.ctl, s.log.failed)
  }

  // -------------------------------------------------------- where a life starts

  /** The worker is going to have an envelope for the id. */
  ghost predicate WillBeKnown(s: State, id: TaskId) {
    id in s.mem.tasks || Pending(s.disk.repo, id)
  }

  /**
    No task the worker is going to know is named twice by the queue, the rows to recover and
    the submitters still to enqueue, taken together.
  */
  ghost predicate CleanStart(s: State) {
    && (forall i, j | 0 <= i < j < |s.disk.queue| && s.disk.queue[i] == s.disk.queue[j] ::
        !WillBeKnown(s, s.disk.queue[i]))
    && (forall id | id in s.disk.queue :: !Pending(s.disk.repo, id) && !Enqueuing(s.ctl, id))
    && (forall id | Enqueuing(s.ctl, id) :: !Pending(s.disk.repo, id))
  }

  /** No finished task in memory is queued or still to be enqueued. */
  ghost predicate NoneFinished(s: State) {
    forall id | id in s.mem.tasks && id in s.disk.repo && Terminal(s.disk.repo[id].status) ::
      id !in s.disk.queue && !Enqueuing(s.ctl, id)
  }

  /** The queue found at boot holds no unfinished task; an empty one does not. */
  ghost predicate CleanQueue(disk: Disk) {
    forall id | id in disk.queue :: !Pending(disk.repo, id)
  }

  /** After a boot, when memory is empty, only the queue matters. */
  lemma BootIsClean(s: State)
    requires Booted(s)
    ensures CleanStart(s) <==> CleanQueue(s.disk)
    ensures NoneFinished(s)
  {
  }

  /** At a start the line holds exactly the queue. */
  lemma LineAtStart(s: State)
    requires Conserved(s.disk.queue, s.ctl.worker, s.log) && s.ctl.worker.Off?
    ensures |s.log.enqueued| == |s.log.fates| + |s.disk.queue|
    ensures forall i | |s.log.fates| <= i < |s.log.enqueued| :: s.log.enqueued[i] == s.disk.queue[i - |s.log.fates|]
    ensures forall id :: InLine(s.log.enqueued, |s.log.fates|, id) <==> id in s.disk.queue
  {
    LineIsConserved(s);
    var n0 := |s.log.fates|;
    assert s.log.enqueued == Ids(s.log.fates) + s.disk.queue;
    forall id ensures InLine(s.log.enqueued, n0, id) <==> id in s.disk.queue {
      if id in s.disk.queue {
        var k :| 0 <= k < |s.disk.queue| && s.disk.queue[k] == id;
        assert s.log.enqueued[n0 + k] == id;
      }
    }
  }

  lemma OnceBegins(s: State)
    requires Ground(s) && s.ctl.phase.Stopped? && CleanStart(s)
    ensures Once(Apply(s, Start), |s.log.fates|)
  {
    LineAtStart(s);
    RecoverableSpec(s.disk.created, s.disk.repo);
    var s' := Apply(s, Start);
    assert s'.ctl.submitters == s.ctl.submitters;
    assert forall id :: Enqueuing(s'.ctl, id) <==> Enqueuing(s.ctl, id);
    forall id | Enqueuing(s.ctl, id) ensures id in s.disk.repo && id !in s'.ctl.phase.rest {
      assert id in s.mem.tasks;
    }
  }

  lemma AheadBegins(s: State)
    requires Ground(s) && s.ctl.phase.Stopped? && NoneFinished(s)
    ensures Ahead(s.log.enqueued, |s.log.fates|, s.mem.tasks, s.ctl, s.disk.repo)
  {
    LineAtStart(s);
  }

  lemma LifeBegins(s: State)
    requires Inv(s) && s.ctl.phase.Stopped? && CleanStart(s)
    ensures Once(Apply(s, Start), |s.log.fates|)
    ensures NoneFinished(s) ==> Tidy(Apply(s, Start), |s.log.fates|)
    ensures Booted(s) ==> Life(Apply(s, Start), |s.log.fates|)
  {
    OnceBegins(s);
    if NoneFinished(s) {
      AheadBegins(s);
      assert forall id :: Enqueuing(Apply(s, Start).ctl, id) <==> Enqueuing(s.ctl, id);
    }
    if Booted(s) { BootIsClean(s); }
  }

  /** The part of the invariant the single-life argument needs. */
  ghost predicate Ground(s: State) {
    && TableListed(s.disk) && References(s)
    && WorkerAgrees(s.ctl.phase, s.ctl.worker, s.mem.tasks, s.log.recovered)
    && RestUnfinished(s.ctl.phase, s.disk.repo)
    && Conserved(s.disk.queue, s.ctl.worker, s.log)
  }

  lemma InLinePush(line: seq<TaskId>, n0: nat, more: seq<TaskId>)
    requires n0 <= |line|
    ensures forall id :: InLine(line + more, n0, id) <==> InLine(line, n0, id) || id in more
  {
    forall id ensures InLine(line + more, n0, id) <==> InLine(line, n0, id) || id in more {
      if InLine(line, n0, id) {
        var i :| n0 <= i < |line| && line[i] == id;
        assert (line + more)[i] == id;
      }
      if id in more {
        var i :| 0 <= i < |more| && more[i] == id;
        assert (line + more)[|line| + i] == id;
      }
    }
  }

  /** The actions at whose end an id may have entered the queue. */
  predicate EnqueueAction(a: Action) {
    a.SubmitPush? || a.SubmitPushRaises? || a.RecoverPush? || a.RecoverPushRaises?
  }

  lemma EnqueueGrowsLine(s: State, a: Action, n0: nat)
    requires Conserved(s.disk.queue, s.ctl.worker, s.log) && n0 <= |s.log.fates| && Enabled(s, a) && EnqueueAction(a)
    ensures var id := if a.SubmitPush? || a.SubmitPushRaises? then a.id else s.ctl.phase.rest[0];
            var line := s.log.enqueued; var line' := Apply(s, a).log.enqueued;
      && (line' == line || line' == line + [id])
      && (a.SubmitPush? || a.RecoverPush? ==> line' == line + [id])
      && (forall x :: InLine(line', n0, x) <==> InLine(line, n0, x) || (line' != line && x == id))
  {
    LineIsConserved(s);
    InLinePush(s.log.enqueued, n0, Apply(s, a).log.enqueued[|s.log.enqueued|..]);
    assert Apply(s, a).log.enqueued == s.log.enqueued + Apply(s, a).log.enqueued[|s.log.enqueued|..];
  }

  /** The ids in `enqueued` at or after n0, and where each of them is now. */
  lemma LineIsConserved(s: State)
    requires Conserved(s.disk.queue, s.ctl.worker, s.log)
    ensures forall i | 0 <= i < |s.log.fates| :: i < |s.log.enqueued| && s.log.enqueued[i] == s.log.fates[i].id
    ensures HeldItems(s.ctl.worker) != [] ==>
              |s.log.fates| < |s.log.enqueued| && s.log.enqueued[|s.log.fates|] == HeldItems(s.ctl.worker)[0]
    ensures |s.log.enqueued| == |s.log.fates| + |HeldItems(s.ctl.worker)| + |s.disk.queue|
    ensures HeldItems(s.ctl.worker) == [] && s.disk.queue != [] ==> s.log.enqueued[|s.log.fates|] == s.disk.queue[0]
  {
    var e := Ids(s.log.fates) + HeldItems(s.ctl.worker) + s.disk.queue;
    assert s.log.enqueued == e;
    assert forall i | 0 <= i < |s.log.fates| :: e[i] == s.log.fates[i].id;
  }

  /** What enters the line was not in it and belongs to a known task. */
  lemma EnqueuesNew(s: State, a: Action, n0: nat)
    requires Ground(s) && Once(s, n0) && Enabled(s, a) && EnqueueAction(a)
    ensures var id := if a.SubmitPush? || a.SubmitPushRaises? then a.id else s.ctl.phase.rest[0];
      && id in s.mem.tasks && !InLine(s.log.enqueued, n0, id)
      && (if a.SubmitPush? || a.SubmitPushRaises? then Enqueuing(s.ctl, id) else Pending(s.disk.repo, id))
  {
    if a.SubmitPush? || a.SubmitPushRaises? {
      assert Enqueuing(s.ctl, a.id);
    } else {
      assert Pending(s.disk.repo, s.ctl.phase.rest[0]);
    }
  }

  lemma LineOnceByEnqueue(s: State, a: Action, n0: nat)
    requires Ground(s) && Once(s, n0) && Enabled(s, a) && EnqueueAction(a)
    ensures var s' := Apply(s, a); LineOnce(s'.log.enqueued, n0, s'.mem.tasks)
  {
    LineIsConserved(s);
    EnqueueGrowsLine(s, a, n0);
    EnqueuesNew(s, a, n0);
  }

  lemma LineOnceInductive(s: State, a: Action, n0: nat)
    requires Ground(s) && Once(s, n0) && Enabled(s, a) && SameLife(a)
    ensures var s' := Apply(s, a); LineOnce(s'.log.enqueued, n0, s'.mem.tasks)
  {
    if EnqueueAction(a) { LineOnceByEnqueue(s, a, n0); } else { LineIsConserved(s); }
  }

  lemma LineStaleInductive(s: State, a: Action, n0: nat)
    requires Ground(s) && Once(s, n0) && Enabled(s, a) && SameLife(a)
    ensures var s' := Apply(s, a); LineStale(s'.log.enqueued, n0, s'.mem.tasks, s'.disk.repo)
  {
    LineIsConserved(s);
  }

  lemma OutsideByEnqueue(s: State, a: Action, n0: nat)
    requires Ground(s) && Once(s, n0) && Enabled(s, a) && EnqueueAction(a)
    ensures var s' := Apply(s, a); Outside(s'.log.enqueued, n0, s'.ctl, s'.disk.repo)
  {
    LineIsConserved(s);
    EnqueueGrowsLine(s, a, n0);
    EnqueuesNew(s, a, n0);
  }

  lemma OutsideInductive(s: State, a: Action, n0: nat)
    requires Ground(s) && Once(s, n0) && Enabled(s, a) && SameLife(a)
    ensures var s' := Apply(s, a); Outside(s'.log.enqueued, n0, s'.ctl, s'.disk.repo)
  {
    if EnqueueAction(a) { OutsideByEnqueue(s, a, n0); } else { LineIsConserved(s); }
  }

  lemma AheadByEnqueue(s: State, a: Action, n0: nat)
    requires Ground(s) && Tidy(s, n0) && Enabled(s, a) && EnqueueAction(a)
    ensures var s' := Apply(s, a); Ahead(s'.log.enqueued, |s'.log.fates|, s'.mem.tasks, s'.ctl, s'.disk.repo)
  {
    LineIsConserved(s);
    EnqueueGrowsLine(s, a, n0);
    EnqueuesNew(s, a, n0);
  }

  lemma AheadByWorker(s: State, a: Action, n0: nat)
    requires Ground(s) && Tidy(s, n0) && Enabled(s, a) && WorkerAction(a)
    ensures var s' := Apply(s, a); Ahead(s'.log.enqueued, |s'.log.fates|, s'.mem.tasks, s'.ctl, s'.disk.repo)
  {
    LineIsConserved(s);
  }

  lemma AheadInductive(s: State, a: Action, n0: nat)
    requires Ground(s) && Tidy(s, n0) && Enabled(s, a) && SameLife(a)
    ensures var s' := Apply(s, a); Ahead(s'.log.enqueued, |s'.log.fates|, s'.mem.tasks, s'.ctl, s'.disk.repo)
  {
    if EnqueueAction(a) {
      AheadByEnqueue(s, a, n0);
    } else if WorkerAction(a) {
      AheadByWorker(s, a, n0);
    } else {
      LineIsConserved(s);
    }
  }

  lemma FatesKnownInductive(s: State, a: Action, n0: nat)
    requires Ground(s) && Once(s, n0) && Enabled(s, a) && SameLife(a)
    ensures var s' := Apply(s, a); n0 <= |s'.log.fates| && FatesKnown(s'.log.fates, n0, s'.mem.tasks)
  {
    LineIsConserved(s);
  }

  lemma AccountedByEnqueue(s: State, a: Action, n0: nat)
    requires Ground(s) && Life(s, n0) && Enabled(s, a) && EnqueueAction(a)
    ensures var s' := Apply(s, a); Accounted(s'.log.enqueued, n0, s'.mem.tasks, s'.ctl, s'.log.failed)
  {
    LineIsConserved(s);
    EnqueueGrowsLine(s, a, n0);
    EnqueuesNew(s, a, n0);
  }

  lemma AccountedInductive(s: State, a: Action, n0: nat)
    requires Ground(s) && Life(s, n0) && Enabled(s, a) && SameLife(a)
    ensures var s' := Apply(s, a); Accounted(s'.log.enqueued, n0, s'.mem.tasks, s'.ctl, s'.log.failed)
  {
    if EnqueueAction(a) { AccountedByEnqueue(s, a, n0); } else { LineIsConserved(s); }
  }

  lemma OnceInductive(s: State, a: Action, n0: nat)
    requires Inv(s) && Once(s, n0) && Enabled(s, a) && SameLife(a)
    ensures Once(Apply(s, a), n0)
  {
    LineOnceInductive(s, a, n0);
    LineStaleInductive(s, a, n0);
    OutsideInductive(s, a, n0);
    FatesKnownInductive(s, a, n0);
  }

  lemma TidyInductive(s: State, a: Action, n0: nat)
    requires Inv(s) && Tidy(s, n0) && Enabled(s, a) && SameLife(a)
    ensures Tidy(Apply(s, a), n0)
  {
    OnceInductive(s, a, n0);
    AheadInductive(s, a, n0);
  }

  lemma LifeInductive(s: State, a: Action, n0: nat)
    requires Inv(s) && Life(s, n0) && Enabled(s, a) && SameLife(a)
    ensures Life(Apply(s, a), n0)
  {
    TidyInductive(s, a, n0);
    AccountedInductive(s, a, n0);
  }

  lemma {:induction false} OnceAlways(s: State, run: seq<Action>, n0: nat)
    requires Inv(s) && Once(s, n0) && Valid(s, run) && LifeRun(run)
    ensures Inv(After(s, run)) && Once(After(s, run), n0)
    decreases |run|
  {
    if run != [] {
      assert SameLife(run[0]);
      InvInductive(s, run[0]);
      OnceInductive(s, run[0], n0);
      OnceAlways(Apply(s, run[0]), run[1..], n0);
    }
  }

  lemma {:induction false} LifeAlways(s: State, run: seq<Action>, n0: nat)
    requires Inv(s) && Life(s, n0) && Valid(s, run) && LifeRun(run)
    ensures Inv(After(s, run)) && Life(After(s, run), n0)
    decreases |run|
  {
    if run != [] {
      assert SameLife(run[0]);
      InvInductive(s, run[0]);
      LifeInductive(s, run[0], n0);
      LifeAlways(Apply(s, run[0]), run[1..], n0);
    }
  }

  // ------------------------------------------------------------ status flow

  /** Each row keeps its status or moves from queued to running, or from running to a terminal one. */
  ghost predicate StepForward(s: State, a: Action)
    requires Enabled(s, a)
  {
    forall id | id in s.disk.repo ::
      && id in Apply(s, a).disk.repo
      && var old', new' := s.disk.repo[id].status, Apply(s, a).disk.repo[id].status;
         new' == old' || (old'.Queued? && new'.Running?) || (old'.Running? && Terminal(new'))
  }

  ghost predicate RunForward(s: State, run: seq<Action>)
    requires Valid(s, run)
    decreases |run|
  {
    run == [] || (StepForward(s, run[0]) && RunForward(Apply(s, run[0]), run[1..]))
  }

  /** The worker marks a task running whose row is terminal. */
  predicate PicksFinished(s: State, a: Action) {
    && a.Pick? && s.ctl.worker.Held? && s.ctl.worker.id in s.mem.tasks
    && s.ctl.worker.id in s.disk.repo && Terminal(s.disk.repo[s.ctl.worker.id].status)
  }

  /** In any state and by any action, stops and crashes included, a row moves backwards exactly by such a pick-up. */
  lemma StepForwardIff(s: State, a: Action)
    requires Inv(s) && Enabled(s, a)
    ensures StepForward(s, a) <==> !PicksFinished(s, a)
  {
    if TableAction(a) {
      StepForwardByTables(s, a);
    } else {
      TablesUntouched(s, a);
    }
  }

  lemma StepForwardByTables(s: State, a: Action)
    requires References(s) && Enabled(s, a) && TableAction(a)
    requires WorkerAgrees(s.ctl.phase, s.ctl.worker, s.mem.tasks, s.log.recovered)
    requires StatusAgrees(s.mem.tasks, s.disk.repo, s.log.recovered)
    ensures StepForward(s, a) <==> !PicksFinished(s, a)
  {
    if PicksFinished(s, a) {
      assert Apply(s, a).disk.repo[s.ctl.worker.id].status.Running?;
    }
  }

  lemma TidyPicksNothingFinished(s: State, a: Action, n0: nat)
    requires Inv(s) && Tidy(s, n0) && Enabled(s, a)
    ensures !PicksFinished(s, a)
  {
    LineIsConserved(s);
  }

  /** In a life that began with no task named twice and none finished, every row moves forward only. */
  lemma {:induction false} LifeMovesForward(s: State, run: seq<Action>, n0: nat)
    requires Inv(s) && Tidy(s, n0) && Valid(s, run) && LifeRun(run)
    ensures RunForward(s, run)
    decreases |run|
  {
    if run != [] {
      assert SameLife(run[0]);
      TidyPicksNothingFinished(s, run[0], n0);
      StepForwardIff(s, run[0]);
      InvInductive(s, run[0]);
      TidyInductive(s, run[0], n0);
      LifeMovesForward(Apply(s, run[0]), run[1..], n0);
    }
  }

  // ------------------------------------------------ what holds within a life

  ghost predicate AtMostOnce(fates: seq<Served>, n0: nat) {
    forall i, j | n0 <= i < j < |fates| && fates[i].fate.Executed? && fates[j].fate.Executed? ::
        fates[i].id != fates[j].id
  }

  ghost predicate ExactlyOnce(fates: seq<Served>, n0: nat, id: TaskId) {
    exists i :: n0 <= i < |fates| && fates[i] == Served(id, Executed)
                && forall j | n0 <= j < |fates| && fates[j].id == id :: j == i
  }

  lemma LifeExecutesAtMostOnce(s: State, n0: nat)
    requires Inv(s) && Once(s, n0)
    ensures AtMostOnce(s.log.fates, n0)
  {
    LineIsConserved(s);
  }

  /** Ids leave in the order they entered: what entered is what left, then what is held, then what waits. */
  lemma LifeIsFifo(s: State, n0: nat)
    requires Inv(s) && n0 <= |s.log.fates|
    ensures n0 <= |s.log.enqueued|
    ensures s.log.enqueued[n0..] == Ids(s.log.fates[n0..]) + HeldItems(s.ctl.worker) + s.disk.queue
    ensures multiset(s.log.enqueued[n0..])
         == multiset(Ids(s.log.fates[n0..])) + multiset(HeldItems(s.ctl.worker)) + multiset(s.disk.queue)
  {
    var a, b := s.log.fates[..n0], s.log.fates[n0..];
    assert s.log.fates == a + b;
    IdsAppend(a, b);
    assert s.log.enqueued == Ids(a) + (Ids(b) + HeldItems(s.ctl.worker) + s.disk.queue);
    assert s.log.enqueued[n0..] == Ids(b) + HeldItems(s.ctl.worker) + s.disk.queue;
  }

  /** Once the system is quiet, every task of this life whose enqueue did not raise has been executed exactly once. */
  lemma QuietMeansExactlyOnce(s: State, n0: nat, id: TaskId)
    requires Inv(s) && Life(s, n0) && Quiet(s)
    requires id in s.mem.tasks && id !in s.log.failed
    ensures ExactlyOnce(s.log.fates, n0, id)
  {
    LineIsConserved(s);
    var i :| n0 <= i < |s.log.enqueued| && s.log.enqueued[i] == id;
    assert s.log.fates[i] == Served(id, Executed);
  }

  /** A row has a result iff it completed, an error iff it failed, as long as its task was never executed again. */
  lemma OutcomeMatchesStatus(s: State, id: TaskId)
    requires Reachable(s) && id in s.disk.repo && id !in s.log.rerun
    ensures s.disk.repo[id].status.Completed? <==> s.disk.repo[id].result.Some?
    ensures s.disk.repo[id].status.Failed? <==> s.disk.repo[id].error.Some?
    ensures s.disk.repo[id].traceId == TraceOf(s.disk.repo[id].result)
  {
    ReachableInv(s);
    assert ShapeOk(s.disk.repo[id]);
  }

  // ------------------------------------------------------------- termination

  function WorkLeft(s: State): nat {
    8 * |s.disk.queue| +
    match s.ctl.worker
    case Off => 0
    case Idle => 0
    case Held(_) => 7
    case Announcing(_, AwaitLock) => 6
    case Announcing(_, Sending(_)) => 5
    case Ready(_) => 4
    case Reporting(_, AwaitLock) => 3
    case Reporting(_, Sending(_)) => 2
  }

  lemma WorkerMakesProgress(s: State, a: Action)
    requires Enabled(s, a) && WorkerAction(a)
    ensures WorkLeft(Apply(s, a)) < WorkLeft(s)
  {
  }

  /** Draining terminates: without new submissions the worker takes at most WorkLeft steps, whatever the tasks do. */
  lemma {:induction false} DrainingTerminates(s: State, run: seq<Action>)
    requires Valid(s, run) && forall i | 0 <= i < |run| :: WorkerAction(run[i])
    ensures |run| <= WorkLeft(s)
    decreases |run|
  {
    if run != [] {
      assert WorkerAction(run[0]);
      WorkerMakesProgress(s, run[0]);
      DrainingTerminates(Apply(s, run[0]), run[1..]);
    }
  }

  /** And it stops only when the queue is empty. */
  lemma WorkerStopsOnlyWhenDrained(s: State)
    requires s.ctl.phase.Up? && !s.ctl.worker.Off?
    ensures (forall a | WorkerAction(a) :: !Enabled(s, a)) <==> s.ctl.worker.Idle? && s.disk.queue == []
  {
    var o := Raised("");
    assert WorkerAction(Dequeue) && WorkerAction(Pick) && WorkerAction(WorkerTake) && WorkerAction(WorkerPut)
        && WorkerAction(Run(o));
    assert Enabled(s, Dequeue) || Enabled(s, Pick) || Enabled(s, WorkerTake) || Enabled(s, WorkerPut)
        || Enabled(s, Run(o))
           || (s.ctl.worker.Idle? && s.disk.queue == []);
  }
}
