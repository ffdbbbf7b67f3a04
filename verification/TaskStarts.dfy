/**
  What a start can lead to. For every state in which the manager can be started: when each run up
  to the next stop or crash executes a task at most once, and when each run moves every status
  forward; with the runs that do otherwise.
*/
module TaskStarts {
  import opened Optional
  import opened TaskModel
  import opened TaskProtocol
  import opened TaskInvariants
  import opened TaskTheorems
  import opened TaskLife
  import opened TaskReplay

  // --------------------------------------------------------- executed twice

  ghost predicate EveryLifeAtMostOnce(s: State)
    requires s.ctl.phase.Stopped?
  {
    forall run | LifeRun(run) && Valid(Apply(s, Start), run) ::
      AtMostOnce(After(Apply(s, Start), run).log.fates, |s.log.fates|)
  }

  /** Two places of one known id among everything that waits. */
  ghost predicate NamedTwice(s: State, line: seq<TaskId>, i: nat, j: nat) {
    i < j < |line| && line[i] == line[j] && WillBeKnown(s, line[i])
  }

  lemma InBoth(a: seq<TaskId>, b: seq<TaskId>, c: seq<TaskId>, id: TaskId) returns (i: nat, j: nat)
    requires (id in a && (id in b || id in c)) || (id in b && id in c)
    ensures i < j < |a + b + c| && (a + b + c)[i] == (a + b + c)[j] == id
  {
    var line := a + b + c;
    if id in a {
      i :| i < |a| && a[i] == id;
      if id in b {
        var k: nat :| k < |b| && b[k] == id;
        j := |a| + k;
      } else {
        var k: nat :| k < |c| && c[k] == id;
        j := |a| + |b| + k;
      }
    } else {
      var k: nat :| k < |b| && b[k] == id;
      var l: nat :| l < |c| && c[l] == id;
      i, j := |a| + k, |a| + |b| + l;
    }
  }

  /** If a start is not clean, something that waits is named twice. */
  lemma NotCleanNamesTwice(s: State) returns (pushed: seq<TaskId>, i: nat, j: nat)
    requires Inv(s) && s.ctl.phase.Stopped? && !CleanStart(s)
    ensures Pushable(s, pushed) && NamedTwice(s, Waiting(s, pushed), i, j)
  {
    var queue, back := s.disk.queue, PendingOf(Recoverable(s.disk.created, s.disk.repo), s.disk.repo);
    RecoverablePending(s);
    pushed := [];
    if k, l :| 0 <= k < l < |queue| && queue[k] == queue[l] && WillBeKnown(s, queue[k]) {
      i, j := k, l;
    } else if id :| id in queue && Pending(s.disk.repo, id) {
      i, j := InBoth(queue, back, [], id);
    } else if id :| id in queue && Enqueuing(s.ctl, id) {
      pushed := [id];
      i, j := InBoth(queue, back, pushed, id);
    } else {
      var id :| Enqueuing(s.ctl, id) && Pending(s.disk.repo, id);
      pushed := [id];
      i, j := InBoth(queue, back, pushed, id);
    }
  }

  /** A start that is not clean has a run that executes a task twice. */
  lemma DirtyStartRunsTwice(s: State, o: Outcome) returns (run: seq<Action>)
    requires Inv(s) && s.ctl.phase.Stopped? && !CleanStart(s)
    ensures LifeRun(run) && Valid(Apply(s, Start), run)
    ensures !AtMostOnce(After(Apply(s, Start), run).log.fates, |s.log.fates|)
  {
    var pushed, i, j := NotCleanNamesTwice(s);
    run := DrainEverything(s, pushed, o);
    var n0, fates := |s.log.fates|, After(Apply(s, Start), run).log.fates;
    assert fates[n0 + i].id == fates[n0 + j].id && fates[n0 + i].fate.Executed? && fates[n0 + j].fate.Executed?;
  }

  /**
    Whenever the manager can be started, after a boot or after a stop: every run up to the next
    stop or crash executes each task at most once, if and only if no task is named twice by the
    queue, the rows to recover and the submitters still to enqueue.
  */
  lemma AtMostOnceIffCleanStart(s: State)
    requires Inv(s) && s.ctl.phase.Stopped?
    ensures EveryLifeAtMostOnce(s) <==> CleanStart(s)
  {
    if CleanStart(s) {
      var s1 := Apply(s, Start);
      LifeBegins(s);
      InvInductive(s, Start);
      forall run | LifeRun(run) && Valid(s1, run)
        ensures AtMostOnce(After(s1, run).log.fates, |s.log.fates|)
      {
        OnceAlways(s1, run, |s.log.fates|);
        LifeExecutesAtMostOnce(After(s1, run), |s.log.fates|);
      }
    } else {
      var run := DirtyStartRunsTwice(s, Raised(""));
    }
  }

  /** After a boot this is: the queue that was found holds no unfinished task. */
  lemma AtMostOnceIffQueueClean(s: State)
    requires Inv(s) && Booted(s)
    ensures EveryLifeAtMostOnce(s) <==> CleanQueue(s.disk)
  {
    AtMostOnceIffCleanStart(s);
    BootIsClean(s);
  }

  /** A submission that is still in its enqueue call when the manager is stopped. */
  lemma StoppedDuringSubmitRun(s: State, id: TaskId, request: Request) returns (run: seq<Action>)
    requires Init(s) && Fresh(s, id)
    ensures Valid(s, run)
    ensures var s' := After(s, run);
      Inv(s') && s'.ctl.phase.Stopped? && Enqueuing(s'.ctl, id) && Pending(s'.disk.repo, id)
  {
    OneStep(s, Start);
    var r1 := RecoveringRun(Apply(s, Start));
    RunsCompose(s, [Start], r1);
    var r2 := SubmitThenStop(After(s, [Start] + r1), id, request);
    RunsCompose(s, [Start] + r1, r2);
    run := [Start] + r1 + r2;
    InitInv(s);
    InvAlways(s, run);
  }

  lemma SubmitThenStop(s: State, id: TaskId, request: Request) returns (run: seq<Action>)
    requires s.ctl.phase.Up? && s.ctl.worker.Idle? && Fresh(s, id)
    ensures Valid(s, run)
    ensures var s' := After(s, run); s'.ctl.phase.Stopped? && Enqueuing(s'.ctl, id) && Pending(s'.disk.repo, id)
  {
    run := [Create(id, request), Stop];
    TwoSteps(s, Create(id, request), Stop);
  }

  /** From every boot, whatever the queue: stopping and starting again during a submission can execute it twice. */
  lemma RestartDuringSubmitRunsTwice(s: State, id: TaskId, request: Request, o: Outcome) returns (run: seq<Action>)
    requires Init(s) && Fresh(s, id)
    ensures Valid(s, run) && !AtMostOnce(After(s, run).log.fates, 0)
  {
    var r1 := StoppedDuringSubmitRun(s, id, request);
    var s1 := After(s, r1);
    var r2 := DirtyStartRunsTwice(s1, o);
    OneStep(s1, Start);
    RunsCompose(s1, [Start], r2);
    RunsCompose(s, r1, [Start] + r2);
    run := r1 + ([Start] + r2);
    var fates, n0 := After(s, run).log.fates, |s1.log.fates|;
    var i, j :| n0 <= i < j < |fates| && fates[i].fate.Executed? && fates[j].fate.Executed?
        && fates[i].id == fates[j].id;
  }

  /** The worker left alone executes every task of a life exactly once, and then is idle over an empty queue. */
  lemma DrainingExecutesExactlyOnce(s: State, n0: nat, o: Outcome, id: TaskId) returns (run: seq<Action>)
    requires Inv(s) && Life(s, n0) && s.ctl.worker.Idle? && s.ctl.submitters == map[]
    requires id in s.mem.tasks && id !in s.log.failed
    ensures LifeRun(run) && Valid(s, run) && Quiet(After(s, run))
    ensures ExactlyOnce(After(s, run).log.fates, n0, id)
  {
    run := DrainingRun(s, |s.disk.queue|, o);
    LifeAlways(s, run, n0);
    assert id in After(s, run).mem.tasks;
    QuietMeansExactlyOnce(After(s, run), n0, id);
  }

  // ------------------------------------------------------------ status flow

  ghost predicate FinishedRow(repo: map<TaskId, Record>, id: TaskId) {
    id in repo && Terminal(repo[id].status)
  }

  /** What was executed since n0 is finished, and was executed once. */
  ghost predicate SettledFates(fates: seq<Served>, repo: map<TaskId, Record>, n0: nat) {
    && (forall i | n0 <= i < |fates| && fates[i].fate.Executed? :: FinishedRow(repo, fates[i].id))
    && AtMostOnce(fates, n0)
  }

  ghost predicate Settled(s: State, n0: nat) {
    SettledFates(s.log.fates, s.disk.repo, n0)
  }

  /** One more execution, of a task not finished before and finished after it. */
  lemma SettledGrows(fates: seq<Served>, fates': seq<Served>, repo: map<TaskId, Record>, repo': map<TaskId, Record>,
                     n0: nat)
    requires SettledFates(fates, repo, n0) && n0 <= |fates| <= |fates'| && fates'[..|fates|] == fates
    requires forall id | FinishedRow(repo, id) :: FinishedRow(repo', id)
    requires forall i | |fates| <= i < |fates'| && fates'[i].fate.Executed? ::
               i == |fates| && |fates'| == |fates| + 1 && !FinishedRow(repo, fates'[i].id)
                   && FinishedRow(repo', fates'[i].id)
    ensures SettledFates(fates', repo', n0)
  {
    assert forall i | 0 <= i < |fates| :: fates'[i] == fates[i];
  }

  lemma RunNeedsRunning(s: State, o: Outcome)
    requires MemoryBacked(s.mem.tasks, s.disk.repo) && StatusAgrees(s.mem.tasks, s.disk.repo, s.log.recovered)
    requires WorkerAgrees(s.ctl.phase, s.ctl.worker, s.mem.tasks, s.log.recovered) && Enabled(s, Run(o))
    ensures s.ctl.worker.id in s.disk.repo && s.disk.repo[s.ctl.worker.id].status.Running?
  {
  }

  lemma FatesGrow(s: State, a: Action)
    requires Enabled(s, a)
    ensures var fates, fates' := s.log.fates, Apply(s, a).log.fates;
      && |fates| <= |fates'| && fates'[..|fates|] == fates
      && (forall i | |fates| <= i < |fates'| && fates'[i].fate.Executed? ::
            a.Run? && i == |fates| && s.ctl.worker.Ready? && fates'[i].id == s.ctl.worker.id && |fates'| == |fates| + 1)
  {
  }

  lemma SettledStep(s: State, a: Action, n0: nat)
    requires MemoryBacked(s.mem.tasks, s.disk.repo) && StatusAgrees(s.mem.tasks, s.disk.repo, s.log.recovered)
    requires WorkerAgrees(s.ctl.phase, s.ctl.worker, s.mem.tasks, s.log.recovered)
    requires Settled(s, n0) && n0 <= |s.log.fates| && Enabled(s, a) && StepForward(s, a)
    ensures Settled(Apply(s, a), n0)
  {
    FatesGrow(s, a);
    if a.Run? { RunNeedsRunning(s, a.outcome); }
    SettledGrows(s.log.fates, Apply(s, a).log.fates, s.disk.repo, Apply(s, a).disk.repo, n0);
  }

  /** As long as rows move forward, nothing is executed twice. */
  lemma {:induction false} ForwardRunsSettle(s: State, run: seq<Action>, n0: nat)
    requires Inv(s) && Settled(s, n0) && n0 <= |s.log.fates| && Valid(s, run) && RunForward(s, run)
    ensures Settled(After(s, run), n0)
    decreases |run|
  {
    if run != [] {
      SettledStep(s, run[0], n0);
      FatesGrow(s, run[0]);
      InvInductive(s, run[0]);
      ForwardRunsSettle(Apply(s, run[0]), run[1..], n0);
    }
  }

  ghost predicate NotExecutedSince(fates: seq<Served>, n0: nat, id: TaskId) {
    forall i | n0 <= i < |fates| :: fates[i] != Served(id, Executed)
  }

  /** As long as rows move forward, a finished task is not executed. */
  lemma {:induction false} ForwardSkipsFinished(s: State, run: seq<Action>, n0: nat, id: TaskId)
    requires Inv(s) && Valid(s, run) && RunForward(s, run) && n0 <= |s.log.fates|
    requires id in s.disk.repo && Terminal(s.disk.repo[id].status) && NotExecutedSince(s.log.fates, n0, id)
    ensures NotExecutedSince(After(s, run).log.fates, n0, id)
    decreases |run|
  {
    if run != [] {
      var s1 := Apply(s, run[0]);
      FatesGrow(s, run[0]);
      assert forall i | 0 <= i < |s.log.fates| :: s1.log.fates[i] == s.log.fates[i];
      if run[0].Run? { RunNeedsRunning(s, run[0].outcome); }
      InvInductive(s, run[0]);
      assert StepForward(s, run[0]);
      ForwardSkipsFinished(s1, run[1..], n0, id);
    }
  }

  ghost predicate EveryLifeForward(s: State)
    requires s.ctl.phase.Stopped?
  {
    forall run | LifeRun(run) && Valid(Apply(s, Start), run) :: RunForward(Apply(s, Start), run)
  }

  /** A finished task that waits, or is still to be enqueued, has a run that takes its status back. */
  lemma FinishedWaitingGoesBack(s: State, id: TaskId, o: Outcome) returns (run: seq<Action>)
    requires Inv(s) && s.ctl.phase.Stopped? && id in s.mem.tasks && id in s.disk.repo
              && Terminal(s.disk.repo[id].status)
    requires id in s.disk.queue || Enqueuing(s.ctl, id)
    ensures LifeRun(run) && Valid(Apply(s, Start), run) && !RunForward(Apply(s, Start), run)
  {
    var pushed := if id in s.disk.queue then [] else [id];
    run := DrainAndExecute(s, pushed, o, id);
    InvInductive(s, Start);
    if RunForward(Apply(s, Start), run) {
      ForwardSkipsFinished(Apply(s, Start), run, |s.log.fates|, id);
    }
  }

  lemma DrainAndExecute(s: State, pushed: seq<TaskId>, o: Outcome, id: TaskId) returns (run: seq<Action>)
    requires Inv(s) && s.ctl.phase.Stopped? && Pushable(s, pushed) && id in s.mem.tasks && id in Waiting(s, pushed)
    ensures LifeRun(run) && Valid(Apply(s, Start), run)
    ensures !NotExecutedSince(After(Apply(s, Start), run).log.fates, |s.log.fates|, id)
  {
    run := DrainEverything(s, pushed, o);
    var line, n0 := Waiting(s, pushed), |s.log.fates|;
    var i :| 0 <= i < |line| && line[i] == id;
    assert After(Apply(s, Start), run).log.fates[n0 + i] == Served(id, Executed);
  }

  /** A task named twice has a run that takes its status back. */
  lemma DirtyStartGoesBack(s: State, o: Outcome) returns (run: seq<Action>)
    requires Inv(s) && s.ctl.phase.Stopped? && !CleanStart(s)
    ensures LifeRun(run) && Valid(Apply(s, Start), run) && !RunForward(Apply(s, Start), run)
  {
    run := DirtyStartRunsTwice(s, o);
    InvInductive(s, Start);
    if RunForward(Apply(s, Start), run) {
      ForwardRunsSettle(Apply(s, Start), run, |s.log.fates|);
    }
  }

  /**
    Whenever the manager can be started: every run up to the next stop or crash moves every
    status queued, running, completed or failed and never back, if and only if no task is named
    twice by what waits, and no finished one is named at all.
  */
  lemma ForwardIffCleanStart(s: State)
    requires Inv(s) && s.ctl.phase.Stopped?
    ensures EveryLifeForward(s) <==> CleanStart(s) && NoneFinished(s)
  {
    if !CleanStart(s) {
      var run := DirtyStartGoesBack(s, Raised(""));
    } else if !NoneFinished(s) {
      var id :| id in s.mem.tasks && id in s.disk.repo && Terminal(s.disk.repo[id].status)
        && (id in s.disk.queue || Enqueuing(s.ctl, id));
      var run := FinishedWaitingGoesBack(s, id, Raised(""));
    } else {
      LifeBegins(s);
      InvInductive(s, Start);
      forall run | LifeRun(run) && Valid(Apply(s, Start), run) ensures RunForward(Apply(s, Start), run) {
        LifeMovesForward(Apply(s, Start), run, |s.log.fates|);
      }
    }
  }

  /** After a boot this is: the queue that was found holds no unfinished task. */
  lemma ForwardIffQueueClean(s: State)
    requires Inv(s) && Booted(s)
    ensures EveryLifeForward(s) <==> CleanQueue(s.disk)
  {
    ForwardIffCleanStart(s);
    BootIsClean(s);
  }

  // ------------------------------------------- twice means a finished task ran

  lemma {:induction false} NoRerunIsForward(s: State, run: seq<Action>)
    requires Inv(s) && Valid(s, run) && After(s, run).log.rerun == {}
    ensures RunForward(s, run)
    decreases |run|
  {
    if run != [] {
      StepForwardIff(s, run[0]);
      InvInductive(s, run[0]);
      RerunGrows(Apply(s, run[0]), run[1..]);
      NoRerunIsForward(Apply(s, run[0]), run[1..]);
    }
  }

  lemma {:induction false} RerunGrows(s: State, run: seq<Action>)
    requires Valid(s, run)
    ensures s.log.rerun <= After(s, run).log.rerun
    decreases |run|
  {
    if run != [] {
      RerunGrows(Apply(s, run[0]), run[1..]);
    }
  }

  /** Across any stops and crashes, a task executed twice was picked up while its row was terminal. */
  lemma TwiceMeansRerun(s: State)
    requires Reachable(s) && !AtMostOnce(s.log.fates, 0)
    ensures s.log.rerun != {}
  {
    var s0, run :| Init(s0) && Valid(s0, run) && After(s0, run) == s;
    InitInv(s0);
    if s.log.rerun == {} {
      NoRerunIsForward(s0, run);
      ForwardRunsSettle(s0, run, 0);
    }
  }
}
