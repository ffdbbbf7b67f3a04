/**
  The longest a life can be driven: the run in which recovery re-enqueues everything, a submitter
  ends its enqueue and the worker drains the queue, and what it leaves.
*/
module TaskReplay {
  import opened Optional
  import opened TaskModel
  import opened TaskProtocol
  import opened TaskInvariants
  import opened TaskTheorems
  import opened TaskLife

  // ---------------------------------------------------------------- draining

  /** A finished publication: only subscriber queues and the worker's counter have changed. */
  lemma PublishingRun(s: State) returns (run: seq<Action>)
    requires Enabled(s, WorkerTake)
    ensures LifeRun(run) && Valid(s, run)
    ensures var s' := After(s, run);
      && s'.disk == s.disk && s'.log == s.log && s'.storage == s.storage && s'.mem.tasks == s.mem.tasks
      && s'.ctl == s.ctl.(worker := Published(s.ctl.worker))
  {
    if SubsOf(s.mem.subs, s.ctl.worker.id) == {} {
      run := [WorkerTake];
      OneStep(s, WorkerTake);
    } else {
      run := [WorkerTake, WorkerPut];
      TwoSteps(s, WorkerTake, WorkerPut);
    }
  }

  function FateOf(id: TaskId, known: set<TaskId>): Served {
    Served(id, if id in known then Executed else Dropped)
  }

  function FatesOf(ids: seq<TaskId>, known: set<TaskId>): seq<Served> {
    seq(|ids|, i requires 0 <= i < |ids| => FateOf(ids[i], known))
  }

  /** The envelopes after these tasks have ended with outcome o. */
  function Ended(tasks: map<TaskId, Envelope>, ids: seq<TaskId>, o: Outcome): map<TaskId, Envelope> {
    map id | id in tasks :: if id in ids then FinishedEnvelope(tasks[id], o) else tasks[id]
  }

  lemma EndedHolds(tasks: map<TaskId, Envelope>, ids: seq<TaskId>, o: Outcome)
    ensures forall id | id in ids && id in tasks :: EnvelopeHolds(Ended(tasks, ids, o)[id], o)
    ensures forall id | id in tasks && id !in ids :: Ended(tasks, ids, o)[id] == tasks[id]
  {
  }

  lemma NextFates(all: seq<TaskId>, n: nat, known: set<TaskId>)
    requires n < |all|
    ensures FatesOf(all[..n + 1], known) == FatesOf(all[..n], known) + [FateOf(all[n], known)]
    ensures all[n..][1..] == all[n + 1..] && all[n..][0] == all[n]
  {
  }

  /** Between s and s' the worker served these ids, each with outcome o. */
  ghost predicate ServedAll(s: State, s': State, ids: seq<TaskId>, o: Outcome) {
    && s'.ctl == s.ctl && s'.log.failed == s.log.failed
    && s'.storage == s.storage && s'.log.recovered <= s.log.recovered
    && s'.log.fates == s.log.fates + FatesOf(ids, s.mem.tasks.Keys)
    && s'.mem.tasks == Ended(s.mem.tasks, ids, o)
  }

  lemma ServedOneMore(s: State, m: State, s': State, ids: seq<TaskId>, id: TaskId, o: Outcome)
    requires ServedAll(s, m, ids, o) && ServedAll(m, s', [id], o)
    ensures ServedAll(s, s', ids + [id], o)
  {
    assert FatesOf(ids + [id], s.mem.tasks.Keys) == FatesOf(ids, s.mem.tasks.Keys) + FatesOf([id], s.mem.tasks.Keys);
    assert m.mem.tasks.Keys == s.mem.tasks.Keys;
    assert forall x :: x in ids + [id] <==> x in ids || x == id;
  }

  /** The rest of a turn of the worker loop, once the envelope has been found. */
  lemma ExecutingRun(s: State, o: Outcome) returns (run: seq<Action>)
    requires s.ctl.worker.Announcing? && s.ctl.worker.pub.AwaitLock? && s.ctl.worker.id in s.mem.tasks
    ensures LifeRun(run) && Valid(s, run)
    ensures var s' := After(s, run); var id := s.ctl.worker.id;
      && s'.ctl == s.ctl.(worker := Idle) && s'.disk.queue == s.disk.queue
      && s'.storage == s.storage && s'.log == s.log.(fates := s.log.fates + [Served(id, Executed)])
      && s'.mem.tasks == s.mem.tasks[id := FinishedEnvelope(s.mem.tasks[id], o)]
  {
    var r1 := PublishingRun(s);
    var s1 := After(s, r1);
    OneStep(s1, Run(o));
    RunsCompose(s, r1, [Run(o)]);
    var s2 := Apply(s1, Run(o));
    var r2 := PublishingRun(s2);
    RunsCompose(s, r1 + [Run(o)], r2);
    run := r1 + [Run(o)] + r2;
  }

  /** One turn of the worker loop on the head of the queue. */
  lemma ServingRun(s: State, o: Outcome) returns (run: seq<Action>)
    requires Enabled(s, Dequeue)
    ensures LifeRun(run) && Valid(s, run)
    ensures After(s, run).disk.queue == s.disk.queue[1..]
    ensures ServedAll(s, After(s, run), [s.disk.queue[0]], o)
  {
    TwoSteps(s, Dequeue, Pick);
    run := [Dequeue, Pick];
    var s2 := After(s, run);
    var id := s.disk.queue[0];
    if id in s.mem.tasks {
      var r := ExecutingRun(s2, o);
      RunsCompose(s, run, r);
      run := run + r;
      EndedOne(s.mem.tasks, id, o);
    } else {
      assert Ended(s.mem.tasks, [id], o) == s.mem.tasks;
    }
  }

  lemma EndedOne(tasks: map<TaskId, Envelope>, id: TaskId, o: Outcome)
    requires id in tasks
    ensures Ended(tasks, [id], o) == tasks[id := FinishedEnvelope(tasks[id].(status := Running), o)]
  {
  }

  /** The worker left alone until it has served the first n of the queue. */
  lemma {:induction false} DrainingRun(s: State, n: nat, o: Outcome) returns (run: seq<Action>)
    requires s.ctl.worker.Idle? && n <= |s.disk.queue|
    ensures LifeRun(run) && Valid(s, run)
    ensures After(s, run).disk.queue == s.disk.queue[n..]
    ensures ServedAll(s, After(s, run), s.disk.queue[..n], o)
    ensures forall id | id in s.disk.queue[..n] && id in s.mem.tasks ::
              id in After(s, run).mem.tasks && EnvelopeHolds(After(s, run).mem.tasks[id], o)
    decreases n
  {
    run := [];
    if n > 0 {
      run := DrainingRun(s, n - 1, o);
      var m := After(s, run);
      var last := ServingRun(m, o);
      RunsCompose(s, run, last);
      run := run + last;
      var id := s.disk.queue[n - 1];
      assert s.disk.queue[..n - 1] + [id] == s.disk.queue[..n];
      assert [m.disk.queue[0]] == [id] && m.disk.queue[1..] == s.disk.queue[n..];
      ServedOneMore(s, m, After(s, run), s.disk.queue[..n - 1], id, o);
      EndedHolds(s.mem.tasks, s.disk.queue[..n], o);
    } else {
      assert Ended(s.mem.tasks, [], o) == s.mem.tasks;
      assert s.disk.queue[..0] == [];
    }
  }

  // ---------------------------------------------------------------- recovery

  function PendingOf(ids: seq<TaskId>, repo: map<TaskId, Record>): seq<TaskId> {
    if ids == [] then []
    else (if ids[0] in repo && repo[ids[0]].request.Some? then [ids[0]] else []) + PendingOf(ids[1..], repo)
  }

  lemma PendingOfSpec(ids: seq<TaskId>, repo: map<TaskId, Record>)
    ensures forall id :: id in PendingOf(ids, repo) <==> id in ids && id in repo && repo[id].request.Some?
  {
  }

  lemma {:induction false} PendingOfConcat(a: seq<TaskId>, b: seq<TaskId>, repo: map<TaskId, Record>)
    ensures PendingOf(a + b, repo) == PendingOf(a, repo) + PendingOf(b, repo)
  {
    if a == [] {
      assert a + b == b;
    } else {
      PendingOfConcat(a[1..], b, repo);
      assert (a + b)[1..] == a[1..] + b && (a + b)[0] == a[0];
    }
  }

  /** Between s and s' exactly these ids were loaded and enqueued. */
  ghost predicate Restored(s: State, s': State, back: seq<TaskId>) {
    && s'.disk == s.disk.(queue := s.disk.queue + back)
    && s'.ctl.submitters == s.ctl.submitters && s'.storage == s.storage
    && s'.log.fates == s.log.fates && s'.mem.streams == s.mem.streams
    && (forall id :: id in s'.mem.tasks <==> id in s.mem.tasks || id in back)
    && (forall id | id in s.mem.tasks && id !in back :: s'.mem.tasks[id] == s.mem.tasks[id])
  }

  lemma RestoredTwice(s: State, m: State, s': State, a: seq<TaskId>, b: seq<TaskId>)
    requires Restored(s, m, a) && Restored(m, s', b)
    ensures Restored(s, s', a + b)
  {
    assert s.disk.queue + (a + b) == (s.disk.queue + a) + b;
  }

  /** One turn of the recovery loop, when the enqueue does not raise. */
  lemma RecoverOneRun(s: State) returns (run: seq<Action>)
    requires Enabled(s, RecoverLoad)
    ensures LifeRun(run) && Valid(s, run)
    ensures After(s, run).ctl == s.ctl.(phase := Recovering(s.ctl.phase.rest[1..], false))
    ensures Restored(s, After(s, run), PendingOf(s.ctl.phase.rest[..1], s.disk.repo))
  {
    var id := s.ctl.phase.rest[0];
    assert s.ctl.phase.rest[..1] == [id];
    if id in s.disk.repo && s.disk.repo[id].request.Some? {
      run := [RecoverLoad, RecoverPush];
      TwoSteps(s, RecoverLoad, RecoverPush);
    } else {
      run := [RecoverLoad];
      OneStep(s, RecoverLoad);
    }
  }

  /** Recovery when no enqueue raises: every row that parses is loaded and appended to the queue, in order. */
  lemma {:induction false} RecoveringRun(s: State) returns (run: seq<Action>)
    requires s.ctl.phase.Recovering? && !s.ctl.phase.loaded
    ensures LifeRun(run) && Valid(s, run)
    ensures After(s, run).ctl.worker.Idle? && After(s, run).ctl.phase.Up?
    ensures Restored(s, After(s, run), PendingOf(s.ctl.phase.rest, s.disk.repo))
    decreases |s.ctl.phase.rest|
  {
    if s.ctl.phase.rest == [] {
      run := [BeginServing];
      OneStep(s, BeginServing);
    } else {
      var r1 := RecoverOneRun(s);
      var s1 := After(s, r1);
      var r2 := RecoveringRun(s1);
      RunsCompose(s, r1, r2);
      run := r1 + r2;
      var rest, repo := s.ctl.phase.rest, s.disk.repo;
      RestoredTwice(s, s1, After(s, run), PendingOf(rest[..1], repo), PendingOf(rest[1..], repo));
      PendingOfConcat(rest[..1], rest[1..], repo);
      assert rest[..1] + rest[1..] == rest;
    }
  }

  // ---------------------------------------------------- everything that waits

  /** A submitter that may still be in its enqueue call. */
  ghost predicate Pushable(s: State, pushed: seq<TaskId>) {
    pushed == [] || (|pushed| == 1 && Enqueuing(s.ctl, pushed[0]))
  }

  /** What the worker will be given: the queue, the tasks to recover, and perhaps a submitted one. */
  function Waiting(s: State, pushed: seq<TaskId>): seq<TaskId> {
    s.disk.queue + PendingOf(Recoverable(s.disk.created, s.disk.repo), s.disk.repo) + pushed
  }

  /** The state in which everything waits in the queue and the worker has done nothing yet. */
  ghost predicate AllQueued(s: State, s': State, pushed: seq<TaskId>) {
    && s'.ctl.worker.Idle? && s'.disk.queue == Waiting(s, pushed) && s'.log.fates == s.log.fates
    && s'.storage == s.storage && s'.disk.repo == s.disk.repo
    && (forall id :: id in s'.mem.tasks <==> WillBeKnown(s, id))
    && (forall id | id in s.mem.tasks && !Pending(s.disk.repo, id) :: s'.mem.tasks[id] == s.mem.tasks[id])
  }

  lemma RecoverablePending(s: State)
    requires TableListed(s.disk)
    ensures forall id ::
              id in PendingOf(Recoverable(s.disk.created, s.disk.repo), s.disk.repo) <==> Pending(s.disk.repo, id)
  {
    RecoverableSpec(s.disk.created, s.disk.repo);
    PendingOfSpec(Recoverable(s.disk.created, s.disk.repo), s.disk.repo);
  }

  /** Recovery alone. */
  lemma FillingByRecovery(s: State) returns (run: seq<Action>)
    requires TableListed(s.disk) && s.ctl.phase.Stopped?
    ensures LifeRun(run) && Valid(Apply(s, Start), run)
    ensures AllQueued(s, After(Apply(s, Start), run), [])
    ensures After(Apply(s, Start), run).ctl.submitters == s.ctl.submitters
  {
    RecoverablePending(s);
    run := RecoveringRun(Apply(s, Start));
    var queue := s.disk.queue + PendingOf(Recoverable(s.disk.created, s.disk.repo), s.disk.repo);
    assert queue + [] == queue;
  }

  lemma FillingRun(s: State, pushed: seq<TaskId>) returns (run: seq<Action>)
    requires TableListed(s.disk) && s.ctl.phase.Stopped? && Pushable(s, pushed)
    ensures LifeRun(run) && Valid(Apply(s, Start), run)
    ensures AllQueued(s, After(Apply(s, Start), run), pushed)
  {
    run := FillingByRecovery(s);
    if pushed != [] {
      var s1, push := Apply(s, Start), SubmitPush(pushed[0]);
      var s2 := After(s1, run);
      OneStep(s2, push);
      RunsCompose(s1, run, [push]);
      run := run + [push];
      assert Waiting(s, []) + [pushed[0]] == Waiting(s, pushed);
    }
  }

  /** A run in which the worker serves everything that waits. */
  lemma DrainEverything(s: State, pushed: seq<TaskId>, o: Outcome) returns (run: seq<Action>)
    requires Inv(s) && s.ctl.phase.Stopped? && Pushable(s, pushed)
    ensures LifeRun(run) && Valid(Apply(s, Start), run)
    ensures var fates := After(Apply(s, Start), run).log.fates;
      && |fates| == |s.log.fates| + |Waiting(s, pushed)|
      && forall i | 0 <= i < |Waiting(s, pushed)| && WillBeKnown(s, Waiting(s, pushed)[i]) ::
           fates[|s.log.fates| + i] == Served(Waiting(s, pushed)[i], Executed)
  {
    var s1 := Apply(s, Start);
    run := FillingRun(s, pushed);
    var s2 := After(s1, run);
    var line := Waiting(s, pushed);
    var last := DrainingRun(s2, |line|, o);
    RunsCompose(s1, run, last);
    run := run + last;
    assert line[..|line|] == line;
  }
}
