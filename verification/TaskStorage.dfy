/**
  The two branches of `update_status`, compared over whole runs. The dictionary merges the
  fields it is given, the ORM overwrites them all; the two agree as long as no finished task
  is executed again, and disagree from the first time one is.
*/
module TaskStorage {
  import opened Optional
  import opened TaskModel
  import opened TaskProtocol
  import opened TaskInvariants
  import opened TaskTheorems
  import opened TaskReplay
  import opened TaskStarts

  /** Two systems take the same actions and hold the same table before and after each of them. */
  ghost predicate Lockstep(s: State, d: State, run: seq<Action>)
    decreases |run|
  {
    && s.disk.repo == d.disk.repo
    && (run == [] || (Enabled(s, run[0]) && Enabled(d, run[0])
        && Lockstep(Apply(s, run[0]), Apply(d, run[0]), run[1..])))
  }

  lemma StepAgrees(s: State, a: Action)
    requires Inv(s) && s.storage.InMemory? && s.log.rerun == {} && Enabled(s, a)
    ensures Enabled(s.(storage := Database), a)
    ensures Apply(s, a).storage.InMemory?
    ensures Apply(s, a).log.rerun == {} ==> Apply(s.(storage := Database), a) == Apply(s, a).(storage := Database)
    ensures Apply(s, a).log.rerun != {} ==> Apply(s.(storage := Database), a).disk.repo != Apply(s, a).disk.repo
  {
    var d := s.(storage := Database);
    match a {
      case Pick =>
        var id := s.ctl.worker.id;
        if id in s.mem.tasks {
          assert id in s.disk.repo && ShapeOk(s.disk.repo[id]);
          assert Apply(s, a).disk.repo[id] == Apply(d, a).disk.repo[id] <==> !Terminal(s.disk.repo[id].status);
          assert Apply(s, a).log.rerun == {} ==> Apply(s, a).disk.repo == Apply(d, a).disk.repo;
        }
      case Run(outcome) =>
        var id := s.ctl.worker.id;
        assert id in s.disk.repo && ShapeOk(s.disk.repo[id]);
        assert Apply(s, a).disk.repo == Apply(d, a).disk.repo;
      case _ =>
    }
  }

  lemma {:induction false} LockstepIffNoRerun(s: State, run: seq<Action>)
    requires Inv(s) && s.storage.InMemory? && s.log.rerun == {} && Valid(s, run)
    ensures Lockstep(s, s.(storage := Database), run) <==> After(s, run).log.rerun == {}
    decreases |run|
  {
    if run != [] {
      var s1 := Apply(s, run[0]);
      StepAgrees(s, run[0]);
      InvInductive(s, run[0]);
      if s1.log.rerun == {} {
        LockstepIffNoRerun(s1, run[1..]);
      } else {
        RerunGrows(s1, run[1..]);
      }
    }
  }

  /**
    A run drives the dictionary and the ORM through equal tables, step by step, if and only if
    the worker never picks up a task whose row is already terminal.
  */
  lemma StoragesAgreeIffNoRerun(s: State, run: seq<Action>)
    requires Init(s) && s.storage.InMemory? && Valid(s, run)
    ensures Lockstep(s, s.(storage := Database), run) <==> After(s, run).log.rerun == {}
  {
    InitInv(s);
    LockstepIffNoRerun(s, run);
  }

  /** Such runs exist from every boot over a queue that holds an unfinished task. */
  lemma DirtyQueueSeparatesStorages(s: State, id: TaskId) returns (run: seq<Action>)
    requires Init(s) && s.storage.InMemory? && id in s.disk.queue && Pending(s.disk.repo, id)
    ensures Valid(s, run) && !Lockstep(s, s.(storage := Database), run)
  {
    InitInv(s);
    var life := DirtyStartRunsTwice(s, Raised(""));
    OneStep(s, Start);
    RunsCompose(s, [Start], life);
    run := [Start] + life;
    TwiceMeansRerun(After(s, run));
    StoragesAgreeIffNoRerun(s, run);
  }
}
