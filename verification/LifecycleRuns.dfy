/** Runs from power-on into the start window of core 1: the states that the exact conditions of Lifecycle single out
    are reached. */
module LifecycleRuns {
  import opened Lifecycle

  /** The run leads from s0 to s, and no launching create in it is begun in the window. */
  ghost predicate Path(s0: State, run: seq<Action>, s: State)
  {
    IsRun(s0, run) && Patient(s0, run) && After(s0, run) == s
  }

  lemma {:induction false} Extended(s0: State, run: seq<Action>, s: State, a: Action)
    requires Path(s0, run, s) && Enabled(s, a) && (Launches(s, a) ==> !InWindow(s))
    ensures Path(s0, run + [a], Step(s, a))
    decreases |run|
  {
    if run == [] {
      assert (run + [a])[1..] == [];
      assert IsRun(Step(s, a), []) && Patient(Step(s, a), []);
    } else {
      assert (run + [a])[1..] == run[1..] + [a];
      Extended(Step(s0, run[0]), run[1..], s, a);
    }
  }

  lemma Extend(s0: State, run: seq<Action>, s: State, a: Action) returns (run': seq<Action>, s': State)
    requires Path(s0, run, s) && Enabled(s, a) && (Launches(s, a) ==> !InWindow(s))
    ensures run' == run + [a] && s' == Step(s, a) && Path(s0, run', s')
  {
    Extended(s0, run, s, a);
    run', s' := run + [a], Step(s, a);
  }

  lemma PathKeepsInv(s0: State, run: seq<Action>, s: State)
    requires Initial(s0) && Path(s0, run, s)
    ensures Inv(s)
  {
    ReachableInv(s0, run);
  }

  /** core 0 in its own code, core 1 as given, n creates so far. */
  predicate Between(s: State, core1: Core1, n: nat, calls: seq<Job>, entered: seq<Job>)
  {
    s.core0.InCode? && s.core1 == core1 && s.createCount == n && s.calls == calls && s.entered == entered
  }

  /** pthread_create of a backup thread: the counter and nothing else. */
  lemma Skip(s0: State, run: seq<Action>, s: State, job: Job) returns (run': seq<Action>, s': State)
    requires Initial(s0) && Path(s0, run, s) && s.core0.InCode? && s.createCount % 2 == 0
    ensures Path(s0, run', s') && s' == s.(createCount := s.createCount + 1)
  {
    PathKeepsInv(s0, run, s);
    run', s' := Extend(s0, run, s, Create(job));
  }

  /** A launching create, up to the instant at which core 0 has stored the job and cleared core1_started. */
  lemma Announce(s0: State, run: seq<Action>, s: State, job: Job) returns (run': seq<Action>, s': State)
    requires Initial(s0) && Path(s0, run, s) && s.core0.InCode? && s.createCount % 2 == 1 && !InWindow(s)
    ensures Path(s0, run', s')
    ensures var next := if s.createCount > 1 then AwaitFinished else Launch;
            s' == s.(createCount := s.createCount + 1, calls := s.calls + [job], entryFunction := job.f,
                     entryArgument := job.arg, started := false, core0 := next)
  {
    PathKeepsInv(s0, run, s);
    run', s' := Extend(s0, run, s, Create(job));
    run', s' := Extend(s0, run', s', Advance0);
    run', s' := Extend(s0, run', s', Advance0);
    run', s' := Extend(s0, run', s', Advance0);
  }

  /** Reset and the clearing of the TLS slots, up to the launch. */
  lemma Relaunch(s0: State, run: seq<Action>, s: State) returns (run': seq<Action>, s': State)
    requires Initial(s0) && Path(s0, run, s) && s.core0.AwaitFinished? && s.finished
    ensures Path(s0, run', s') && s'.core0.Launch? && s'.core1.Off? && s'.finished && !s'.started
    ensures s'.createCount == s.createCount && s'.calls == s.calls && s'.entered == s.entered
  {
    PathKeepsInv(s0, run, s);
    run', s' := Extend(s0, run, s, Advance0);
    run', s' := Extend(s0, run', s', Advance0);
    while s'.core0 != Launch
      invariant Path(s0, run', s') && Shaped(s') && !s'.started
      invariant s'.core0.Launch? || (s'.core0.ClearTls? && s'.core0.i <= MAX_TLS_KEYS)
      invariant s'.core1.Off? && s'.finished
      invariant s'.createCount == s.createCount && s'.calls == s.calls && s'.entered == s.entered
      decreases if s'.core0.ClearTls? then MAX_TLS_KEYS - s'.core0.i + 1 else 0
    {
      run', s' := Extend(s0, run', s', Advance0);
    }
  }

  /** core 1 is launched and announces itself, and the create returns. */
  lemma Start(s0: State, run: seq<Action>, s: State) returns (run': seq<Action>, s': State)
    requires Initial(s0) && Path(s0, run, s) && s.core0.Launch?
    ensures Path(s0, run', s') && s' == s.(core0 := InCode, core1 := ClearingFinished, started := true)
  {
    PathKeepsInv(s0, run, s);
    run', s' := Extend(s0, run, s, Advance0);
    run', s' := Extend(s0, run', s', Advance1);
    run', s' := Extend(s0, run', s', Advance0);
  }

  /** From the window to the final wait loop, with a body that returns at once. */
  lemma Finish(s0: State, run: seq<Action>, s: State) returns (run': seq<Action>, s': State)
    requires Initial(s0) && Path(s0, run, s) && s.core0.InCode? && s.core1.ReadingEntry?
    ensures Path(s0, run', s')
    ensures s'.finished
    ensures Between(s', Parked, s.createCount, s.calls, s.entered + [Job(s.entryFunction, s.entryArgument)])
  {
    PathKeepsInv(s0, run, s);
    run', s' := Extend(s0, run, s, Advance1);
    run', s' := Extend(s0, run', s', BodyReturns);
    run', s' := Park(s0, run', s');
  }

  lemma Park(s0: State, run: seq<Action>, s: State) returns (run': seq<Action>, s': State)
    requires Initial(s0) && Path(s0, run, s) && s.core0.InCode? && CleaningUp(s.core1)
    ensures Path(s0, run', s') && Between(s', Parked, s.createCount, s.calls, s.entered) && s'.finished
  {
    run', s' := run, s;
    PathKeepsInv(s0, run', s');
    while s'.core1 != Parked
      invariant Path(s0, run', s') && Inv(s') && CleaningUp(s'.core1)
      invariant Between(s', s'.core1, s.createCount, s.calls, s.entered)
      decreases CleanWork(s')
    {
      CleanUpProgresses(s');
      run', s' := Extend(s0, run', s', Advance1);
      PathKeepsInv(s0, run', s');
    }
  }

  /** The window of the first launch is reached. */
  lemma FirstWindow(s0: State, job: Job) returns (run: seq<Action>, s: State)
    requires Initial(s0)
    ensures Path(s0, run, s) && Between(s, ClearingFinished, 2, [job], [])
    ensures Job(s.entryFunction, s.entryArgument) == job
  {
    run, s := [], s0;
    run, s := Skip(s0, run, s, job);
    run, s := Announce(s0, run, s, job);
    PathKeepsInv(s0, run, s);
    run, s := Start(s0, run, s);
  }

  /** Both halves of the window are reached with a launching create next, so LaunchIsSafeIff excludes something. */
  lemma WindowReached(s0: State, first: Job, second: Job)
      returns (clearing: seq<Action>, s: State, reading: seq<Action>, s': State)
    requires Initial(s0)
    ensures Path(s0, clearing, s) && Between(s, ClearingFinished, 3, [first], []) && Launches(s, Create(second))
    ensures Path(s0, reading, s') && Between(s', ReadingEntry, 3, [first], []) && Launches(s', Create(second))
  {
    clearing, s := FirstWindow(s0, first);
    clearing, s := Skip(s0, clearing, s, first);
    PathKeepsInv(s0, clearing, s);
    reading, s' := Extend(s0, clearing, s, Advance1);
  }

  /** A job is lost on a run from power-on: the first body core 1 enters is the second job. */
  lemma JobLost(s0: State, first: Job, second: Job) returns (run: seq<Action>)
    requires Initial(s0) && first != second
    ensures IsRun(s0, run) && After(s0, run).calls == [first, second] && After(s0, run).entered == [second]
  {
    var clearing, s, reading, s' := WindowReached(s0, first, second);
    PathKeepsInv(s0, clearing, s);
    var s1 := Step(s, Create(second));
    ReadsNewJob(s1, second);
    run := clearing + ([Create(second)] + Overtaking(s1.core1));
    assert ([Create(second)] + Overtaking(s1.core1))[1..] == Overtaking(s1.core1);
    Joined(s0, clearing, [Create(second)] + Overtaking(s1.core1));
  }

  lemma {:induction false} Joined(s: State, run: seq<Action>, more: seq<Action>)
    requires IsRun(s, run) && IsRun(After(s, run), more)
    ensures IsRun(s, run + more) && After(s, run + more) == After(After(s, run), more)
    decreases |run|
  {
    if run == [] {
      assert run + more == more;
    } else {
      assert (run + more)[1..] == run[1..] + more;
      Joined(Step(s, run[0]), run[1..], more);
    }
  }

  /** A join overtakes the start on a run from power-on: begun and ended in the window of the second launch, it returns
      on the flag of the first job although the second body has not begun. */
  lemma JoinOvertakesStart(s0: State, first: Job, second: Job)
      returns (before: seq<Action>, s: State, run: seq<Action>, s': State)
    requires Initial(s0)
    ensures Path(s0, before, s) && s.core0.Joining? && FlagIsStale(s)
    ensures run == before + [Advance0] && Path(s0, run, s')
    ensures Between(s', ClearingFinished, 4, [first, second], [first])
  {
    before, s := FirstWindow(s0, first);
    PathKeepsInv(s0, before, s);
    before, s := Extend(s0, before, s, Advance1);
    before, s := Finish(s0, before, s);
    before, s := Skip(s0, before, s, second);
    before, s := Announce(s0, before, s, second);
    before, s := Relaunch(s0, before, s);
    before, s := Start(s0, before, s);
    PathKeepsInv(s0, before, s);
    before, s := Extend(s0, before, s, Join(2));
    run, s' := Extend(s0, before, s, Advance0);
  }
}
