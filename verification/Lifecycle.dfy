/** Launching, finishing and relaunching core 1: pthread_create, pthread_join and core1_wrapper of ocaml_stubs.c as
    two program counters interleaved step by step. */
module Lifecycle {
  import opened Locks

  const MAX_TLS_KEYS: nat := 16
  const NULL: int := 0

  /** A function pointer and its argument, as passed to pthread_create. */
  datatype Job = Job(f: int, arg: int)

  /** core 1: powered but not launched; at one of the three lines that open core1_wrapper (set core1_started, clear
      core1_finished, read the entry function and its argument); in the body of a job; in the clean-up loop at slot
      i; about to set core1_finished; in the final wait loop. */
  datatype Core1 =
    | Off
    | Starting
    | ClearingFinished
    | ReadingEntry
    | Body(job: Job)
    | Cleaning(i: nat)
    | Finishing
    | Parked

  /** core 0: in its own code, or at a line of pthread_create or pthread_join. */
  datatype Core0 =
    | InCode
    | StoreFunction(job: Job)
    | StoreArgument(job: Job)
    | ClearStarted
    | AwaitFinished
    | Reset
    | ClearTls(i: nat)
    | Launch
    | AwaitStarted
    | Joining

  /** counts1 is held_counts[1]; a lock or unlock by the body is one step here, update of the count included. calls,
      entered and returned are history: the jobs of the even-numbered creates, the jobs core 1 entered, and how many
      bodies have returned. */
  datatype State = State(
    createCount: nat,
    entryFunction: int,
    entryArgument: int,
    started: bool,
    finished: bool,
    core0: Core0,
    core1: Core1,
    tls1: seq<int>,
    mutexes: seq<Mutex>,
    counts1: seq<nat>,
    calls: seq<Job>,
    entered: seq<Job>,
    returned: nat)

  datatype Action =
    | Create(job: Job)
    | Join(thread: int)
    | Advance0
    | MutexOp0(i: nat, enter: bool)
    | Advance1
    | MutexOp1(i: nat, enter: bool)
    | SetTls(key: nat, value: int)
    | BodyReturns

  /** The window in which core 1 has announced itself but not read its job yet. */
  predicate InWindow(s: State)
  {
    s.core1.ClearingFinished? || s.core1.ReadingEntry?
  }

  predicate Shaped(s: State)
  {
    |s.mutexes| == |s.counts1| == MAX_MUTEXES && |s.tls1| == MAX_TLS_KEYS
  }

  /** Exiting a mutex is for its owner. */
  predicate MutexOpEnabled(s: State, c: nat, i: nat, enter: bool)
  {
    && Shaped(s) && i < MAX_MUTEXES
    && if enter then TryEnter(s.mutexes[i], c).Some? else Depth(s.mutexes[i], c) > 0
  }

  predicate Enabled(s: State, a: Action)
  {
    && Shaped(s)
    && match a
       case Create(_) => s.core0.InCode?
       case Join(_) => s.core0.InCode?
       case MutexOp0(i, enter) => s.core0.InCode? && MutexOpEnabled(s, 0, i, enter)
       case Advance0 => !s.core0.InCode?
       case Advance1 =>
         s.core1.Starting? || InWindow(s) || s.core1.Finishing? || (s.core1.Cleaning? && s.core1.i <= MAX_MUTEXES)
       case MutexOp1(i, enter) => s.core1.Body? && MutexOpEnabled(s, 1, i, enter)
       case SetTls(key, _) => s.core1.Body? && key < MAX_TLS_KEYS
       case BodyReturns => s.core1.Body?
  }

  function MutexOp(s: State, c: nat, i: nat, enter: bool): State
    requires MutexOpEnabled(s, c, i, enter)
  {
    var s' := s.(mutexes := s.mutexes[i := if enter then TryEnter(s.mutexes[i], c).value else ExitMutex(s.mutexes[i])]);
    var n := s.counts1[i];
    if c != 1 then s' else s'.(counts1 := s.counts1[i := if enter then n + 1 else if n > 0 then n - 1 else 0])
  }

  function Step0(s: State): State
    requires Shaped(s) && !s.core0.InCode?
  {
    match s.core0
    case StoreFunction(job) => s.(entryFunction := job.f, core0 := StoreArgument(job))
    case StoreArgument(job) => s.(entryArgument := job.arg, core0 := ClearStarted)
    case ClearStarted => s.(started := false, core0 := if s.createCount > 2 then AwaitFinished else Launch)
    case AwaitFinished => if s.finished then s.(core0 := Reset) else s
    case Reset => s.(core1 := Off, core0 := ClearTls(0))
    case ClearTls(i) =>
      if i < MAX_TLS_KEYS then s.(tls1 := s.tls1[i := NULL], core0 := ClearTls(i + 1)) else s.(core0 := Launch)
    case Launch => s.(core1 := Starting, core0 := AwaitStarted)
    case AwaitStarted => if s.started then s.(core0 := InCode) else s
    case Joining => if s.finished then s.(core0 := InCode) else s
  }

  function Step1(s: State): State
    requires Enabled(s, Advance1)
  {
    match s.core1
    case Starting => s.(started := true, core1 := ClearingFinished)
    case ClearingFinished => s.(finished := false, core1 := ReadingEntry)
    case ReadingEntry =>
      var job := Job(s.entryFunction, s.entryArgument);
      s.(core1 := Body(job), entered := s.entered + [job])
    case Cleaning(i) =>
      if i == MAX_MUTEXES then s.(core1 := Finishing)
      else if s.counts1[i] > 0 then
        s.(mutexes := s.mutexes[i := ExitMutex(s.mutexes[i])], counts1 := s.counts1[i := s.counts1[i] - 1])
      else s.(core1 := Cleaning(i + 1))
    case Finishing => s.(finished := true, core1 := Parked)
  }

  function Step(s: State, a: Action): State
    requires Enabled(s, a)
  {
    match a
    case Create(job) =>
      var n := s.createCount + 1;
      if n % 2 == 1 then s.(createCount := n)
      else s.(createCount := n, calls := s.calls + [job], core0 := StoreFunction(job))
    case Join(thread) => if thread == 2 then s.(core0 := Joining) else s
    case MutexOp0(i, enter) => MutexOp(s, 0, i, enter)
    case Advance0 => Step0(s)
    case Advance1 => Step1(s)
    case MutexOp1(i, enter) => MutexOp(s, 1, i, enter)
    case SetTls(key, value) => s.(tls1 := s.tls1[key := value])
    case BodyReturns => s.(core1 := Cleaning(0), returned := s.returned + 1)
  }

  ghost predicate IsRun(s: State, run: seq<Action>)
    decreases |run|
  {
    run == [] || (Enabled(s, run[0]) && IsRun(Step(s, run[0]), run[1..]))
  }

  ghost function After(s: State, run: seq<Action>): State
    requires IsRun(s, run)
    decreases |run|
  {
    if run == [] then s else After(Step(s, run[0]), run[1..])
  }

  /** A create that will launch core 1: an even-numbered one. */
  predicate Launches(s: State, a: Action)
  {
    a.Create? && s.createCount % 2 == 1
  }

  /** No launching pthread_create begins while core 1 is between announcing itself and reading its job. */
  ghost predicate Patient(s: State, run: seq<Action>)
    requires IsRun(s, run)
    decreases |run|
  {
    run == [] || ((Launches(s, run[0]) ==> !InWindow(s)) && Patient(Step(s, run[0]), run[1..]))
  }

  predicate Initial(s: State)
  {
    && Shaped(s)
    && s.createCount == 0 && !s.started && !s.finished && s.core0 == InCode && s.core1 == Off
    && (forall k :: 0 <= k < MAX_TLS_KEYS ==> s.tls1[k] == NULL)
    && (forall i :: 0 <= i < MAX_MUTEXES ==> s.mutexes[i] == Free && s.counts1[i] == 0)
    && s.calls == [] && s.entered == [] && s.returned == 0
  }

  // The invariant

  predicate TlsClear(s: State, n: nat)
  {
    |s.tls1| == MAX_TLS_KEYS && n <= MAX_TLS_KEYS && forall k :: 0 <= k < n ==> s.tls1[k] == NULL
  }

  predicate Core1OwnsNothing(s: State, n: nat)
  {
    |s.mutexes| == MAX_MUTEXES && n <= MAX_MUTEXES && forall i :: 0 <= i < n ==> Depth(s.mutexes[i], 1) == 0
  }

  predicate CountsOk(s: State)
  {
    |s.mutexes| == |s.counts1| == MAX_MUTEXES &&
    forall i :: 0 <= i < MAX_MUTEXES ==> s.counts1[i] == Depth(s.mutexes[i], 1)
  }

  /** core 1 on its own: once it has entered a job, a finished flag means the wait loop; outside a job core 1 owns
      no mutex. */
  predicate Core1Ok(s: State)
  {
    && (s.finished ==> s.core1.Parked? || s.core1.Off? || s.core1.Starting? || s.core1.ClearingFinished?)
    && (s.core1.Parked? ==> s.finished)
    && (match s.core1
        case Body(_) => true
        case Cleaning(i) => i <= MAX_MUTEXES && Core1OwnsNothing(s, i)
        case _ => Core1OwnsNothing(s, MAX_MUTEXES))
  }

  /** The number of jobs core 1 has been launched for but has not entered. */
  function NotEntered(s: State): nat
  {
    if s.core1.Starting? || InWindow(s) then 1 else 0
  }

  /** How many of the even-numbered calls core 1 has entered, at each line of pthread_create. */
  predicate CallsOk(s: State)
  {
    && |s.calls| == s.createCount / 2
    && s.entered <= s.calls
    && s.returned == (if s.core1.Body? then |s.entered| - 1 else |s.entered|)
    && (s.core1.Body? ==> |s.entered| > 0)
    && if s.core0.InCode? || s.core0.Joining? || s.core0.AwaitStarted?
       then |s.entered| + NotEntered(s) == |s.calls|
       else |s.entered| == |s.calls| - 1 && s.createCount % 2 == 0
  }

  /** Between creates: nothing launched yet, or core 1 past its announcement. */
  predicate Settled(s: State)
  {
    if s.calls == [] then s.core1.Off? && !s.finished && TlsClear(s, MAX_TLS_KEYS)
    else !s.core1.Off? && !s.core1.Starting? && (InWindow(s) ==> EntryStored(s) && TlsClear(s, MAX_TLS_KEYS))
  }

  /** What core 0 has set up at each line of pthread_create, and where core 1 can be meanwhile. */
  predicate Core0Ok(s: State)
  {
    match s.core0
    case InCode => Settled(s)
    case Joining => Settled(s)
    case StoreFunction(job) => Previous(s) && s.calls[|s.calls| - 1] == job
    case StoreArgument(job) => Previous(s) && s.calls[|s.calls| - 1] == job && s.entryFunction == job.f
    case ClearStarted => Previous(s) && EntryStored(s)
    case AwaitFinished => Previous(s) && EntryStored(s) && !s.started && |s.calls| > 1
    case Reset => s.core1.Parked? && EntryStored(s) && !s.started
    case ClearTls(i) =>
      s.core1.Off? && EntryStored(s) && !s.started && s.finished && i <= MAX_TLS_KEYS && TlsClear(s, i)
    case Launch =>
      s.core1.Off? && EntryStored(s) && !s.started && (|s.calls| > 1 ==> s.finished) && TlsClear(s, MAX_TLS_KEYS)
    case AwaitStarted =>
      if s.started then Settled(s) && s.calls != []
      else s.core1.Starting? && EntryStored(s) && (|s.calls| > 1 ==> s.finished) && TlsClear(s, MAX_TLS_KEYS)
  }

  /** The entry variables hold the job of the latest call. */
  predicate EntryStored(s: State)
  {
    s.calls != [] && s.calls[|s.calls| - 1] == Job(s.entryFunction, s.entryArgument)
  }

  /** While a create prepares, core 1 is still where the previous one left it. */
  predicate Previous(s: State)
  {
    && s.calls != []
    && if |s.calls| == 1 then s.core1.Off? && !s.finished && TlsClear(s, MAX_TLS_KEYS)
       else !s.core1.Off? && !s.core1.Starting? && !InWindow(s)
  }

  predicate Inv(s: State)
  {
    Shaped(s) && CountsOk(s) && Core1Ok(s) && CallsOk(s) && Core0Ok(s)
  }

  lemma InitialInv(s: State)
    requires Initial(s)
    ensures Inv(s)
  {
  }

  lemma StoreKeepsInv(s: State)
    requires Inv(s) && (s.core0.StoreFunction? || s.core0.StoreArgument? || s.core0.ClearStarted? || s.core0.Launch?)
    ensures Inv(Step0(s))
  {
  }

  lemma ResetKeepsInv(s: State)
    requires Inv(s) && (s.core0.AwaitFinished? || s.core0.Reset? || s.core0.ClearTls?)
    ensures Inv(Step0(s))
  {
  }

  lemma AwaitKeepsInv(s: State)
    requires Inv(s) && (s.core0.AwaitStarted? || s.core0.Joining?)
    ensures Inv(Step0(s))
  {
  }

  lemma Step0KeepsInv(s: State)
    requires Inv(s) && !s.core0.InCode?
    ensures Inv(Step0(s))
  {
    match s.core0
    case AwaitFinished => ResetKeepsInv(s);
    case Reset => ResetKeepsInv(s);
    case ClearTls(_) => ResetKeepsInv(s);
    case AwaitStarted => AwaitKeepsInv(s);
    case Joining => AwaitKeepsInv(s);
    case _ => StoreKeepsInv(s);
  }

  lemma CleaningKeepsInv(s: State)
    requires Inv(s) && Enabled(s, Advance1) && s.core1.Cleaning?
    ensures Inv(Step1(s))
  {
    var s' := Step1(s);
    if s.core1.i < MAX_MUTEXES {
      assert forall j :: 0 <= j < s.core1.i ==> s'.mutexes[j] == s.mutexes[j];
    }
  }

  lemma Step1KeepsInv(s: State)
    requires Inv(s) && Enabled(s, Advance1)
    ensures Inv(Step1(s))
  {
    if s.core1.Cleaning? {
      CleaningKeepsInv(s);
    } else {
      WrapperKeepsInv(s);
    }
  }

  lemma WrapperKeepsInv(s: State)
    requires Inv(s) && Enabled(s, Advance1) && !s.core1.Cleaning?
    ensures Inv(Step1(s))
  {
  }

  lemma MutexOpKeepsInv(s: State, c: nat, i: nat, enter: bool)
    requires Inv(s) && MutexOpEnabled(s, c, i, enter) && (c == 0 || (c == 1 && s.core1.Body?))
    ensures Inv(MutexOp(s, c, i, enter))
  {
    var s' := MutexOp(s, c, i, enter);
    assert c == 0 ==> forall j :: 0 <= j < MAX_MUTEXES ==> Depth(s'.mutexes[j], 1) == Depth(s.mutexes[j], 1);
  }

  lemma StepKeepsInv(s: State, a: Action)
    requires Inv(s) && Enabled(s, a) && (Launches(s, a) ==> !InWindow(s))
    ensures Inv(Step(s, a))
  {
    match a
    case Advance0 => Step0KeepsInv(s);
    case Advance1 => Step1KeepsInv(s);
    case MutexOp0(i, enter) => MutexOpKeepsInv(s, 0, i, enter);
    case MutexOp1(i, enter) => MutexOpKeepsInv(s, 1, i, enter);
    case Create(job) => CreateKeepsInv(s, job);
    case Join(thread) => JoinKeepsInv(s, thread);
    case SetTls(key, value) => SetTlsKeepsInv(s, key, value);
    case BodyReturns => BodyReturnsKeepsInv(s);
  }

  lemma CreateKeepsInv(s: State, job: Job)
    requires Inv(s) && Enabled(s, Create(job)) && (Launches(s, Create(job)) ==> !InWindow(s))
    ensures Inv(Step(s, Create(job)))
  {
    if Launches(s, Create(job)) {
      LaunchKeepsInv(s, job);
    }
  }

  lemma LaunchKeepsInv(s: State, job: Job)
    requires Inv(s) && Enabled(s, Create(job)) && Launches(s, Create(job)) && !InWindow(s)
    ensures Inv(Step(s, Create(job)))
  {
  }

  lemma JoinKeepsInv(s: State, thread: int)
    requires Inv(s) && Enabled(s, Join(thread))
    ensures Inv(Step(s, Join(thread)))
  {
  }

  lemma SetTlsKeepsInv(s: State, key: nat, value: int)
    requires Inv(s) && Enabled(s, SetTls(key, value))
    ensures Inv(Step(s, SetTls(key, value)))
  {
  }

  lemma BodyReturnsKeepsInv(s: State)
    requires Inv(s) && Enabled(s, BodyReturns)
    ensures Inv(Step(s, BodyReturns))
  {
  }

  lemma {:induction false} RunKeepsInv(s: State, run: seq<Action>)
    requires Inv(s) && IsRun(s, run) && Patient(s, run)
    ensures Inv(After(s, run))
    decreases |run|
  {
    if run != [] {
      StepKeepsInv(s, run[0]);
      RunKeepsInv(Step(s, run[0]), run[1..]);
    }
  }

  lemma ReachableInv(s0: State, run: seq<Action>)
    requires Initial(s0) && IsRun(s0, run) && Patient(s0, run)
    ensures Inv(After(s0, run))
  {
    InitialInv(s0);
    RunKeepsInv(s0, run);
  }

  // Main results

  /** Every reset of core 1 hits a parked core that owns no mutex. */
  lemma ResetHitsParkedCore(s0: State, run: seq<Action>)
    requires Initial(s0) && IsRun(s0, run) && Patient(s0, run) && After(s0, run).core0 == Reset
    ensures var s := After(s0, run); s.core1 == Parked && Core1OwnsNothing(s, MAX_MUTEXES)
  {
    ReachableInv(s0, run);
  }

  /** The k-th body that core 1 enters is the job of the k-th even-numbered create: no job is entered twice, none is
      skipped, and outside pthread_create at most the latest is still to be entered, by a core 1 at its first lines. */
  lemma EachJobRunsOnce(s0: State, run: seq<Action>)
    requires Initial(s0) && IsRun(s0, run) && Patient(s0, run)
    ensures var s := After(s0, run);
            && |s.calls| == s.createCount / 2
            && s.entered <= s.calls && |s.calls| - 1 <= |s.entered|
            && (s.core0.InCode? || s.core0.Joining? ==> (s.entered == s.calls <==> !InWindow(s)))
  {
    ReachableInv(s0, run);
  }

  // Joins, over whole calls

  /** Every step of the run is made while a pthread_join(2) is in progress. */
  ghost predicate DuringJoin(s: State, run: seq<Action>)
    requires IsRun(s, run)
    decreases |run|
  {
    run == [] || (s.core0.Joining? && DuringJoin(Step(s, run[0]), run[1..]))
  }

  /** A whole join: the run ends with its return. */
  ghost predicate JoinReturns(s: State, run: seq<Action>)
  {
    IsRun(s, run) && DuringJoin(s, run) && After(s, run).core0.InCode?
  }

  /** The body of the latest launch has returned and is cleaned up. */
  predicate LatestDone(s: State)
  {
    s.calls != [] && s.core1.Parked? && s.returned == |s.calls| && Core1OwnsNothing(s, MAX_MUTEXES)
  }

  /** The core1_finished flag is still the one of the job before: it is set although the latest body has not begun. */
  predicate FlagIsStale(s: State)
  {
    s.finished && s.entered != s.calls
  }

  lemma StaleOnlyInWindow(s: State)
    requires Inv(s) && (s.core0.Joining? || s.core0.InCode?)
    ensures FlagIsStale(s) <==> s.finished && s.core1.ClearingFinished?
  {
  }

  lemma JoinStep(s: State, a: Action)
    requires Inv(s) && Enabled(s, a) && s.core0.Joining? && !FlagIsStale(s)
    ensures Inv(Step(s, a)) && !FlagIsStale(Step(s, a))
    ensures Step(s, a).core0.Joining? || (s.finished && Step(s, a).core0.InCode? && LatestDone(Step(s, a)))
  {
    StepKeepsInv(s, a);
    StaleOnlyInWindow(s);
    StaleOnlyInWindow(Step(s, a));
  }

  lemma {:induction false} JoinWaits(s: State, run: seq<Action>)
    requires Inv(s) && s.core0.Joining? && !FlagIsStale(s) && IsRun(s, run) && DuringJoin(s, run)
    ensures After(s, run).core0.Joining? || (After(s, run).core0.InCode? && LatestDone(After(s, run)))
    decreases |run|
  {
    if run != [] {
      JoinStep(s, run[0]);
      if run[1..] != [] {
        JoinWaits(Step(s, run[0]), run[1..]);
      }
    }
  }

  /** A join of thread 2, begun in any reachable state, can only return with the latest body returned, cleaned up and
      owning nothing, if and only if it is not begun on a stale flag. */
  lemma JoinWaitsForLatestBodyIff(s0: State, run0: seq<Action>)
    requires Initial(s0) && IsRun(s0, run0) && Patient(s0, run0) && After(s0, run0).core0.Joining?
    ensures var s := After(s0, run0);
            (forall run :: JoinReturns(s, run) ==> LatestDone(After(s, run))) <==> !FlagIsStale(s)
  {
    ReachableInv(s0, run0);
    var s := After(s0, run0);
    if FlagIsStale(s) {
      ReturnsAtOnce(s);
    } else {
      forall run | JoinReturns(s, run) ensures LatestDone(After(s, run)) {
        JoinWaits(s, run);
      }
    }
  }

  lemma ReturnsAtOnce(s: State)
    requires Inv(s) && s.core0.Joining? && FlagIsStale(s)
    ensures JoinReturns(s, [Advance0]) && !LatestDone(After(s, [Advance0]))
  {
    assert [Advance0][1..] == [];
    assert IsRun(Step(s, Advance0), []) && DuringJoin(Step(s, Advance0), []);
  }

  /** So a join begun once the body of the latest launch has begun, or while the flag is clear, waits for that body. */
  lemma JoinAfterEntry(s0: State, run0: seq<Action>, run: seq<Action>)
    requires Initial(s0) && IsRun(s0, run0) && Patient(s0, run0) && After(s0, run0).core0.Joining?
    requires After(s0, run0).entered == After(s0, run0).calls || !After(s0, run0).finished
    requires JoinReturns(After(s0, run0), run)
    ensures LatestDone(After(After(s0, run0), run))
  {
    ReachableInv(s0, run0);
    JoinWaits(After(s0, run0), run);
  }

  /** The window is real: at every relaunch core 0 can see core1_started and then the core1_finished left by the job
      before, and return from the join although the new body has not even begun. */
  lemma JoinCanOvertakeStart(s0: State, run0: seq<Action>)
    requires Initial(s0) && IsRun(s0, run0) && Patient(s0, run0)
    requires After(s0, run0).core1 == Starting && |After(s0, run0).calls| > 1
    ensures var s := After(s0, run0); var run := [Advance1, Advance0, Join(2), Advance0];
            IsRun(s, run) && After(s, run).core0 == InCode && After(s, run).core1 == ClearingFinished
  {
    ReachableInv(s0, run0);
    OvertakingRun(After(s0, run0));
  }

  lemma OvertakingRun(s: State)
    requires Shaped(s) && s.core0 == AwaitStarted && s.core1 == Starting && s.finished
    ensures var run := [Advance1, Advance0, Join(2), Advance0];
            IsRun(s, run) && After(s, run).core0 == InCode && After(s, run).core1 == ClearingFinished
  {
    var s1 := Step(s, Advance1);
    var s2 := Step(s1, Advance0);
    var s3 := Step(s2, Join(2));
    assert IsRun(Step(s3, Advance0), []);
    assert [Advance0][1..] == [];
    assert IsRun(s3, [Advance0]) && After(s3, [Advance0]) == Step(s3, Advance0);
    assert [Join(2), Advance0][1..] == [Advance0];
    assert IsRun(s2, [Join(2), Advance0]) && After(s2, [Join(2), Advance0]) == Step(s3, Advance0);
    assert [Advance0, Join(2), Advance0][1..] == [Join(2), Advance0];
    assert IsRun(s1, [Advance0, Join(2), Advance0]);
    assert [Advance1, Advance0, Join(2), Advance0][1..] == [Advance0, Join(2), Advance0];
  }

  // Launches, over whole calls

  /** The further steps of a launch begun in the start window with which core 1 enters the new job instead of the one
      it was launched for. */
  function Overtaking(core1: Core1): seq<Action>
  {
    if core1.ReadingEntry? then [Advance0, Advance0, Advance1] else [Advance0, Advance0, Advance1, Advance1]
  }

  lemma ReadsNewJob(s: State, job: Job)
    requires Shaped(s) && InWindow(s) && s.core0 == StoreFunction(job)
    ensures IsRun(s, Overtaking(s.core1)) && Patient(s, Overtaking(s.core1))
    ensures var s' := After(s, Overtaking(s.core1)); s'.entered == s.entered + [job] && s'.calls == s.calls
  {
    var s2 := Step(Step(s, Advance0), Advance0);
    StoresDone(s, job);
    if s.core1.ReadingEntry? {
      OneStep(s2, Advance1);
      assert [Advance0, Advance0, Advance1][1..] == [Advance0, Advance1] && [Advance0, Advance1][1..] == [Advance1];
    } else {
      TwoSteps(s2, Advance1, Advance1);
      assert [Advance0, Advance0, Advance1, Advance1][1..] == [Advance0, Advance1, Advance1];
      assert [Advance0, Advance1, Advance1][1..] == [Advance1, Advance1];
    }
  }

  lemma StoresDone(s: State, job: Job)
    requires Shaped(s) && s.core0 == StoreFunction(job)
    ensures var s2 := Step(Step(s, Advance0), Advance0);
            s2 == s.(entryFunction := job.f, entryArgument := job.arg, core0 := ClearStarted)
  {
  }

  lemma OneStep(s: State, a: Action)
    requires Enabled(s, a) && !a.Create?
    ensures IsRun(s, [a]) && Patient(s, [a]) && After(s, [a]) == Step(s, a)
  {
    assert [a][1..] == [];
    assert IsRun(Step(s, a), []) && Patient(Step(s, a), []);
  }

  lemma TwoSteps(s: State, a: Action, b: Action)
    requires Enabled(s, a) && !a.Create? && Enabled(Step(s, a), b) && !b.Create?
    ensures IsRun(s, [a, b]) && Patient(s, [a, b]) && After(s, [a, b]) == Step(Step(s, a), b)
  {
    OneStep(Step(s, a), b);
    assert [a, b][1..] == [b];
  }

  /** The entered jobs stay a prefix of the launching calls in every continuation in which no further create is begun
      in the window. */
  ghost predicate JobsKept(s: State)
  {
    forall run :: IsRun(s, run) && Patient(s, run) ==> After(s, run).entered <= After(s, run).calls
  }

  /** A launching create with a job of its own is safe if and only if it is not begun in the start window: begun
      there, it can make core 1 run the new job in place of the previous one. */
  lemma LaunchIsSafeIff(s0: State, run0: seq<Action>, job: Job)
    requires Initial(s0) && IsRun(s0, run0) && Patient(s0, run0)
    requires var s := After(s0, run0);
             && Enabled(s, Create(job)) && Launches(s, Create(job))
             && (s.calls != [] ==> s.calls[|s.calls| - 1] != job)
    ensures JobsKept(Step(After(s0, run0), Create(job))) <==> !InWindow(After(s0, run0))
  {
    ReachableInv(s0, run0);
    var s := After(s0, run0);
    var s' := Step(s, Create(job));
    if InWindow(s) {
      ReadsNewJob(s', job);
      JobReplaced(s, job);
    } else {
      StepKeepsInv(s, Create(job));
      forall run | IsRun(s', run) && Patient(s', run) ensures After(s', run).entered <= After(s', run).calls {
        RunKeepsInv(s', run);
      }
    }
  }

  lemma JobReplaced(s: State, job: Job)
    requires Inv(s) && InWindow(s) && s.core0.InCode? && s.calls[|s.calls| - 1] != job
    ensures !(s.entered + [job] <= s.calls + [job])
  {
    var k := |s.entered|;
    assert (s.entered + [job])[k] == job && (s.calls + [job])[k] == s.calls[k];
  }

  /** Every job starts clean: when core 1 reads its entry it owns no mutex, all its TLS slots are NULL, and the job it
      enters is that of the call that launched it. */
  lemma JobStartsClean(s0: State, run: seq<Action>)
    requires Initial(s0) && IsRun(s0, run) && Patient(s0, run)
    requires After(s0, run).core1 == ReadingEntry && Enabled(After(s0, run), Advance1)
    ensures var s := After(s0, run);
            && Core1OwnsNothing(s, MAX_MUTEXES) && TlsClear(s, MAX_TLS_KEYS)
            && s.calls != [] && Step(s, Advance1).core1 == Body(s.calls[|s.calls| - 1])
  {
    ReachableInv(s0, run);
  }

  /** core 1, its clean-up included, never changes what core 0 owns: it exits only what it has counted, and its counts
      are exact. */
  lemma Core1SparesCore0(s0: State, run: seq<Action>, a: Action, i: nat)
    requires Initial(s0) && IsRun(s0, run) && Patient(s0, run) && i < MAX_MUTEXES
    requires Enabled(After(s0, run), a) && (a.Advance1? || a.MutexOp1? || a.SetTls? || a.BodyReturns?)
    ensures var s := After(s0, run);
            && |s.mutexes| == |Step(s, a).mutexes| == MAX_MUTEXES
            && Depth(Step(s, a).mutexes[i], 0) == Depth(s.mutexes[i], 0) && Step(s, a).core0 == s.core0
  {
    ReachableInv(s0, run);
    var s := After(s0, run);
    if a.Advance1? && s.core1.Cleaning? && s.core1.i < MAX_MUTEXES && s.counts1[s.core1.i] > 0 {
      assert Depth(s.mutexes[s.core1.i], 1) > 0;
    }
  }

  // Nothing waits in vain: once the running body has returned, the clean-up parks core 1 in a bounded number of its own
  // steps, whatever core 0 does in between

  predicate CleaningUp(core1: Core1)
  {
    core1.Cleaning? || core1.Finishing? || core1.Parked?
  }

  function CleanWork(s: State): nat
  {
    match s.core1
    case Cleaning(i) => Held(s.counts1, i) + (if i <= MAX_MUTEXES then MAX_MUTEXES - i else 0) + 2
    case Finishing => 1
    case _ => 0
  }

  /** How often the clean-up still has to exit a mutex, from slot i on. */
  function Held(counts: seq<nat>, i: nat): nat
    decreases |counts| - i
  {
    if i >= |counts| then 0 else counts[i] + Held(counts, i + 1)
  }

  lemma {:induction false} HeldUnchanged(counts: seq<nat>, counts': seq<nat>, i: nat)
    requires |counts| == |counts'| && forall j :: i <= j < |counts| ==> counts'[j] == counts[j]
    ensures Held(counts', i) == Held(counts, i)
    decreases |counts| - i
  {
    if i < |counts| {
      HeldUnchanged(counts, counts', i + 1);
    }
  }

  lemma CleanUpProgresses(s: State)
    requires Enabled(s, Advance1) && (s.core1.Cleaning? || s.core1.Finishing?)
    ensures CleanWork(Step(s, Advance1)) < CleanWork(s) && CleaningUp(Step(s, Advance1).core1)
    ensures Step(s, Advance1).core1.Parked? <==> CleanWork(Step(s, Advance1)) == 0
  {
    if s.core1.Cleaning? && s.core1.i < MAX_MUTEXES && s.counts1[s.core1.i] > 0 {
      HeldUnchanged(s.counts1, Step(s, Advance1).counts1, s.core1.i + 1);
    }
  }

  /** core 0 does not reset core 1 during the run. */
  ghost predicate NoReset(s: State, run: seq<Action>)
    requires IsRun(s, run)
    decreases |run|
  {
    run == [] || (!(run[0].Advance0? && s.core0.Reset?) && NoReset(Step(s, run[0]), run[1..]))
  }

  /** The steps core 1 takes of itself. */
  function OwnSteps(run: seq<Action>): nat
  {
    if run == [] then 0 else (if run[0].Advance1? then 1 else 0) + OwnSteps(run[1..])
  }

  lemma CleanUpStep(s: State, a: Action)
    requires Inv(s) && Enabled(s, a) && CleaningUp(s.core1) && !(a.Advance0? && s.core0.Reset?)
    ensures CleaningUp(Step(s, a).core1)
    ensures if a.Advance1? then CleanWork(Step(s, a)) < CleanWork(s)
            else Step(s, a).core1 == s.core1 && CleanWork(Step(s, a)) == CleanWork(s)
  {
    if a.Advance1? {
      CleanUpProgresses(s);
    }
  }

  /** Over whole runs: until core 0 resets it, core 1 takes at most CleanWork further steps of itself, and is parked,
      its flag set, once it has taken that many; core 0 cannot delay it. */
  lemma {:induction false} CleanUpIsBounded(s: State, run: seq<Action>)
    requires Inv(s) && CleaningUp(s.core1) && IsRun(s, run) && Patient(s, run) && NoReset(s, run)
    ensures OwnSteps(run) + CleanWork(After(s, run)) <= CleanWork(s)
    ensures Inv(After(s, run)) && CleaningUp(After(s, run).core1)
    ensures After(s, run).core1.Parked? || Enabled(After(s, run), Advance1)
    ensures OwnSteps(run) == CleanWork(s) ==> After(s, run).core1.Parked? && After(s, run).finished
    decreases |run|
  {
    if run != [] {
      StepKeepsInv(s, run[0]);
      CleanUpStep(s, run[0]);
      CleanUpIsBounded(Step(s, run[0]), run[1..]);
    }
  }

  /** So whoever waits for the flag returns: after that many steps of core 1, a waiting join ends and a waiting create
      goes on, at core 0's next step. */
  lemma WaitersReturn(s: State, run: seq<Action>)
    requires Inv(s) && CleaningUp(s.core1) && IsRun(s, run) && Patient(s, run) && NoReset(s, run)
    requires OwnSteps(run) >= CleanWork(s) && (After(s, run).core0.Joining? || After(s, run).core0.AwaitFinished?)
    ensures Enabled(After(s, run), Advance0)
    ensures var core0 := Step(After(s, run), Advance0).core0;
            if After(s, run).core0.Joining? then core0.InCode? else core0.Reset?
  {
    CleanUpIsBounded(s, run);
  }
}
