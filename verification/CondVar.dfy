/** The generation-counter condition variable of ocaml_stubs.c for any number of threads: one locked section, one
    mutex operation or one unlocked read per step, in any interleaving. The generation is an unbounded integer. */
module CondVar {
  import opened Sums
  import opened Locks

  /** The waiters and generation fields, changed only in sections that hold the condition variable's own lock. */
  datatype Fields = Fields(waiters: int, generation: int)

  function AfterRegister(v: Fields): Fields
  {
    v.(waiters := v.waiters + 1)
  }

  function AfterDeregister(v: Fields): Fields
  {
    v.(waiters := v.waiters - 1)
  }

  function AfterSignal(v: Fields): Fields
  {
    if v.waiters > 0 then v.(generation := v.generation + 1) else v
  }

  function AfterBroadcast(v: Fields): Fields
  {
    v.(generation := v.generation + 1)
  }

  /** pico_condvar_t and its locked sections. */
  class Record {
    var waiters: int
    var generation: int

    function View(): Fields
      reads this
    {
      Fields(waiters, generation)
    }

    constructor ()
      ensures View() == Fields(0, 0)
    {
      waiters, generation := 0, 0;
    }

    method Register() returns (myGen: int)
      modifies this
      ensures myGen == old(generation) && View() == AfterRegister(old(View()))
    {
      myGen := generation;
      waiters := waiters + 1;
    }

    method Deregister()
      modifies this
      ensures View() == AfterDeregister(old(View()))
    {
      waiters := waiters - 1;
    }

    method Signal()
      modifies this
      ensures View() == AfterSignal(old(View()))
    {
      if waiters > 0 {
        generation := generation + 1;
      }
    }

    method Broadcast()
      modifies this
      ensures View() == AfterBroadcast(old(View()))
    {
      generation := generation + 1;
    }
  }

  // Threads

  /** Where a thread is: in its own code, or in pthread_cond_wait before registering, before releasing the mutex,
      in the generation loop, past its exit test, or taking the mutex back. held is the depth at which it owned the
      mutex when it called (a history variable). */
  datatype Thread =
    | InCode
    | Called(held: nat)
    | Registered(held: nat, myGen: int)
    | Waiting(held: nat, myGen: int)
    | Exiting(held: nat, myGen: int)
    | Reacquiring(held: nat)

  datatype State = State(fields: Fields, mutex: Mutex, threads: seq<Thread>)

  datatype Action =
    | Lock
    | Unlock
    | CallWait
    | Register
    | Release
    | Test
    | Deregister
    | Reacquire
    | Signal
    | Broadcast

  datatype Move = Move(t: nat, action: Action)

  /** cond_wait and unlock are called by an owner of the mutex; signalling needs no mutex. */
  predicate Enabled(s: State, m: Move)
  {
    && m.t < |s.threads|
    && var at := s.threads[m.t];
       match m.action
       case Lock => at.InCode? && TryEnter(s.mutex, m.t).Some?
       case Unlock => at.InCode? && Depth(s.mutex, m.t) > 0
       case CallWait => at.InCode? && Depth(s.mutex, m.t) > 0
       case Register => at.Called?
       case Release => at.Registered?
       case Test => at.Waiting?
       case Deregister => at.Exiting?
       case Reacquire => at.Reacquiring? && TryEnter(s.mutex, m.t).Some?
       case Signal => at.InCode?
       case Broadcast => at.InCode?
  }

  function Goto(s: State, t: nat, at: Thread): State
    requires t < |s.threads|
  {
    s.(threads := s.threads[t := at])
  }

  function Step(s: State, m: Move): State
    requires Enabled(s, m)
  {
    var at := s.threads[m.t];
    match m.action
    case Lock => s.(mutex := TryEnter(s.mutex, m.t).value)
    case Unlock => s.(mutex := ExitMutex(s.mutex))
    case CallWait => Goto(s, m.t, Called(Depth(s.mutex, m.t)))
    case Register => Goto(s, m.t, Registered(at.held, s.fields.generation)).(fields := AfterRegister(s.fields))
    case Release => Goto(s, m.t, Waiting(at.held, at.myGen)).(mutex := ExitMutex(s.mutex))
    case Test => if s.fields.generation != at.myGen then Goto(s, m.t, Exiting(at.held, at.myGen)) else s
    case Deregister => Goto(s, m.t, Reacquiring(at.held)).(fields := AfterDeregister(s.fields))
    case Reacquire => Goto(s, m.t, InCode).(mutex := TryEnter(s.mutex, m.t).value)
    case Signal => s.(fields := AfterSignal(s.fields))
    case Broadcast => s.(fields := AfterBroadcast(s.fields))
  }

  ghost predicate IsRun(s: State, run: seq<Move>)
    decreases |run|
  {
    run == [] || (Enabled(s, run[0]) && IsRun(Step(s, run[0]), run[1..]))
  }

  ghost function After(s: State, run: seq<Move>): State
    requires IsRun(s, run)
    decreases |run|
  {
    if run == [] then s else After(Step(s, run[0]), run[1..])
  }

  // The invariant

  /** Registered and not yet deregistered. */
  predicate Counted(at: Thread)
  {
    at.Registered? || at.Waiting? || at.Exiting?
  }

  function CountOne(): Thread -> nat
  {
    (at: Thread) => if Counted(at) then 1 else 0
  }

  predicate ThreadOk(s: State, t: nat)
    requires t < |s.threads|
  {
    var at := s.threads[t];
    && (Counted(at) ==> at.myGen <= s.fields.generation)
    && (at.Exiting? ==> at.myGen < s.fields.generation)
    && (at.Called? || at.Registered? ==> Depth(s.mutex, t) == at.held > 0)
    && (at.Waiting? || at.Exiting? || at.Reacquiring? ==> Depth(s.mutex, t) + 1 == at.held)
  }

  predicate Inv(s: State)
  {
    && s.fields.waiters == Total(s.threads, CountOne())
    && forall t :: 0 <= t < |s.threads| ==> ThreadOk(s, t)
  }

  predicate Initial(s: State)
  {
    s.fields == Fields(0, 0) && s.mutex == Free && forall t :: 0 <= t < |s.threads| ==> s.threads[t] == InCode
  }

  lemma InitialInv(s: State)
    requires Initial(s)
    ensures Inv(s)
  {
    TotalZero(s.threads, CountOne());
  }

  lemma StepKeepsThread(s: State, m: Move, t: nat)
    requires Enabled(s, m) && t < |s.threads| && ThreadOk(s, t) && ThreadOk(s, m.t)
    ensures |Step(s, m).threads| == |s.threads| && ThreadOk(Step(s, m), t)
  {
  }

  lemma StepKeepsCount(s: State, m: Move)
    requires Enabled(s, m) && s.fields.waiters == Total(s.threads, CountOne())
    ensures Step(s, m).fields.waiters == Total(Step(s, m).threads, CountOne())
    ensures Step(s, m).fields.generation >= s.fields.generation
  {
    TotalUpdate(s.threads, m.t, Step(s, m).threads[m.t], CountOne());
  }

  lemma StepKeepsInv(s: State, m: Move)
    requires Inv(s) && Enabled(s, m)
    ensures Inv(Step(s, m)) && Step(s, m).fields.generation >= s.fields.generation
  {
    StepKeepsCount(s, m);
    forall t | 0 <= t < |Step(s, m).threads| ensures ThreadOk(Step(s, m), t) {
      StepKeepsThread(s, m, t);
    }
  }

  lemma {:induction false} RunKeepsInv(s: State, run: seq<Move>)
    requires Inv(s) && IsRun(s, run)
    ensures Inv(After(s, run)) && |After(s, run).threads| == |s.threads|
    ensures After(s, run).fields.generation >= s.fields.generation
    decreases |run|
  {
    if run != [] {
      StepKeepsInv(s, run[0]);
      RunKeepsInv(Step(s, run[0]), run[1..]);
    }
  }

  // Wakeups

  /** The signals and broadcasts of a history that ran their locked section. */
  function Signals(run: seq<Move>): nat
  {
    if run == [] then 0
    else (if run[0].action.Signal? || run[0].action.Broadcast? then 1 else 0) + Signals(run[1..])
  }

  predicate StaysRegistered(run: seq<Move>, t: nat)
  {
    Move(t, Deregister) !in run
  }

  /** While any thread is registered every signal counts: it bumps the generation, exactly like a broadcast. */
  lemma {:induction false} EverySignalCounts(s: State, run: seq<Move>, t: nat)
    requires Inv(s) && IsRun(s, run) && t < |s.threads| && Counted(s.threads[t]) && StaysRegistered(run, t)
    ensures var s' := After(s, run);
            && |s'.threads| == |s.threads| && Counted(s'.threads[t]) && s'.threads[t].myGen == s.threads[t].myGen
            && s'.fields.generation == s.fields.generation + Signals(run)
    decreases |run|
  {
    if run != [] {
      var m := run[0];
      TotalAtLeast(s.threads, s.threads[t], CountOne());
      StepKeepsInv(s, m);
      assert m != Move(t, Deregister);
      EverySignalCounts(Step(s, m), run[1..], t);
    }
  }

  /** No wakeup is lost and none is invented: a thread that registered at the start of the run can leave its loop
      if and only if some signal or broadcast ran its locked section since. */
  lemma WakesIffSignalled(s: State, run: seq<Move>, t: nat)
    requires Inv(s) && Enabled(s, Move(t, Register))
    requires IsRun(Step(s, Move(t, Register)), run) && StaysRegistered(run, t)
    ensures var s' := After(Step(s, Move(t, Register)), run);
            && t < |s'.threads| && Counted(s'.threads[t])
            && (s'.fields.generation != s'.threads[t].myGen <==> Signals(run) > 0)
  {
    StepKeepsInv(s, Move(t, Register));
    EverySignalCounts(Step(s, Move(t, Register)), run, t);
  }

  /** Once a registered thread may leave its loop it may leave at every later test. */
  lemma ReadyStaysReady(s: State, run: seq<Move>, t: nat)
    requires Inv(s) && IsRun(s, run) && t < |s.threads| && Counted(s.threads[t]) && StaysRegistered(run, t)
    requires s.fields.generation != s.threads[t].myGen
    ensures var s' := After(s, run);
            t < |s'.threads| && Counted(s'.threads[t]) && s'.fields.generation != s'.threads[t].myGen
  {
    assert ThreadOk(s, t);
    EverySignalCounts(s, run, t);
  }

  /** The POSIX guarantee: whenever another thread holds the mutex, a thread inside pthread_cond_wait is already
      registered or already woken, so a signal by that thread reaches it. */
  lemma SignalUnderMutexWakes(s0: State, run: seq<Move>, t: nat, u: nat)
    requires Initial(s0) && IsRun(s0, run)
    requires var s := After(s0, run);
             t < |s.threads| && u < |s.threads| && t != u && Depth(s.mutex, u) > 0 && !s.threads[t].InCode?
    requires Enabled(After(s0, run), Move(u, Signal))
    ensures var s' := Step(After(s0, run), Move(u, Signal));
            s'.threads[t].Reacquiring? || (Counted(s'.threads[t]) && s'.fields.generation != s'.threads[t].myGen)
  {
    InitialInv(s0);
    RunKeepsInv(s0, run);
    var s := After(s0, run);
    assert ThreadOk(s, t);
    TotalAtLeast(s.threads, s.threads[t], CountOne());
  }

  /** What the loop does with its exit test: at a test after any run since it registered, a waiting thread leaves the
      loop if and only if some signal or broadcast ran its locked section in between, and stays as it is otherwise. */
  lemma TestLeavesIff(s: State, run: seq<Move>, t: nat)
    requires Inv(s) && Enabled(s, Move(t, Register))
    requires IsRun(Step(s, Move(t, Register)), run) && StaysRegistered(run, t)
    requires var s' := After(Step(s, Move(t, Register)), run); t < |s'.threads| && s'.threads[t].Waiting?
    ensures var s' := After(Step(s, Move(t, Register)), run);
            && Enabled(s', Move(t, Test))
            && (Signals(run) > 0 ==> Step(s', Move(t, Test)).threads[t].Exiting?)
            && (Signals(run) == 0 ==> Step(s', Move(t, Test)) == s')
  {
    WakesIffSignalled(s, run, t);
  }

  /** A thread on its way out of pthread_cond_wait: signalled in the loop, or past it. */
  predicate Leaving(s: State, t: nat)
  {
    && t < |s.threads|
    && var at := s.threads[t];
       (at.Waiting? && s.fields.generation != at.myGen) || at.Exiting? || at.Reacquiring?
  }

  /** How many more moves of its own the thread needs. */
  function MovesLeft(at: Thread): nat
  {
    if at.Waiting? then 3 else if at.Exiting? then 2 else if at.Reacquiring? then 1 else 0
  }

  function OwnMoves(run: seq<Move>, t: nat): nat
  {
    if run == [] then 0 else (if run[0].t == t then 1 else 0) + OwnMoves(run[1..], t)
  }

  lemma LeavingStep(s: State, m: Move, t: nat)
    requires Inv(s) && Enabled(s, m) && Leaving(s, t)
    ensures var s' := Step(s, m); var at := s.threads[t];
            && |s'.threads| == |s.threads|
            && if m.t != t then Leaving(s', t) && s'.threads[t] == at && Depth(s'.mutex, t) == Depth(s.mutex, t)
               else if at.Reacquiring? then s'.threads[t].InCode? && Depth(s'.mutex, t) == at.held
               else Leaving(s', t) && MovesLeft(s'.threads[t]) == MovesLeft(at) - 1 && s'.threads[t].held == at.held
  {
    StepKeepsInv(s, m);
    assert ThreadOk(s, t) && ThreadOk(s, m.t);
  }

  /** Once back in its own code the thread keeps what it owns through the moves of the others. */
  lemma {:induction false} OthersKeepDepth(s: State, run: seq<Move>, t: nat)
    requires Inv(s) && IsRun(s, run) && t < |s.threads| && OwnMoves(run, t) == 0
    ensures |After(s, run).threads| == |s.threads| && After(s, run).threads[t] == s.threads[t]
    ensures Depth(After(s, run).mutex, t) == Depth(s.mutex, t)
    decreases |run|
  {
    if run != [] {
      assert ThreadOk(s, run[0].t);
      StepKeepsInv(s, run[0]);
      OthersKeepDepth(Step(s, run[0]), run[1..], t);
    }
  }

  /** A leaving thread is back in its own code after that many moves of its own, whatever the other threads do in
      between, owning the mutex as deeply as it did when it called. */
  lemma {:induction false} LeavingReturns(s: State, run: seq<Move>, t: nat)
    requires Inv(s) && IsRun(s, run) && Leaving(s, t) && OwnMoves(run, t) == MovesLeft(s.threads[t])
    ensures t < |After(s, run).threads| && After(s, run).threads[t].InCode?
    ensures Depth(After(s, run).mutex, t) == s.threads[t].held
    decreases |run|
  {
    var s' := Step(s, run[0]);
    LeavingStep(s, run[0], t);
    StepKeepsInv(s, run[0]);
    if s'.threads[t].InCode? {
      OthersKeepDepth(s', run[1..], t);
    } else {
      LeavingReturns(s', run[1..], t);
    }
  }

  /** And it can make the next of those moves at once, except that the last waits until the mutex can be entered. */
  lemma LeavingCanMove(s: State, t: nat)
    requires Leaving(s, t)
    ensures Enabled(s, Move(t, if s.threads[t].Waiting? then Test
                               else if s.threads[t].Exiting? then Deregister else Reacquire))
            <==> (s.threads[t].Reacquiring? ==> TryEnter(s.mutex, t).Some?)
  {
  }

  /** End to end: a thread that registered, and for which a signal or broadcast has run since, is out of
      pthread_cond_wait after three more moves of its own, owning the mutex as deeply as when it called. */
  lemma SignalledThreadReturns(s: State, run: seq<Move>, more: seq<Move>, t: nat)
    requires Inv(s) && Enabled(s, Move(t, Register))
    requires IsRun(Step(s, Move(t, Register)), run) && StaysRegistered(run, t) && Signals(run) > 0
    requires var s' := After(Step(s, Move(t, Register)), run);
             && t < |s'.threads| && s'.threads[t].Waiting? && IsRun(s', more) && OwnMoves(more, t) == 3
    ensures var s' := After(Step(s, Move(t, Register)), run); var s'' := After(s', more);
            t < |s''.threads| && s''.threads[t].InCode? && Depth(s''.mutex, t) == s'.threads[t].held
  {
    WakesIffSignalled(s, run, t);
    StepKeepsInv(s, Move(t, Register));
    RunKeepsInv(Step(s, Move(t, Register)), run);
    LeavingReturns(After(Step(s, Move(t, Register)), run), more, t);
  }

  /** waiters always equals the number of threads registered and not yet deregistered. */
  lemma WaitersExact(s0: State, run: seq<Move>)
    requires Initial(s0) && IsRun(s0, run)
    ensures After(s0, run).fields.waiters == Total(After(s0, run).threads, CountOne())
  {
    InitialInv(s0);
    RunKeepsInv(s0, run);
  }

  /** A thread leaves pthread_cond_wait owning the mutex exactly as deeply as when it called. */
  lemma WaitRestoresDepth(s0: State, run: seq<Move>, t: nat)
    requires Initial(s0) && IsRun(s0, run) && Enabled(After(s0, run), Move(t, Reacquire))
    ensures var s := After(s0, run);
            Depth(Step(s, Move(t, Reacquire)).mutex, t) == s.threads[t].held > 0
  {
    InitialInv(s0);
    RunKeepsInv(s0, run);
    assert ThreadOk(After(s0, run), t);
  }

  // The interrupt checks of the waiting loop

  const CHECK_EVERY: nat := 100
  const LOOP_LIMIT: nat := 100000

  function NextLoops(loops: nat): nat
  {
    if loops + 1 > LOOP_LIMIT then 1 else loops + 1
  }

  /** The loop counter at the n-th iteration, counter reset included. */
  function LoopsAt(n: nat): nat
  {
    if n == 0 then 0 else NextLoops(LoopsAt(n - 1))
  }

  predicate Checks(n: nat)
  {
    LoopsAt(n) % CHECK_EVERY == 0
  }

  function ChecksIn(from: nat, len: nat): nat
  {
    if len == 0 then 0 else ChecksIn(from, len - 1) + (if Checks(from + len - 1) then 1 else 0)
  }

  lemma {:induction false} ResetKeepsPhase(n: nat)
    ensures LoopsAt(n) <= LOOP_LIMIT && LoopsAt(n) % CHECK_EVERY == n % CHECK_EVERY
  {
    if n > 0 {
      ResetKeepsPhase(n - 1);
      NextPhase(LoopsAt(n - 1), n - 1);
    }
  }

  lemma NextPhase(loops: nat, n: nat)
    requires loops <= LOOP_LIMIT && loops % CHECK_EVERY == n % CHECK_EVERY
    ensures NextLoops(loops) <= LOOP_LIMIT && NextLoops(loops) % CHECK_EVERY == (n + 1) % CHECK_EVERY
  {
  }

  lemma {:induction false} ChecksInCount(from: nat, len: nat)
    ensures ChecksIn(from, len) == (from + len + 99) / 100 - (from + 99) / 100
  {
    if len > 0 {
      ChecksInCount(from, len - 1);
      ChecksOnHundreds(from + len - 1);
    }
  }

  lemma ChecksOnHundreds(n: nat)
    ensures Checks(n) <==> n % 100 == 0
    ensures (n + 100) / 100 == (n + 99) / 100 + (if n % 100 == 0 then 1 else 0)
  {
    ResetKeepsPhase(n);
  }

  /** Any 100 consecutive iterations service interrupts exactly once, across the counter reset too. */
  lemma OneCheckPerHundred(from: nat)
    ensures ChecksIn(from, 100) == 1
  {
    ChecksInCount(from, 100);
  }

  /** The loop body itself, run n times while the generation does not change. */
  method WaitLoop(n: nat) returns (loops: nat, checks: nat)
    ensures loops == LoopsAt(n) && checks == ChecksIn(0, n)
  {
    loops, checks := 0, 0;
    for i := 0 to n
      invariant loops == LoopsAt(i) && checks == ChecksIn(0, i)
    {
      if loops % 100 == 0 {
        checks := checks + 1;
      }
      loops := loops + 1;
      if loops > 100000 {
        loops := 1;
      }
    }
  }
}
