/** The scheduler as the source has it: global mutable tables updated in place by handlers and by the scheduler
    loop. Every method is proved to take its abstract state exactly where the step relation of Pio says. */
module PioScheduler {
  import opened Promises
  import opened Pio
  import PioSafety
  import PioLiveness

  type PromiseObject = Promise<Value, Exn, Task>

  /** What a running fiber may do next. */
  datatype Choice = Do(effect: Effect) | ReturnWith(n: int) | RaiseWith(exn: Exn)

  predicate CanPerform(s: State, e: Effect)
  {
    && s.control.InFiber? && s.control.fiber < |s.fibers|
    && EffectInRange(s, e) && Cost(e) <= s.fibers[s.control.fiber].effectsLeft
  }

  class Scheduler {
    const runQueue: RunQueue<Task>
    var ioWaiters: seq<Waiter>
    var promises: seq<PromiseObject>
    var fibers: seq<Fiber>
    var switches: seq<int>
    ghost const base: seq<int>
    var control: Control

    /** No two entries of the promise table are the same object. */
    ghost predicate Valid()
      reads this
    {
      forall i, j :: 0 <= i < j < |promises| ==> promises[i] != promises[j]
    }

    ghost function Repr(): set<object>
      reads this
    {
      {this, runQueue} + set p | p in promises
    }

    ghost function Cells(): (cells: seq<Cell>)
      reads this, promises
      ensures |cells| == |promises| && forall i :: 0 <= i < |promises| ==> cells[i] == promises[i].state
    {
      seq(|promises|, i requires 0 <= i < |promises| reads this, promises => promises[i].state)
    }

    ghost function View(): State
      reads this, runQueue, promises
    {
      State(runQueue.tasks, ioWaiters, Cells(), fibers, switches, base, control)
    }

    /** Switch.run: fresh tables and the main fiber enqueued. */
    constructor (effects: nat)
      ensures Valid() && fresh(Repr()) && Initial(View())
    {
      var queue := new RunQueue();
      queue.Enqueue(Start(0));
      runQueue := queue;
      ioWaiters := [];
      promises := [];
      fibers := [Fiber(Main, 0, effects, 0, NotStarted)];
      switches, base := [1], [1];
      control := Scheduling;
    }

    // check_io_completions and the scheduler turn

    method CheckIoCompletions(ready: Waiter -> bool)
      requires Valid()
      modifies this`ioWaiters, runQueue
      ensures Valid() && View() == Poll(old(View()), ready)
    {
      var acc := PollResult([], []);
      var ws := ioWaiters;
      while ws != []
        invariant FoldWaiters(acc, ws, ready) == CheckIo(ioWaiters, ready)
        decreases |ws|
      {
        acc, ws := ProcessWaiter(acc, ws[0], ready(ws[0])), ws[1..];
      }
      ioWaiters := acc.remaining;
      runQueue.EnqueueAll(acc.toWake);
    }

    method RunTask(t: Task, n: int)
      requires Valid() && TaskInRange(View(), t)
      modifies this`fibers, this`control, runQueue
      ensures Valid() && View() == Execute(old(View()), t, n)
    {
      match t
      case Start(f) =>
        fibers := fibers[f := fibers[f].(status := Running)];
        control := InFiber(f, Continue(Unit));
      case Resume(f, a) =>
        fibers := fibers[f := fibers[f].(status := Running, resumes := fibers[f].resumes + 1)];
        control := InFiber(f, a);
      case Wake(f, p) =>
        match promises[p].state {
          case Resolved(v) => runQueue.Enqueue(Resume(f, Continue(v)));
          case Failed(e) => runQueue.Enqueue(Resume(f, Discontinue(e)));
          case Pending(_) => control := Crashed;
        }
      case IoWake(f, sock, op) =>
        if op == Connect {
          runQueue.Enqueue(Resume(f, Continue(Plain(sock))));
        } else {
          runQueue.Enqueue(Resume(f, ReadAnswer(n)));
        }
      case IoTimeout(f, sock, op) =>
        if op == Connect {
          runQueue.Enqueue(Resume(f, Discontinue(ConnectionTimeout)));
        } else {
          runQueue.Enqueue(Resume(f, Discontinue(NetworkError)));
        }
    }

    method TakeTurn(ready: Waiter -> bool, n: int)
      requires Valid() && Enabled(View(), Tick(ready, n))
      modifies this`ioWaiters, this`fibers, this`control, runQueue
      ensures Valid() && View() == Next(old(View()), Tick(ready, n))
    {
      CheckIoCompletions(ready);
      ghost var polled := View();
      var found, head := runQueue.TakeOpt();
      if found {
        assert polled.queue[0] in polled.queue && TaskInRange(old(View()), polled.queue[0]);
        assert head == [polled.queue[0]] && runQueue.tasks == polled.queue[1..];
        RunTask(head[0], n);
      }
    }

    // The effect handlers

    method Suspend(f: FiberId, cause: Cause)
      requires Valid() && f < |fibers| && fibers[f].switch < |switches|
      modifies this`fibers, this`switches, this`control
      ensures Valid() && View() == Pio.Suspend(old(View()), f, cause)
    {
      if fibers[f].kind == Main && fibers[f].resumes > 0 {
        switches := switches[fibers[f].switch := switches[fibers[f].switch] - 1];
      }
      fibers := fibers[f := fibers[f].(status := Suspended(cause))];
      control := Scheduling;
    }

    method Spawn(kind: Kind, sw: SwitchId, budget: nat)
      requires Valid() && sw < |switches|
      modifies this`fibers, this`switches, runQueue
      ensures Valid() && View() == Pio.Spawn(old(View()), kind, sw, budget)
    {
      switches := switches[sw := switches[sw] + 1];
      fibers := fibers + [Fiber(kind, sw, budget, 0, NotStarted)];
      runQueue.Enqueue(Start(|fibers| - 1));
    }

    method CreatePromise()
      requires Valid()
      modifies this`promises
      ensures Valid() && View() == AddPromise(old(View()))
      ensures |promises| == |old(promises)| + 1 && promises[..|old(promises)|] == old(promises)
      ensures fresh(promises[|old(promises)|])
    {
      var p := new Promise();
      promises := promises + [p];
      assert Cells() == old(Cells()) + [Pending([])];
    }

    method ResolveAt(p: PromiseId, v: Value)
      requires Valid() && p < |promises|
      modifies promises[p], runQueue
      ensures Valid() && View() == Settle(old(View()), p, AfterResolve(old(View()).promises[p], v))
    {
      promises[p].Resolve(v, runQueue);
      assert Cells() == old(Cells())[p := promises[p].state];
      assert runQueue.tasks == old(runQueue.tasks) + runQueue.tasks[|old(runQueue.tasks)|..];
    }

    method FailAt(p: PromiseId, e: Exn)
      requires Valid() && p < |promises|
      modifies promises[p], runQueue
      ensures Valid() && View() == Settle(old(View()), p, AfterFail(old(View()).promises[p], e))
    {
      promises[p].Fail(e, runQueue);
      assert Cells() == old(Cells())[p := promises[p].state];
      assert runQueue.tasks == old(runQueue.tasks) + runQueue.tasks[|old(runQueue.tasks)|..];
    }

    method AwaitAt(f: FiberId, p: PromiseId)
      requires Valid() && p < |promises| && f < |fibers| && fibers[f].switch < |switches|
      modifies this`fibers, this`switches, this`control, promises[p], runQueue
      ensures Valid() && View() == HandleAwait(old(View()), f, p)
    {
      match promises[p].state
      case Resolved(v) => control := InFiber(f, Continue(v));
      case Failed(e) => control := InFiber(f, Discontinue(e));
      case Pending(_) =>
        promises[p].AddWaiter(Wake(f, p), runQueue);
        assert Cells() == old(Cells())[p := promises[p].state];
        assert runQueue.tasks == old(runQueue.tasks) + runQueue.tasks[|old(runQueue.tasks)|..];
        Suspend(f, OnPromise(p));
    }

    method WaitIo(f: FiberId, sock: int, op: Operation)
      requires Valid() && f < |fibers| && fibers[f].switch < |switches|
      modifies this`ioWaiters, this`fibers, this`switches, this`control
      ensures Valid() && View() == WaitForIo(old(View()), f, sock, op)
    {
      ioWaiters := [Waiter(sock, op, 0, MAX_TIMEOUT, f)] + ioWaiters;
      Suspend(f, OnIo(sock, op));
    }

    method Close(sock: int)
      requires Valid()
      modifies this`ioWaiters, this`fibers
      ensures Valid() && View() == CloseSocket(old(View()), sock)
    {
      fibers := MarkDropped(fibers, ioWaiters, sock);
      ioWaiters := KeepOpen(ioWaiters, sock);
    }

    /** The handler of Fork_promise. */
    method HandleForkPromise(f: FiberId, sw: SwitchId, budget: nat)
      requires Valid() && f < |fibers| && fibers[f].switch < |switches| && sw < |switches|
      modifies this, runQueue
      ensures Valid() && fresh(Repr() - old(Repr())) && View() == Handle(old(View()), f, ForkPromise(sw, budget))
    {
      var p := |promises|;
      CreatePromise();
      assert Repr() == old(Repr()) + {promises[p]};
      Spawn(Promised(p), sw, budget);
      control := InFiber(f, Continue(Plain(p)));
    }

    /** The handler of Fork, and Promise.create called by a fiber. */
    method HandleFork(f: FiberId, e: Effect)
      requires Valid() && f < |fibers| && fibers[f].switch < |switches| && EffectInRange(View(), e)
      requires e.Fork? || e.NewPromise?
      modifies this, runQueue
      ensures Valid() && fresh(Repr() - old(Repr())) && View() == Handle(old(View()), f, e)
    {
      match e
      case Fork(sw, budget) =>
        Spawn(Forked, sw, budget);
        control := InFiber(f, Continue(Unit));
      case NewPromise =>
        var p := |promises|;
        CreatePromise();
        assert Repr() == old(Repr()) + {promises[p]};
        control := InFiber(f, Continue(Plain(p)));
    }

    /** The handlers of the network effects; every other one answers at once. */
    method HandleNet(f: FiberId, e: Effect)
      requires Valid() && f < |fibers| && fibers[f].switch < |switches|
      requires e.TcpConnect? || e.TcpRead? || e.TcpClose? || e.Immediate?
      modifies this`ioWaiters, this`fibers, this`switches, this`control
      ensures Valid() && View() == Handle(old(View()), f, e)
    {
      match e
      case TcpConnect(sock, ip, rc) =>
        if sock < 0 {
          control := InFiber(f, Discontinue(NetworkError));
        } else if ip == 0 {
          control := InFiber(f, Discontinue(DnsFailed));
        } else if rc < 0 {
          control := InFiber(f, Discontinue(NetworkError));
        } else {
          WaitIo(f, sock, Connect);
        }
      case TcpRead(sock, n) =>
        if n > 0 || n == -2 {
          control := InFiber(f, ReadAnswer(n));
        } else {
          WaitIo(f, sock, Read);
        }
      case TcpClose(sock) =>
        Close(sock);
        control := InFiber(f, Continue(Unit));
      case Immediate(a) => control := InFiber(f, a);
    }

    /** The handlers of Await and Yield, and Promise.resolve and Promise.fail called by a fiber. */
    method HandlePromise(f: FiberId, e: Effect)
      requires Valid() && f < |fibers| && fibers[f].switch < |switches| && EffectInRange(View(), e)
      requires e.Await? || e.Yield? || e.ResolvePromise? || e.FailPromise?
      modifies Repr()
      ensures Valid() && promises == old(promises) && View() == Handle(old(View()), f, e)
    {
      match e
      case Await(p) => AwaitAt(f, p);
      case Yield =>
        runQueue.Enqueue(Resume(f, Continue(Unit)));
        Suspend(f, OnYield);
      case ResolvePromise(p, v) =>
        ResolveAt(p, v);
        control := InFiber(f, Continue(Unit));
      case FailPromise(p, x) =>
        FailAt(p, x);
        control := InFiber(f, Continue(Unit));
    }

    method HandleEffect(f: FiberId, e: Effect)
      requires Valid() && f < |fibers| && fibers[f].switch < |switches| && EffectInRange(View(), e)
      modifies Repr()
      ensures Valid() && fresh(Repr() - old(Repr())) && View() == Handle(old(View()), f, e)
    {
      if e.ForkPromise? {
        HandleForkPromise(f, e.switch, e.budget);
      } else if e.Fork? || e.NewPromise? {
        HandleFork(f, e);
      } else if e.Await? || e.Yield? || e.ResolvePromise? || e.FailPromise? {
        HandlePromise(f, e);
      } else {
        HandleNet(f, e);
      }
    }

    /** retc and exnc of the three fiber handlers. */
    method EndFiber(f: FiberId, result: Value)
      requires Valid() && FiberInRange(View(), f)
      modifies Repr()
      ensures Valid() && promises == old(promises) && View() == End(old(View()), f, result)
    {
      if fibers[f].kind.Promised? {
        ResolveAt(fibers[f].kind.p, result);
      }
      CountOut(f);
    }

    /** fiber_done, and the extra decrement that ends a resumed segment of the main fiber. */
    method CountOut(f: FiberId)
      requires Valid() && f < |fibers| && fibers[f].switch < |switches|
      modifies this`fibers, this`switches, this`control
      ensures var s := old(View());
              View() == SetStatus(Count(EndSegment(s, f), s.fibers[f].switch, -1), f, Finished).(control := Scheduling)
    {
      if fibers[f].kind == Main && fibers[f].resumes > 0 {
        switches := switches[fibers[f].switch := switches[fibers[f].switch] - 1];
      }
      switches := switches[fibers[f].switch := switches[fibers[f].switch] - 1];
      fibers := fibers[f := fibers[f].(status := Finished)];
      control := Scheduling;
    }

    method ChargeFiber(f: FiberId, cost: nat)
      requires f < |fibers| && cost <= fibers[f].effectsLeft
      modifies this`fibers
      ensures View() == Charge(old(View()), f, cost)
    {
      fibers := fibers[f := fibers[f].(effectsLeft := fibers[f].effectsLeft - cost)];
    }

    /** One step of the system, for any choice the outside world and the fibers may make. */
    method Step(a: Action)
      requires Valid() && Enabled(View(), a)
      modifies Repr()
      ensures Valid() && fresh(Repr() - old(Repr())) && View() == Next(old(View()), a)
    {
      match a
      case Tick(ready, n) => TakeTurn(ready, n);
      case Perform(e) =>
        var f := control.fiber;
        ChargeFiber(f, Cost(e));
        HandleEffect(f, e);
      case Return(n) => EndFiber(control.fiber, OkOf(n));
      case Raise(e) => EndFiber(control.fiber, ErrorOf(e));
    }

    /** The scheduler loop: whatever the outside world answers and whatever the fibers choose, effects, returns and
        exceptions, the loop terminates, at rest, after at most Work steps. */
    method RunUntilRest(ready: nat -> (Waiter -> bool), reading: nat -> int, choice: nat -> Choice)
      returns (steps: nat, ghost run: seq<Action>)
      requires Valid() && PioSafety.Inv(View())
      modifies Repr()
      ensures Valid() && PioLiveness.Quiescent(View()) && Reached(old(View()), run, View())
      ensures steps == |run| <= PioLiveness.Work(old(View()))
    {
      steps, run := 0, [];
      ghost var s0 := View();
      while !(control == Scheduling && runQueue.tasks == [] && ioWaiters == [])
        invariant Valid() && fresh(Repr() - old(Repr())) && Reached(s0, run, View())
        invariant steps == |run| <= PioLiveness.Work(s0)
        decreases PioLiveness.Work(s0) - steps
      {
        run := Advance(ready(steps), reading(steps), choice(steps), s0, run);
        steps := steps + 1;
      }
    }

    /** One turn of the loop. */
    method Advance(ready: Waiter -> bool, n: int, choice: Choice, ghost s0: State, ghost run: seq<Action>)
      returns (ghost run': seq<Action>)
      requires Valid() && Reached(s0, run, View()) && !PioLiveness.Quiescent(View())
      modifies Repr()
      ensures Valid() && fresh(Repr() - old(Repr())) && Reached(s0, run', View())
      ensures |run'| == |run| + 1 <= PioLiveness.Work(s0)
    {
      var a := NextAction(ready, n, choice);
      Progress(s0, run, View(), a);
      Step(a);
      run' := run + [a];
    }

    /** The scheduler's turn, or what the running fiber chooses. A choice no fiber has, an effect that names a missing
        object or exceeds the budget, counts as an exception. */
    method NextAction(ready: Waiter -> bool, n: int, choice: Choice) returns (a: Action)
      requires Valid() && PioSafety.Inv(View())
      ensures Enabled(View(), a)
      ensures control.Scheduling? ==> a == Tick(ready, n)
      ensures control.InFiber? ==>
                match choice
                case Do(e) => a == if CanPerform(View(), e) then Perform(e) else Raise(UserExn(0))
                case ReturnWith(m) => a == Return(m)
                case RaiseWith(x) => a == Raise(x)
    {
      PioLiveness.NeverStuck(View(), ready, n);
      if control.Scheduling? {
        return Tick(ready, n);
      }
      match choice
      case Do(e) =>
        a := if InRange(e) && Cost(e) <= fibers[control.fiber].effectsLeft then Perform(e) else Raise(UserExn(0));
      case ReturnWith(m) => a := Return(m);
      case RaiseWith(x) => a := Raise(x);
    }

    predicate InRange(e: Effect)
      reads this, promises, runQueue
      ensures InRange(e) == EffectInRange(View(), e)
    {
      match e
      case Fork(sw, _) => sw < |switches|
      case ForkPromise(sw, _) => sw < |switches|
      case Await(p) => p < |promises|
      case ResolvePromise(p, _) => p < |promises|
      case FailPromise(p, _) => p < |promises|
      case _ => true
    }
  }

  /** run leads from s0 to s, and its steps are paid for. */
  ghost predicate Reached(s0: State, run: seq<Action>, s: State)
  {
    && IsRun(s0, run) && After(s0, run) == s && PioSafety.Inv(s)
    && |run| + PioLiveness.Work(s) <= PioLiveness.Work(s0)
  }

  lemma Progress(s0: State, run: seq<Action>, s: State, a: Action)
    requires Reached(s0, run, s) && Enabled(s, a) && !PioLiveness.Quiescent(s)
    ensures Reached(s0, run + [a], Next(s, a)) && |run| + 1 <= PioLiveness.Work(s0)
  {
    PioLiveness.StepPays(s, a);
    PioSafety.StepKeepsInv(s, a);
    ExtendRun(s0, run, a);
  }

  lemma {:induction false} ExtendRun(s: State, run: seq<Action>, a: Action)
    requires IsRun(s, run) && Enabled(After(s, run), a)
    ensures IsRun(s, run + [a]) && After(s, run + [a]) == Next(After(s, run), a)
    decreases |run|
  {
    if run == [] {
      assert (run + [a])[1..] == [];
    } else {
      assert (run + [a])[1..] == run[1..] + [a];
      ExtendRun(Next(s, run[0]), run[1..], a);
    }
  }
}
