/** Every run of the fiber scheduler comes to rest, and what it looks like then. */
module PioLiveness {
  import opened Sums
  import opened Promises
  import opened Pio
  import opened PioSafety

  // The measure

  /** More than one I/O wait can cost: every poll up to the timeout, the wake closure and the resume. */
  const EFFECT_WORK: nat := MAX_TIMEOUT + 10

  function BudgetWork(): Fiber -> nat
  {
    (x: Fiber) => EFFECT_WORK * x.effectsLeft
  }

  function TaskWork(): Task -> nat
  {
    (t: Task) => if t.Start? || t.Resume? then 2 else 3
  }

  /** Polls left before the timeout, the poll that wakes, and the closure it queues. */
  function WaiterWork(): Waiter -> nat
  {
    (w: Waiter) => 4 + (if w.timeoutCount <= w.maxTimeout then w.maxTimeout - w.timeoutCount else 0)
  }

  function StoredWork(): Cell -> nat
  {
    (c: Cell) => Total(Stored(c), TaskWork())
  }

  function ControlWork(c: Control): nat
  {
    if c.InFiber? then 1 else 0
  }

  function Work(s: State): nat
  {
    Total(s.fibers, BudgetWork()) + Total(s.queue, TaskWork()) + Total(s.waiters, WaiterWork())
    + Total(s.promises, StoredWork()) + ControlWork(s.control)
  }

  predicate Quiescent(s: State)
  {
    s.control.Scheduling? && s.queue == [] && s.waiters == []
  }

  // Polling pays one unit per waiter

  function ResultWork(r: PollResult): nat
  {
    Total(r.remaining, WaiterWork()) + Total(r.toWake, TaskWork())
  }

  lemma {:induction false} FoldPays(acc: PollResult, ws: seq<Waiter>, ready: Waiter -> bool)
    requires forall w :: w in ws ==> w.timeoutCount <= w.maxTimeout
    ensures ResultWork(FoldWaiters(acc, ws, ready)) + |ws| <= ResultWork(acc) + Total(ws, WaiterWork())
    decreases |ws|
  {
    if ws != [] {
      var acc' := ProcessWaiter(acc, ws[0], ready(ws[0]));
      assert ws[0] in ws;
      assert ResultWork(acc') + 1 <= ResultWork(acc) + WaiterWork()(ws[0]) by {
        if acc'.remaining == acc.remaining {
          assert acc'.toWake[1..] == acc.toWake;
        } else {
          assert acc'.remaining[1..] == acc.remaining;
        }
      }
      FoldPays(acc', ws[1..], ready);
    }
  }

  lemma PollPays(s: State, ready: Waiter -> bool)
    requires Inv(s)
    ensures Work(Poll(s, ready)) + |s.waiters| <= Work(s)
  {
    forall w | w in s.waiters ensures w.timeoutCount <= w.maxTimeout {
      assert WaiterOk(s, w);
    }
    FoldPays(PollResult([], []), s.waiters, ready);
    TotalAppend(s.queue, CheckIo(s.waiters, ready).toWake, TaskWork());
  }

  lemma BudgetUnchanged(s: State, s': State)
    requires |s'.fibers| == |s.fibers|
    requires forall f :: 0 <= f < |s.fibers| ==> s'.fibers[f].effectsLeft == s.fibers[f].effectsLeft
    ensures Total(s'.fibers, BudgetWork()) == Total(s.fibers, BudgetWork())
  {
    TotalPointwise(s'.fibers, BudgetWork(), s.fibers, BudgetWork());
  }

  lemma ExecutePays(s: State, n: int)
    requires s.control.Scheduling? && s.queue != [] && TaskInRange(s, s.queue[0])
    ensures Work(Execute(s.(queue := s.queue[1..]), s.queue[0], n)) < Work(s)
  {
    var t := s.queue[0];
    var s1 := s.(queue := s.queue[1..]);
    var s2 := Execute(s1, t, n);
    BudgetUnchanged(s, s2);
    if s2.queue != s1.queue {
      TotalSnoc(s1.queue, s2.queue[|s2.queue| - 1], TaskWork());
      assert s2.queue == s1.queue + [s2.queue[|s2.queue| - 1]];
    }
  }

  lemma TurnPays(s: State, a: Action)
    requires Inv(s) && a.Tick? && Enabled(s, a) && !Quiescent(s)
    ensures Work(Next(s, a)) < Work(s)
  {
    PollPays(s, a.ready);
    var polled := Poll(s, a.ready);
    if polled.queue != [] {
      PollKeeps(s, a.ready);
      assert TaskOk(polled, polled.queue[0]);
      ExecutePays(polled, a.n);
    }
  }

  // Effects are paid for by the budget

  lemma ChargePays(s: State, f: FiberId, cost: nat)
    requires f < |s.fibers| && cost <= s.fibers[f].effectsLeft
    ensures Work(Charge(s, f, cost)) + EFFECT_WORK * cost == Work(s)
  {
    var x := s.fibers[f].(effectsLeft := s.fibers[f].effectsLeft - cost);
    TotalUpdate(s.fibers, f, x, BudgetWork());
  }

  lemma SuspendPays(s: State, f: FiberId, cause: Cause)
    requires FiberInRange(s, f)
    ensures Work(Suspend(s, f, cause)) <= Work(s)
  {
    BudgetUnchanged(s, Suspend(s, f, cause));
  }

  lemma SettlePays(s: State, p: PromiseId, o: Outcome<Value, Exn, Task>)
    requires p < |s.promises|
    ensures Work(Settle(s, p, o)) + StoredWork()(s.promises[p])
         == Work(s) + StoredWork()(o.state) + Total(o.enqueued, TaskWork())
  {
    TotalUpdate(s.promises, p, o.state, StoredWork());
    TotalAppend(s.queue, o.enqueued, TaskWork());
  }

  lemma SpawnPays(s: State, kind: Kind, sw: SwitchId, budget: nat)
    requires sw < |s.switches|
    ensures Work(Spawn(s, kind, sw, budget)) == Work(s) + EFFECT_WORK * budget + 2
  {
    TotalSnoc(s.fibers, Fiber(kind, sw, budget, 0, NotStarted), BudgetWork());
    TotalSnoc(s.queue, Start(|s.fibers|), TaskWork());
  }

  lemma {:induction false} KeepOpenPays(ws: seq<Waiter>, sock: int)
    ensures Total(KeepOpen(ws, sock), WaiterWork()) <= Total(ws, WaiterWork())
  {
    if ws != [] {
      KeepOpenPays(ws[1..], sock);
      TotalAppend(if ws[0].sock != sock then [ws[0]] else [], KeepOpen(ws[1..], sock), WaiterWork());
    }
  }

  lemma AwaitPays(s: State, f: FiberId, p: PromiseId)
    requires FiberInRange(s, f) && s.control.InFiber? && p < |s.promises|
    ensures Work(HandleAwait(s, f, p)) <= Work(s) + 3
  {
    if s.promises[p].Pending? {
      var o := AfterAddWaiter(s.promises[p], Wake(f, p));
      assert Stored(o.state)[1..] == Stored(s.promises[p]);
      SettlePays(s, p, o);
      SuspendPays(Settle(s, p, o), f, OnPromise(p));
    }
  }

  lemma IoPays(s: State, f: FiberId, sock: int, op: Operation)
    requires FiberInRange(s, f) && s.control.InFiber?
    ensures Work(WaitForIo(s, f, sock, op)) <= Work(s) + MAX_TIMEOUT + 4
  {
    var w := Waiter(sock, op, 0, MAX_TIMEOUT, f);
    var s1 := s.(waiters := [w] + s.waiters);
    assert s1.waiters[1..] == s.waiters;
    SuspendPays(s1, f, OnIo(sock, op));
  }

  lemma SettlingPays(s: State, p: PromiseId, v: Value, e: Exn)
    requires p < |s.promises|
    ensures Work(Settle(s, p, AfterResolve(s.promises[p], v))) == Work(s)
    ensures Work(Settle(s, p, AfterFail(s.promises[p], e))) == Work(s)
  {
    SettlePays(s, p, AfterResolve(s.promises[p], v));
    SettlePays(s, p, AfterFail(s.promises[p], e));
  }

  lemma ClosePays(s: State, sock: int)
    ensures Work(CloseSocket(s, sock)) <= Work(s)
  {
    KeepOpenPays(s.waiters, sock);
    BudgetUnchanged(s, CloseSocket(s, sock));
  }

  lemma YieldPays(s: State, f: FiberId)
    requires FiberInRange(s, f) && s.control.InFiber?
    ensures Work(Suspend(Enqueue(s, Resume(f, Continue(Unit))), f, OnYield)) <= Work(s) + 2
  {
    TotalSnoc(s.queue, Resume(f, Continue(Unit)), TaskWork());
    SuspendPays(Enqueue(s, Resume(f, Continue(Unit))), f, OnYield);
  }

  lemma AddPromisePays(s: State)
    ensures Work(AddPromise(s)) == Work(s)
  {
    TotalSnoc(s.promises, Pending([]), StoredWork());
  }

  lemma AnswerPays(s: State, f: FiberId, a: Answer)
    ensures Work(Answered(s, f, a)) <= Work(s) + 1
    ensures s.control.InFiber? ==> Work(Answered(s, f, a)) == Work(s)
  {
  }

  lemma ForkPays(s: State, f: FiberId, kind: Kind, sw: SwitchId, budget: nat, a: Answer)
    requires s.control.InFiber? && sw < |s.switches|
    ensures Work(Answered(Spawn(s, kind, sw, budget), f, a)) == Work(s) + EFFECT_WORK * budget + 2
  {
    SpawnPays(s, kind, sw, budget);
    AnswerPays(Spawn(s, kind, sw, budget), f, a);
  }

  /** A handler adds less work than one effect was charged for. */
  lemma HandlePays(s: State, f: FiberId, e: Effect)
    requires FiberInRange(s, f) && s.control.InFiber? && EffectInRange(s, e)
    ensures Work(Handle(s, f, e)) < Work(s) + EFFECT_WORK * Cost(e)
  {
    if e.Fork? || e.ForkPromise? {
      ForkEffectPays(s, f, e, Cost(e) - 1);
      assert EFFECT_WORK * Cost(e) == EFFECT_WORK + EFFECT_WORK * (Cost(e) - 1);
    } else {
      SimpleEffectPays(s, f, e);
    }
  }

  lemma ForkEffectPays(s: State, f: FiberId, e: Effect, budget: nat)
    requires FiberInRange(s, f) && s.control.InFiber? && EffectInRange(s, e)
    requires (e.Fork? || e.ForkPromise?) && e.budget == budget
    ensures Work(Handle(s, f, e)) == Work(s) + EFFECT_WORK * budget + 2
  {
    if e.Fork? {
      ForkPays(s, f, Forked, e.switch, budget, Continue(Unit));
    } else {
      AddPromisePays(s);
      ForkPays(AddPromise(s), f, Promised(|s.promises|), e.switch, budget, Continue(Plain(|s.promises|)));
    }
  }

  lemma SimpleEffectPays(s: State, f: FiberId, e: Effect)
    requires FiberInRange(s, f) && s.control.InFiber? && EffectInRange(s, e) && !e.Fork? && !e.ForkPromise?
    ensures Work(Handle(s, f, e)) < Work(s) + EFFECT_WORK
  {
    match e
    case Await(p) => AwaitPays(s, f, p);
    case Yield => YieldPays(s, f);
    case TcpConnect(sock, ip, rc) =>
      IoPays(s, f, sock, Connect);
      AnswerPays(s, f, Discontinue(NetworkError));
      AnswerPays(s, f, Discontinue(DnsFailed));
    case TcpRead(sock, n) =>
      IoPays(s, f, sock, Read);
      AnswerPays(s, f, ReadAnswer(n));
    case TcpClose(sock) =>
      ClosePays(s, sock);
      AnswerPays(CloseSocket(s, sock), f, Continue(Unit));
    case Immediate(a) => AnswerPays(s, f, a);
    case NewPromise =>
      AddPromisePays(s);
      AnswerPays(AddPromise(s), f, Continue(Plain(|s.promises|)));
    case ResolvePromise(p, v) =>
      SettlingPays(s, p, v, NetworkError);
      AnswerPays(Settle(s, p, AfterResolve(s.promises[p], v)), f, Continue(Unit));
    case FailPromise(p, x) =>
      SettlingPays(s, p, Unit, x);
      AnswerPays(Settle(s, p, AfterFail(s.promises[p], x)), f, Continue(Unit));
  }

  lemma EndPays(s: State, f: FiberId, result: Value)
    requires FiberInRange(s, f) && s.control.InFiber?
    ensures Work(End(s, f, result)) < Work(s)
  {
    var kind := s.fibers[f].kind;
    if kind.Promised? {
      SettlingPays(s, kind.p, result, NetworkError);
    }
    BudgetUnchanged(s, End(s, f, result));
  }

  // Main results

  /** Every step away from rest makes progress. */
  lemma StepPays(s: State, a: Action)
    requires Inv(s) && Enabled(s, a) && !Quiescent(s)
    ensures Work(Next(s, a)) < Work(s)
  {
    match a
    case Tick(_, _) => TurnPays(s, a);
    case Perform(e) =>
      ChargePays(s, s.control.fiber, Cost(e));
      HandlePays(Charge(s, s.control.fiber, Cost(e)), s.control.fiber, e);
    case Return(n) => EndPays(s, s.control.fiber, OkOf(n));
    case Raise(x) => EndPays(s, s.control.fiber, ErrorOf(x));
  }

  /** No state of the run but perhaps its last is at rest. */
  ghost predicate Restless(s: State, run: seq<Action>)
    requires IsRun(s, run)
    decreases |run|
  {
    run == [] || (!Quiescent(s) && Restless(Next(s, run[0]), run[1..]))
  }

  /** Quiescence in bounded steps: a run that has not come to rest before its end is no longer than the work
      there was at its start. */
  lemma {:induction false} RunsAreBounded(s: State, run: seq<Action>)
    requires Inv(s) && IsRun(s, run) && Restless(s, run)
    ensures |run| + Work(After(s, run)) <= Work(s)
    decreases |run|
  {
    if run != [] {
      StepPays(s, run[0]);
      StepKeepsInv(s, run[0]);
      RunsAreBounded(Next(s, run[0]), run[1..]);
    }
  }

  /** The scheduler never gets stuck: whatever the sockets answer, some step is enabled. */
  lemma NeverStuck(s: State, ready: Waiter -> bool, n: int)
    requires Inv(s)
    ensures s.control.Scheduling? ==> Enabled(s, Tick(ready, n))
    ensures s.control.InFiber? ==> Enabled(s, Return(n))
    ensures s.control.Scheduling? || s.control.InFiber?
  {
    PollKeeps(s, ready);
    var polled := Poll(s, ready);
    forall t | t in polled.queue ensures TaskInRange(s, t) {
      assert TaskOk(polled, t);
    }
    if s.control.InFiber? {
      assert FiberOk(s, s.control.fiber);
    }
  }

  /** At rest the scheduler spins without changing anything. */
  lemma RestIsStable(s: State, a: Action)
    requires Quiescent(s) && Enabled(s, a)
    ensures Next(s, a) == s
  {
  }

  /** And it stays at rest for ever. */
  lemma {:induction false} RestLasts(s: State, run: seq<Action>)
    requires Quiescent(s) && IsRun(s, run)
    ensures After(s, run) == s
    decreases |run|
  {
    if run != [] {
      RestIsStable(s, run[0]);
      RestLasts(s, run[1..]);
    }
  }

  /** Who is left at rest: an unfinished fiber was dropped by a Tcp_close, or its waker sits, once, in the list of
      a pending promise. */
  lemma AtRest(s: State, f: FiberId)
    requires Inv(s) && Quiescent(s) && f < |s.fibers| && !s.fibers[f].status.Finished?
    ensures s.fibers[f].status.Dropped? ||
            (s.fibers[f].status.Suspended? && s.fibers[f].status.cause.OnPromise? &&
             var p := s.fibers[f].status.cause.p;
             p < |s.promises| && s.promises[p].Pending? && Wake(f, p) in s.promises[p].waiters)
  {
    if !s.fibers[f].status.Dropped? {
      assert Holders(s, f) == 1;
      assert Total(s.promises, Stores(f)) == 1;
      var p := SomewhereStored(s.promises, f);
      var t := SomewhereIn(Stored(s.promises[p]), f);
      assert StoredOk(s, p, t);
    }
  }

  lemma {:induction false} SomewhereStored(cells: seq<Cell>, f: FiberId) returns (p: PromiseId)
    requires Total(cells, Stores(f)) > 0
    ensures p < |cells| && Stores(f)(cells[p]) > 0
  {
    if Stores(f)(cells[0]) > 0 {
      p := 0;
    } else {
      var q := SomewhereStored(cells[1..], f);
      p := q + 1;
    }
  }

  lemma {:induction false} SomewhereIn(ts: seq<Task>, f: FiberId) returns (t: Task)
    requires Total(ts, Holds(f)) > 0
    ensures t in ts && t.fiber == f
  {
    if ts[0].fiber == f {
      t := ts[0];
    } else {
      t := SomewhereIn(ts[1..], f);
    }
  }

  // Deadlock freedom

  /** Fiber g is the Fork_promise fiber of promise p. */
  predicate Owns(s: State, g: FiberId, p: PromiseId)
  {
    g < |s.fibers| && s.fibers[g].kind == Promised(p)
  }

  /** Every forked fiber that is waiting waits for the Fork_promise promise of a fiber of lower rank. */
  ghost predicate Ranked(s: State, rank: FiberId -> nat)
  {
    forall f :: 0 <= f < |s.fibers| && !s.fibers[f].kind.Main? &&
                s.fibers[f].status.Suspended? && s.fibers[f].status.cause.OnPromise? ==>
      exists g: FiberId :: Owns(s, g, s.fibers[f].status.cause.p) && rank(g) < rank(f)
  }

  ghost predicate NoForkDropped(s: State)
  {
    forall f :: 0 <= f < |s.fibers| && !s.fibers[f].kind.Main? ==> !s.fibers[f].status.Dropped?
  }

  ghost predicate ForkedFibersFinished(s: State)
  {
    forall f :: 0 <= f < |s.fibers| && !s.fibers[f].kind.Main? ==> s.fibers[f].status.Finished?
  }

  lemma PendingOwnerIsUnfinished(s: State, g: FiberId, p: PromiseId)
    requires Inv(s) && Owns(s, g, p) && p < |s.promises| && s.promises[p].Pending?
    ensures !s.fibers[g].status.Finished?
  {
    assert FiberOk(s, g);
  }

  lemma {:induction false} LowestRankFinishes(s: State, rank: FiberId -> nat, f: FiberId)
    requires Inv(s) && Quiescent(s) && Ranked(s, rank) && NoForkDropped(s)
    requires f < |s.fibers| && !s.fibers[f].kind.Main?
    ensures s.fibers[f].status.Finished?
    decreases rank(f)
  {
    if !s.fibers[f].status.Finished? {
      AtRest(s, f);
      var p := s.fibers[f].status.cause.p;
      var g: FiberId :| Owns(s, g, p) && rank(g) < rank(f);
      PendingOwnerIsUnfinished(s, g, p);
      LowestRankFinishes(s, rank, g);
      assert false;
    }
  }

  /** Deadlock freedom, exactly: at rest every forked fiber has finished if and only if no fork was dropped by a
      close and some rank strictly decreases along "awaits the promise of". */
  lemma RestIsCompleteIff(s: State)
    requires Inv(s) && Quiescent(s)
    ensures ForkedFibersFinished(s) <==>
            NoForkDropped(s) && exists rank: FiberId -> nat :: Ranked(s, rank)
  {
    if ForkedFibersFinished(s) {
      var rank: FiberId -> nat := f => 0;
      assert Ranked(s, rank);
    }
    if NoForkDropped(s) && exists rank: FiberId -> nat :: Ranked(s, rank) {
      var rank: FiberId -> nat :| Ranked(s, rank);
      forall f | 0 <= f < |s.fibers| && !s.fibers[f].kind.Main? ensures s.fibers[f].status.Finished? {
        LowestRankFinishes(s, rank, f);
      }
    }
  }

  // Deadlock freedom from the way programs await, over whole runs

  /** The discipline on one step: a forked fiber awaits only Fork_promise promises of lower-ranked fibers, and no
      close hits a forked fiber that is waiting for I/O. */
  ghost predicate Disciplined(s: State, a: Action, rank: FiberId -> nat)
    requires Enabled(s, a)
  {
    a.Perform? ==>
      && (a.effect.Await? && !s.fibers[s.control.fiber].kind.Main? ==>
            exists g: FiberId :: Owns(s, g, a.effect.p) && rank(g) < rank(s.control.fiber))
      && (a.effect.TcpClose? ==>
            forall f :: 0 <= f < |s.fibers| && !s.fibers[f].kind.Main? ==> !WaitsOn(s.waiters, f, a.effect.sock))
  }

  ghost predicate DisciplinedRun(s: State, run: seq<Action>, rank: FiberId -> nat)
    requires IsRun(s, run)
    decreases |run|
  {
    run == [] || (Disciplined(s, run[0], rank) && DisciplinedRun(Next(s, run[0]), run[1..], rank))
  }

  /** The part of a state that Ranked and NoForkDropped look at, compared before and after a step. */
  ghost predicate KeepsWaits(s: State, s': State, f: FiberId)
    requires f < |s.fibers|
  {
    && |s'.fibers| >= |s.fibers|
    && s'.fibers[f].kind == s.fibers[f].kind
    && (s'.fibers[f].status.Dropped? ==> s.fibers[f].status.Dropped?)
    && (s'.fibers[f].status.Suspended? && s'.fibers[f].status.cause.OnPromise? ==>
          s'.fibers[f].status == s.fibers[f].status)
  }

  lemma EffectKeepsWaits(s: State, g: FiberId, e: Effect, f: FiberId)
    requires FiberInRange(s, g) && EffectInRange(s, e) && f < |s.fibers|
    requires e.TcpClose? ==> !WaitsOn(s.waiters, f, e.sock)
    requires e.Await? ==> f != g
    ensures KeepsWaits(s, Handle(s, g, e), f)
  {
  }

  lemma NewFibersDoNotWait(s: State, g: FiberId, e: Effect, f: FiberId)
    requires FiberInRange(s, g) && EffectInRange(s, e) && |s.fibers| <= f < |Handle(s, g, e).fibers|
    ensures Handle(s, g, e).fibers[f].status.NotStarted?
  {
  }

  lemma StepKeepsRanks(s: State, a: Action, rank: FiberId -> nat)
    requires Inv(s) && Enabled(s, a) && Disciplined(s, a, rank) && Ranked(s, rank) && NoForkDropped(s)
    ensures Ranked(Next(s, a), rank) && NoForkDropped(Next(s, a))
  {
    var s' := Next(s, a);
    forall f | 0 <= f < |s'.fibers| && !s'.fibers[f].kind.Main?
      ensures !s'.fibers[f].status.Dropped?
      ensures s'.fibers[f].status.Suspended? && s'.fibers[f].status.cause.OnPromise? ==>
                exists h: FiberId :: Owns(s', h, s'.fibers[f].status.cause.p) && rank(h) < rank(f)
    {
      StepKeepsWaits(s, a, f, rank);
    }
  }

  lemma StepKeepsKinds(s: State, a: Action, h: FiberId)
    requires Enabled(s, a) && h < |s.fibers|
    ensures h < |Next(s, a).fibers| && Next(s, a).fibers[h].kind == s.fibers[h].kind
    ensures !a.Perform? ==> |Next(s, a).fibers| == |s.fibers|
  {
    match a
    case Perform(e) => EffectKeepsKinds(Charge(s, s.control.fiber, Cost(e)), s.control.fiber, e, h);
    case Tick(ready, n) => TurnKeepsKinds(s, ready, n);
    case Return(n) => EndKeepsKinds(s, s.control.fiber, OkOf(n));
    case Raise(x) => EndKeepsKinds(s, s.control.fiber, ErrorOf(x));
  }

  ghost predicate SameKinds(s: State, s': State)
  {
    |s'.fibers| == |s.fibers| && forall h :: 0 <= h < |s.fibers| ==> s'.fibers[h].kind == s.fibers[h].kind
  }

  lemma TurnKeepsKinds(s: State, ready: Waiter -> bool, n: int)
    requires var q := Poll(s, ready).queue; q != [] ==> TaskInRange(s, q[0])
    ensures SameKinds(s, Turn(s, ready, n))
  {
  }

  lemma EndKeepsKinds(s: State, f: FiberId, result: Value)
    requires FiberInRange(s, f)
    ensures SameKinds(s, End(s, f, result))
  {
  }

  lemma EffectKeepsKinds(s: State, g: FiberId, e: Effect, h: FiberId)
    requires FiberInRange(s, g) && EffectInRange(s, e) && h < |s.fibers|
    ensures h < |Handle(s, g, e).fibers| && Handle(s, g, e).fibers[h].kind == s.fibers[h].kind
  {
  }

  lemma StepKeepsWaits(s: State, a: Action, f: FiberId, rank: FiberId -> nat)
    requires Inv(s) && Enabled(s, a) && Disciplined(s, a, rank) && Ranked(s, rank) && NoForkDropped(s)
    requires f < |Next(s, a).fibers| && !Next(s, a).fibers[f].kind.Main?
    ensures var s' := Next(s, a);
            !s'.fibers[f].status.Dropped? &&
            (s'.fibers[f].status.Suspended? && s'.fibers[f].status.cause.OnPromise? ==>
               exists h: FiberId :: Owns(s', h, s'.fibers[f].status.cause.p) && rank(h) < rank(f))
  {
    if a.Perform? {
      EffectKeepsRank(s, a, f, rank);
    } else {
      OtherStepsKeepWaits(s, a, f);
      StillRanked(s, a, f, rank);
    }
  }

  lemma OtherStepsKeepWaits(s: State, a: Action, f: FiberId)
    requires Enabled(s, a) && !a.Perform? && f < |Next(s, a).fibers|
    ensures f < |s.fibers| && KeepsWaits(s, Next(s, a), f)
  {
    match a
    case Tick(ready, n) => TurnKeepsWaits(s, ready, n, f);
    case Return(n) => EndKeepsWaits(s, s.control.fiber, OkOf(n), f);
    case Raise(x) => EndKeepsWaits(s, s.control.fiber, ErrorOf(x), f);
  }

  lemma TurnKeepsWaits(s: State, ready: Waiter -> bool, n: int, f: FiberId)
    requires var q := Poll(s, ready).queue; q != [] ==> TaskInRange(s, q[0])
    requires f < |Turn(s, ready, n).fibers|
    ensures f < |s.fibers| && KeepsWaits(s, Turn(s, ready, n), f)
  {
  }

  lemma EndKeepsWaits(s: State, g: FiberId, result: Value, f: FiberId)
    requires FiberInRange(s, g) && f < |End(s, g, result).fibers|
    ensures f < |s.fibers| && KeepsWaits(s, End(s, g, result), f)
  {
  }

  lemma EffectKeepsRank(s: State, a: Action, f: FiberId, rank: FiberId -> nat)
    requires Inv(s) && Enabled(s, a) && a.Perform? && Disciplined(s, a, rank) && Ranked(s, rank) && NoForkDropped(s)
    requires f < |Next(s, a).fibers| && !Next(s, a).fibers[f].kind.Main?
    ensures var s' := Next(s, a);
            !s'.fibers[f].status.Dropped? &&
            (s'.fibers[f].status.Suspended? && s'.fibers[f].status.cause.OnPromise? ==>
               exists h: FiberId :: Owns(s', h, s'.fibers[f].status.cause.p) && rank(h) < rank(f))
  {
    var g := s.control.fiber;
    var s1 := Charge(s, g, Cost(a.effect));
    if f >= |s.fibers| {
      NewFibersDoNotWait(s1, g, a.effect, f);
    } else {
      StepKeepsKinds(s, a, f);
      if a.effect.Await? && f == g {
        var h: FiberId :| Owns(s, h, a.effect.p) && rank(h) < rank(f);
        StepKeepsKinds(s, a, h);
        assert Owns(Next(s, a), h, a.effect.p);
        AwaitWaitsOnItsPromise(s1, g, a.effect.p);
      } else {
        EffectKeepsWaits(s1, g, a.effect, f);
        StillRanked(s, a, f, rank);
      }
    }
  }

  lemma AwaitWaitsOnItsPromise(s: State, g: FiberId, p: PromiseId)
    requires FiberInRange(s, g) && p < |s.promises| && s.fibers[g].status.Running?
    ensures var status := HandleAwait(s, g, p).fibers[g].status; status.Running? || status == Suspended(OnPromise(p))
  {
  }

  /** A wait that was there before the step still has its lower-ranked owner after it. */
  lemma StillRanked(s: State, a: Action, f: FiberId, rank: FiberId -> nat)
    requires Enabled(s, a) && Ranked(s, rank) && f < |s.fibers| && !s.fibers[f].kind.Main?
    ensures s.fibers[f].status.Suspended? && s.fibers[f].status.cause.OnPromise? ==>
              exists h: FiberId :: Owns(Next(s, a), h, s.fibers[f].status.cause.p) && rank(h) < rank(f)
  {
    if s.fibers[f].status.Suspended? && s.fibers[f].status.cause.OnPromise? {
      var h: FiberId :| Owns(s, h, s.fibers[f].status.cause.p) && rank(h) < rank(f);
      StepKeepsKinds(s, a, h);
      assert Owns(Next(s, a), h, s.fibers[f].status.cause.p);
    }
  }

  lemma {:induction false} DisciplinedRunsStayRanked(s: State, run: seq<Action>, rank: FiberId -> nat)
    requires Inv(s) && Ranked(s, rank) && NoForkDropped(s) && IsRun(s, run) && DisciplinedRun(s, run, rank)
    ensures Inv(After(s, run)) && Ranked(After(s, run), rank) && NoForkDropped(After(s, run))
    decreases |run|
  {
    if run != [] {
      StepKeepsInv(s, run[0]);
      StepKeepsRanks(s, run[0], rank);
      DisciplinedRunsStayRanked(Next(s, run[0]), run[1..], rank);
    }
  }

  /** Deadlock freedom over whole runs: a disciplined program that has come to rest has finished every forked
      fiber, normally or by an exception, and settled the promise of each. */
  lemma DisciplinedProgramsComplete(s0: State, run: seq<Action>, rank: FiberId -> nat, f: FiberId)
    requires Initial(s0) && IsRun(s0, run) && DisciplinedRun(s0, run, rank) && Quiescent(After(s0, run))
    requires f < |After(s0, run).fibers| && !After(s0, run).fibers[f].kind.Main?
    ensures var s := After(s0, run);
            s.fibers[f].status.Finished? &&
            (s.fibers[f].kind.Promised? ==>
               s.fibers[f].kind.p < |s.promises| && !s.promises[s.fibers[f].kind.p].Pending?)
  {
    InitialInv(s0);
    DisciplinedRunsStayRanked(s0, run, rank);
    var s := After(s0, run);
    LowestRankFinishes(s, rank, f);
    assert FiberOk(s, f);
  }
}
