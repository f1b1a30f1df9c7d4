/** What every run of the fiber scheduler keeps: each suspended continuation has exactly one holder, queued
    closures agree with the state of the fibers and promises they mention, and the fiber counts are exact. */
module PioSafety {
  import opened Sums
  import opened Promises
  import opened Pio

  // Holders of a continuation

  function Holds(f: FiberId): Task -> nat
  {
    (t: Task) => if t.fiber == f then 1 else 0
  }

  function Waits(f: FiberId): Waiter -> nat
  {
    (w: Waiter) => if w.fiber == f then 1 else 0
  }

  function Stores(f: FiberId): Cell -> nat
  {
    (c: Cell) => Total(Stored(c), Holds(f))
  }

  function InControl(s: State, f: FiberId): nat
  {
    if s.control.InFiber? && s.control.fiber == f then 1 else 0
  }

  /** How many queued closures, I/O waiters, promise wakers and running contexts can resume fiber f. */
  function Holders(s: State, f: FiberId): nat
  {
    Total(s.queue, Holds(f)) + Total(s.waiters, Waits(f)) + Total(s.promises, Stores(f)) + InControl(s, f)
  }

  predicate Alive(fiber: Fiber)
  {
    !fiber.status.Finished? && !fiber.status.Dropped?
  }

  /** limbo is the set of fibers whose continuation is momentarily in nobody's hands. */
  ghost predicate Linear(s: State, limbo: set<FiberId>)
  {
    forall f: FiberId :: Holders(s, f) ==
      if f < |s.fibers| && f !in limbo && Alive(s.fibers[f]) then 1 else 0
  }

  // Agreement between closures and the fibers and promises they mention

  predicate AnswerOk(s: State, cause: Cause, a: Answer)
  {
    match cause
    case OnPromise(p) => p < |s.promises| && !s.promises[p].Pending? && a == Delivered(s.promises[p])
    case OnIo(sock, Connect) => a == Continue(Plain(sock)) || a == Discontinue(ConnectionTimeout)
    case OnIo(_, Read) =>
      (a.Continue? && a.value.Plain? && a.value.n > 0)
      || a == Discontinue(SocketClosed) || a == Discontinue(NetworkError)
    case OnYield => a == Continue(Unit)
  }

  predicate TaskOk(s: State, t: Task)
  {
    && t.fiber < |s.fibers|
    && var status := s.fibers[t.fiber].status;
       match t
       case Start(_) => status.NotStarted?
       case Resume(_, a) => status.Suspended? && AnswerOk(s, status.cause, a)
       case Wake(_, p) => p < |s.promises| && !s.promises[p].Pending? && status == Suspended(OnPromise(p))
       case IoWake(_, sock, op) => status == Suspended(OnIo(sock, op))
       case IoTimeout(_, sock, op) => status == Suspended(OnIo(sock, op))
  }

  predicate WaiterOk(s: State, w: Waiter)
  {
    && w.fiber < |s.fibers|
    && s.fibers[w.fiber].status == Suspended(OnIo(w.sock, w.op))
    && w.timeoutCount <= w.maxTimeout == MAX_TIMEOUT
  }

  predicate StoredOk(s: State, p: PromiseId, t: Task)
  {
    && t.fiber < |s.fibers|
    && t == Wake(t.fiber, p)
    && s.fibers[t.fiber].status == Suspended(OnPromise(p))
  }

  predicate FiberOk(s: State, f: FiberId)
    requires f < |s.fibers|
  {
    && (s.fibers[f].kind.Main? <==> f == 0)
    && s.fibers[f].switch < |s.switches|
    && (s.fibers[f].status.NotStarted? ==> s.fibers[f].resumes == 0)
    && (s.fibers[f].kind.Promised? ==>
          s.fibers[f].kind.p < |s.promises| &&
          (s.fibers[f].status.Finished? ==> !s.promises[s.fibers[f].kind.p].Pending?))
  }

  ghost predicate Agree(s: State)
  {
    && (forall t :: t in s.queue ==> TaskOk(s, t))
    && (forall w :: w in s.waiters ==> WaiterOk(s, w))
    && (forall p, t :: 0 <= p < |s.promises| && t in Stored(s.promises[p]) ==> StoredOk(s, p, t))
    && (forall f :: 0 <= f < |s.fibers| ==> FiberOk(s, f))
    && !s.control.Crashed?
    && (s.control.InFiber? ==>
          s.control.fiber < |s.fibers| && s.fibers[s.control.fiber].status.Running?)
  }

  // Fiber accounting

  /** Forked fibers that have not returned and not raised. */
  function LiveIn(sw: SwitchId): Fiber -> nat
  {
    (x: Fiber) => if !x.kind.Main? && !x.status.Finished? && x.switch == sw then 1 else 0
  }

  /** The decrements the main fiber has made so far: one per resumed segment that ended, and one for finishing. */
  function MainSpent(main: Fiber): nat
  {
    match main.status
    case NotStarted => 0
    case Running => if main.resumes == 0 then 0 else main.resumes - 1
    case Suspended(_) => main.resumes
    case Dropped => main.resumes
    case Finished => main.resumes + 1
  }

  function Expected(s: State, sw: SwitchId): int
    requires |s.fibers| > 0 && sw < |s.base|
  {
    s.base[sw] + Total(s.fibers, LiveIn(sw)) - (if sw == s.fibers[0].switch then MainSpent(s.fibers[0]) else 0)
  }

  ghost predicate Accounted(s: State)
  {
    && |s.fibers| > 0 && |s.base| == |s.switches|
    && forall sw :: 0 <= sw < |s.switches| ==> s.switches[sw] == Expected(s, sw)
  }

  ghost predicate Core(s: State, limbo: set<FiberId>)
  {
    Linear(s, limbo) && Agree(s) && Accounted(s)
  }

  /** The invariant between steps: no continuation is in limbo. */
  ghost predicate Inv(s: State)
  {
    Core(s, {})
  }

  // A fiber without holders is mentioned nowhere

  lemma Unmentioned(s: State, f: FiberId)
    requires Holders(s, f) == 0
    ensures forall t :: t in s.queue ==> t.fiber != f
    ensures forall w :: w in s.waiters ==> w.fiber != f
    ensures forall p, t :: 0 <= p < |s.promises| && t in Stored(s.promises[p]) ==> t.fiber != f
    ensures s.control.InFiber? ==> s.control.fiber != f
  {
    forall t | t in s.queue ensures t.fiber != f {
      TotalAtLeast(s.queue, t, Holds(f));
    }
    forall w | w in s.waiters ensures w.fiber != f {
      TotalAtLeast(s.waiters, w, Waits(f));
    }
    forall p, t | 0 <= p < |s.promises| && t in Stored(s.promises[p]) ensures t.fiber != f {
      TotalAtLeast(s.promises, s.promises[p], Stores(f));
      TotalAtLeast(Stored(s.promises[p]), t, Holds(f));
    }
  }

  // Polling

  function ResultHolders(r: PollResult, f: FiberId): nat
  {
    Total(r.remaining, Waits(f)) + Total(r.toWake, Holds(f))
  }

  lemma {:induction false} FoldKeepsHolders(acc: PollResult, ws: seq<Waiter>, ready: Waiter -> bool, f: FiberId)
    ensures ResultHolders(FoldWaiters(acc, ws, ready), f) == ResultHolders(acc, f) + Total(ws, Waits(f))
    decreases |ws|
  {
    if ws != [] {
      FoldKeepsHolders(ProcessWaiter(acc, ws[0], ready(ws[0])), ws[1..], ready, f);
    }
  }

  ghost predicate ResultOk(s: State, r: PollResult)
  {
    && (forall w :: w in r.remaining ==> WaiterOk(s, w))
    && (forall t :: t in r.toWake ==> TaskOk(s, t))
  }

  lemma {:induction false} FoldKeepsAgreement(s: State, acc: PollResult, ws: seq<Waiter>, ready: Waiter -> bool)
    requires ResultOk(s, acc) && forall w :: w in ws ==> WaiterOk(s, w)
    ensures ResultOk(s, FoldWaiters(acc, ws, ready))
    decreases |ws|
  {
    if ws != [] {
      assert WaiterOk(s, ws[0]);
      FoldKeepsAgreement(s, ProcessWaiter(acc, ws[0], ready(ws[0])), ws[1..], ready);
    }
  }

  lemma PollKeeps(s: State, ready: Waiter -> bool)
    requires Inv(s)
    ensures Inv(Poll(s, ready))
  {
    var s' := Poll(s, ready);
    var r := CheckIo(s.waiters, ready);
    forall f: FiberId ensures Holders(s', f) == Holders(s, f) {
      FoldKeepsHolders(PollResult([], []), s.waiters, ready, f);
      TotalAppend(s.queue, r.toWake, Holds(f));
    }
    FoldKeepsAgreement(s, PollResult([], []), s.waiters, ready);
    SameTablesAgree(s, s');
  }

  // Frames: closures agree with any state whose fiber and promise tables are the same

  lemma SameTablesAgree(s: State, s': State)
    requires s'.fibers == s.fibers && s'.promises == s.promises && |s'.switches| == |s.switches|
    ensures forall t :: TaskOk(s', t) == TaskOk(s, t)
    ensures forall w :: WaiterOk(s', w) == WaiterOk(s, w)
    ensures forall p, t :: StoredOk(s', p, t) == StoredOk(s, p, t)
    ensures forall f :: 0 <= f < |s.fibers| ==> FiberOk(s', f) == FiberOk(s, f)
  {
  }

  /** Taking the head closure off the queue puts its fiber in limbo. */
  lemma DetachHead(s: State, s': State)
    requires Core(s, {}) && s.queue != [] && s' == s.(queue := s.queue[1..])
    ensures TaskOk(s, s.queue[0]) && Alive(s.fibers[s.queue[0].fiber])
    ensures Core(s', {s.queue[0].fiber}) && Holders(s', s.queue[0].fiber) == 0
  {
    var g := s.queue[0].fiber;
    assert TaskOk(s, s.queue[0]);
    forall f: FiberId ensures Holders(s', f) + Holds(f)(s.queue[0]) == Holders(s, f) {
    }
    assert Holders(s, g) == 1;
    SameTablesAgree(s, s');
  }

  /** Leaving the running fiber puts it in limbo. */
  lemma DetachControl(s: State, s': State)
    requires Core(s, {}) && s.control.InFiber? && s' == s.(control := Scheduling)
    ensures Core(s', {s.control.fiber}) && Holders(s', s.control.fiber) == 0
  {
    var g := s.control.fiber;
    forall f: FiberId ensures Holders(s', f) + InControl(s, f) == Holders(s, f) {
    }
    assert Holders(s, g) == 1;
    SameTablesAgree(s, s');
  }

  /** Rewriting the record of a fiber in limbo disturbs nobody else. */
  lemma Rewrite(s: State, f: FiberId, x: Fiber, s': State)
    requires Linear(s, {f}) && Agree(s) && f < |s.fibers| && Holders(s, f) == 0
    requires s' == s.(fibers := s.fibers[f := x]) && FiberOk(s', f)
    ensures Linear(s', {f}) && Agree(s') && Holders(s', f) == 0
    ensures forall sw ::
              Total(s'.fibers, LiveIn(sw)) + LiveIn(sw)(s.fibers[f]) == Total(s.fibers, LiveIn(sw)) + LiveIn(sw)(x)
  {
    Unmentioned(s, f);
    forall g: FiberId ensures Holders(s', g) == Holders(s, g) {
    }
    forall t | t in s.queue ensures TaskOk(s', t) {
      assert TaskOk(s, t);
    }
    forall w | w in s.waiters ensures WaiterOk(s', w) {
      assert WaiterOk(s, w);
    }
    forall p, t | 0 <= p < |s.promises| && t in Stored(s.promises[p]) ensures StoredOk(s', p, t) {
      assert StoredOk(s, p, t);
    }
    forall g | 0 <= g < |s.fibers| ensures FiberOk(s', g) {
      assert FiberOk(s, g);
    }
    forall sw
      ensures Total(s'.fibers, LiveIn(sw)) + LiveIn(sw)(s.fibers[f]) == Total(s.fibers, LiveIn(sw)) + LiveIn(sw)(x)
    {
      TotalUpdate(s.fibers, f, x, LiveIn(sw));
    }
  }

  /** Queueing a closure for a fiber in limbo gives the continuation its one holder back. */
  lemma AttachTask(s: State, t: Task)
    requires Core(s, {t.fiber}) && TaskOk(s, t)
    ensures Core(Enqueue(s, t), {})
  {
    var s' := Enqueue(s, t);
    assert Alive(s.fibers[t.fiber]);
    forall f: FiberId ensures Holders(s', f) == Holders(s, f) + Holds(f)(t) {
      TotalSnoc(s.queue, t, Holds(f));
    }
    SameTablesAgree(s, s');
  }

  lemma AttachControl(s: State, f: FiberId, a: Answer)
    requires Core(s, {f}) && s.control.Scheduling? && f < |s.fibers| && s.fibers[f].status.Running?
    ensures Core(s.(control := InFiber(f, a)), {})
  {
    var s' := s.(control := InFiber(f, a));
    forall g: FiberId ensures Holders(s', g) == Holders(s, g) + InControl(s', g) {
    }
    SameTablesAgree(s, s');
  }

  lemma AttachWaiter(s: State, w: Waiter)
    requires Core(s, {w.fiber}) && WaiterOk(s, w)
    ensures Core(s.(waiters := [w] + s.waiters), {})
  {
    var s' := s.(waiters := [w] + s.waiters);
    assert Alive(s.fibers[w.fiber]);
    forall f: FiberId ensures Holders(s', f) == Holders(s, f) + Waits(f)(w) {
      assert s'.waiters[1..] == s.waiters;
    }
    SameTablesAgree(s, s');
  }

  lemma WakerCounted(s: State, p: PromiseId, t: Task, g: FiberId)
    requires p < |s.promises| && s.promises[p].Pending?
    ensures Holders(Settle(s, p, AfterAddWaiter(s.promises[p], t)), g) == Holders(s, g) + Holds(g)(t)
  {
    var c := AfterAddWaiter(s.promises[p], t).state;
    TotalUpdate(s.promises, p, c, Stores(g));
    assert Stored(c)[1..] == Stored(s.promises[p]);
    assert s.queue + [] == s.queue;
  }

  lemma WakerAgrees(s: State, p: PromiseId, f: FiberId)
    requires Agree(s) && p < |s.promises| && s.promises[p].Pending? && StoredOk(s, p, Wake(f, p))
    ensures Agree(Settle(s, p, AfterAddWaiter(s.promises[p], Wake(f, p))))
  {
    var t := Wake(f, p);
    var s' := Settle(s, p, AfterAddWaiter(s.promises[p], t));
    assert s'.queue == s.queue;
    forall u | u in s'.queue ensures TaskOk(s', u) {
      assert TaskOk(s, u);
    }
    forall w | w in s'.waiters ensures WaiterOk(s', w) {
      assert WaiterOk(s, w);
    }
    forall q, u | 0 <= q < |s'.promises| && u in Stored(s'.promises[q]) ensures StoredOk(s', q, u) {
      assert StoredOk(s, q, u) || (q == p && u == t);
    }
    forall g | 0 <= g < |s.fibers| ensures FiberOk(s', g) {
      assert FiberOk(s, g);
    }
  }

  lemma AttachWaker(s: State, p: PromiseId, f: FiberId)
    requires Core(s, {f}) && p < |s.promises| && s.promises[p].Pending?
    requires StoredOk(s, p, Wake(f, p))
    ensures Core(Settle(s, p, AfterAddWaiter(s.promises[p], Wake(f, p))), {})
  {
    var s' := Settle(s, p, AfterAddWaiter(s.promises[p], Wake(f, p)));
    forall g: FiberId ensures Holders(s', g) == Holders(s, g) + Holds(g)(Wake(f, p)) {
      WakerCounted(s, p, Wake(f, p), g);
    }
    assert Linear(s', {});
    WakerAgrees(s, p, f);
  }

  /** Settling a promise moves its wakers to the run queue; nobody loses or gains a holder. */
  lemma SettleKeeps(s: State, p: PromiseId, o: Outcome<Value, Exn, Task>, limbo: set<FiberId>)
    requires Core(s, limbo) && p < |s.promises|
    requires o.enqueued == Stored(s.promises[p]) && !o.state.Pending?
    requires !s.promises[p].Pending? ==> o.state == s.promises[p]
    ensures Core(Settle(s, p, o), limbo)
    ensures forall f :: Holders(Settle(s, p, o), f) == Holders(s, f)
  {
    var s' := Settle(s, p, o);
    forall f: FiberId ensures Holders(s', f) == Holders(s, f) {
      TotalUpdate(s.promises, p, o.state, Stores(f));
      TotalAppend(s.queue, o.enqueued, Holds(f));
    }
    forall t | t in s'.queue ensures TaskOk(s', t) {
      if t in s.queue {
        assert TaskOk(s, t);
      } else {
        assert StoredOk(s, p, t);
      }
    }
    forall w | w in s'.waiters ensures WaiterOk(s', w) {
      assert WaiterOk(s, w);
    }
    forall q, t | 0 <= q < |s'.promises| && t in Stored(s'.promises[q]) ensures StoredOk(s', q, t) {
      assert StoredOk(s, q, t);
    }
    forall g | 0 <= g < |s.fibers| ensures FiberOk(s', g) {
      assert FiberOk(s, g);
    }
  }

  /** A fresh promise holds nothing. */
  lemma FreshPromiseKeeps(s: State, limbo: set<FiberId>)
    requires Core(s, limbo)
    ensures Core(AddPromise(s), limbo)
  {
    var s' := AddPromise(s);
    forall f: FiberId ensures Holders(s', f) == Holders(s, f) {
      TotalSnoc(s.promises, Pending([]), Stores(f));
    }
    forall t | t in s'.queue ensures TaskOk(s', t) {
      assert TaskOk(s, t);
    }
    forall w | w in s'.waiters ensures WaiterOk(s', w) {
      assert WaiterOk(s, w);
    }
    forall q, t | 0 <= q < |s'.promises| && t in Stored(s'.promises[q]) ensures StoredOk(s', q, t) {
      assert StoredOk(s, q, t);
    }
    forall g | 0 <= g < |s.fibers| ensures FiberOk(s', g) {
      assert FiberOk(s, g);
    }
  }

  /** Forking adds one fiber, one Start closure for it, and one to the count of its switch. */
  lemma SpawnKeeps(s: State, kind: Kind, sw: SwitchId, budget: nat)
    requires Core(s, {}) && sw < |s.switches| && !kind.Main? && (kind.Promised? ==> kind.p < |s.promises|)
    ensures Core(Spawn(s, kind, sw, budget), {})
  {
    var s' := Spawn(s, kind, sw, budget);
    var child := |s.fibers|;
    var x := Fiber(kind, sw, budget, 0, NotStarted);
    forall f: FiberId ensures Holders(s', f) == Holders(s, f) + Holds(f)(Start(child)) {
      TotalSnoc(s.queue, Start(child), Holds(f));
    }
    forall t | t in s'.queue ensures TaskOk(s', t) {
      assert TaskOk(s, t) || t == Start(child);
    }
    forall w | w in s'.waiters ensures WaiterOk(s', w) {
      assert WaiterOk(s, w);
    }
    forall q, t | 0 <= q < |s'.promises| && t in Stored(s'.promises[q]) ensures StoredOk(s', q, t) {
      assert StoredOk(s, q, t);
    }
    forall g | 0 <= g < |s'.fibers| ensures FiberOk(s', g) {
      assert g < |s.fibers| ==> FiberOk(s, g);
    }
    forall k | 0 <= k < |s'.switches| ensures s'.switches[k] == Expected(s', k) {
      TotalSnoc(s.fibers, x, LiveIn(k));
      assert s.switches[k] == Expected(s, k);
    }
  }

  /** Charging the budget of a fiber changes nothing the invariant speaks of. */
  lemma ChargeKeeps(s: State, f: FiberId, cost: nat)
    requires Core(s, {}) && f < |s.fibers| && cost <= s.fibers[f].effectsLeft
    ensures Core(Charge(s, f, cost), {})
  {
    var s' := Charge(s, f, cost);
    forall g: FiberId ensures Holders(s', g) == Holders(s, g) {
    }
    forall t | t in s.queue ensures TaskOk(s', t) {
      assert TaskOk(s, t);
    }
    forall w | w in s.waiters ensures WaiterOk(s', w) {
      assert WaiterOk(s, w);
    }
    forall p, t | 0 <= p < |s.promises| && t in Stored(s.promises[p]) ensures StoredOk(s', p, t) {
      assert StoredOk(s, p, t);
    }
    forall g | 0 <= g < |s.fibers| ensures FiberOk(s', g) {
      assert FiberOk(s, g);
    }
    forall k | 0 <= k < |s'.switches| ensures s'.switches[k] == Expected(s', k) {
      TotalPointwise(s.fibers, LiveIn(k), s'.fibers, LiveIn(k));
      assert s.switches[k] == Expected(s, k);
    }
  }

  // Scheduler turns

  lemma EnterKeeps(s: State, f: FiberId, a: Answer, resumed: nat)
    requires Core(s, {f}) && s.control.Scheduling? && f < |s.fibers| && Holders(s, f) == 0
    requires if resumed == 0 then s.fibers[f].status.NotStarted? else resumed == 1 && s.fibers[f].status.Suspended?
    ensures Core(Enter(s, f, a, resumed), {})
  {
    assert FiberOk(s, f);
    var x := s.fibers[f].(status := Running, resumes := s.fibers[f].resumes + resumed);
    var s1 := s.(fibers := s.fibers[f := x]);
    Rewrite(s, f, x, s1);
    forall k | 0 <= k < |s1.switches| ensures s1.switches[k] == Expected(s1, k) {
      assert s.switches[k] == Expected(s, k);
      assert LiveIn(k)(s.fibers[f]) == LiveIn(k)(x);
    }
    AttachControl(s1, f, a);
    assert Enter(s, f, a, resumed) == s1.(control := InFiber(f, a));
  }

  lemma ExecuteKeeps(s: State, n: int)
    requires Core(s, {}) && s.control.Scheduling? && s.queue != [] && TaskInRange(s, s.queue[0])
    ensures Core(Execute(s.(queue := s.queue[1..]), s.queue[0], n), {})
  {
    var t := s.queue[0];
    var s1 := s.(queue := s.queue[1..]);
    DetachHead(s, s1);
    SameTablesAgree(s, s1);
    match t
    case Start(f) => EnterKeeps(s1, f, Continue(Unit), 0);
    case Resume(f, a) => EnterKeeps(s1, f, a, 1);
    case Wake(f, p) => AttachTask(s1, Resume(f, Delivered(s1.promises[p])));
    case IoWake(f, sock, Connect) => AttachTask(s1, Resume(f, Continue(Plain(sock))));
    case IoWake(f, sock, Read) => AttachTask(s1, Resume(f, ReadAnswer(n)));
    case IoTimeout(f, sock, Connect) => AttachTask(s1, Resume(f, Discontinue(ConnectionTimeout)));
    case IoTimeout(f, sock, Read) => AttachTask(s1, Resume(f, Discontinue(NetworkError)));
  }

  lemma TurnKeeps(s: State, a: Action)
    requires Inv(s) && a.Tick? && Enabled(s, a)
    ensures Inv(Next(s, a))
  {
    PollKeeps(s, a.ready);
    var polled := Poll(s, a.ready);
    if polled.queue != [] {
      assert TaskOk(polled, polled.queue[0]);
      ExecuteKeeps(polled, a.n);
    }
  }

  // Effects

  /** Suspending detaches the running fiber and settles the main fiber's extra decrement. */
  lemma SuspendDetaches(s: State, f: FiberId, cause: Cause)
    requires Core(s, {}) && s.control.InFiber? && f == s.control.fiber && FiberInRange(s, f)
    ensures Core(Suspend(s, f, cause), {f}) && Holders(Suspend(s, f, cause), f) == 0
  {
    var s1 := s.(control := Scheduling);
    DetachControl(s, s1);
    SameTablesAgree(s, s1);
    assert FiberOk(s1, f);
    var x := s.fibers[f].(status := Suspended(cause));
    var s2 := s1.(fibers := s1.fibers[f := x]);
    Rewrite(s1, f, x, s2);
    var s3 := Suspend(s, f, cause);
    assert s3 == s2.(switches := s3.switches);
    forall g: FiberId ensures Holders(s3, g) == Holders(s2, g) {
    }
    SameTablesAgree(s2, s3);
    forall k | 0 <= k < |s3.switches| ensures s3.switches[k] == Expected(s3, k) {
      assert s1.switches[k] == Expected(s1, k);
      assert LiveIn(k)(s.fibers[f]) == LiveIn(k)(x);
    }
  }

  /** Counting a finished fiber out: the one decrement of its switch, and the main fiber's extra one. */
  lemma FinishKeeps(s: State, f: FiberId, s3: State)
    requires Core(s, {}) && s.control.InFiber? && f == s.control.fiber && FiberInRange(s, f)
    requires s.fibers[f].kind.Promised? ==> !s.promises[s.fibers[f].kind.p].Pending?
    requires s3 == SetStatus(Count(EndSegment(s, f), s.fibers[f].switch, -1), f, Finished).(control := Scheduling)
    ensures Core(s3, {})
  {
    var s1 := s.(control := Scheduling);
    DetachControl(s, s1);
    SameTablesAgree(s, s1);
    assert FiberOk(s1, f);
    var x := s.fibers[f].(status := Finished);
    var s2 := s1.(fibers := s1.fibers[f := x]);
    Rewrite(s1, f, x, s2);
    assert s3 == s2.(switches := s3.switches);
    forall g: FiberId ensures Holders(s3, g) == Holders(s2, g) {
    }
    SameTablesAgree(s2, s3);
    forall k | 0 <= k < |s3.switches| ensures s3.switches[k] == Expected(s3, k) {
      assert s1.switches[k] == Expected(s1, k);
    }
  }

  lemma EndKeeps(s: State, f: FiberId, result: Value)
    requires Core(s, {}) && s.control.InFiber? && f == s.control.fiber && FiberInRange(s, f)
    ensures Core(End(s, f, result), {})
  {
    var kind := s.fibers[f].kind;
    if kind.Promised? {
      var o := AfterResolve(s.promises[kind.p], result);
      SettleKeeps(s, kind.p, o, {});
      FinishKeeps(Settle(s, kind.p, o), f, End(s, f, result));
    } else {
      FinishKeeps(s, f, End(s, f, result));
    }
  }

  // Tcp_close

  lemma {:induction false} KeepOpenSplits(ws: seq<Waiter>, f: FiberId, sock: int)
    ensures Total(KeepOpen(ws, sock), Waits(f)) <= Total(ws, Waits(f))
    ensures WaitsOn(ws, f, sock) ==> Total(KeepOpen(ws, sock), Waits(f)) < Total(ws, Waits(f))
    ensures !WaitsOn(ws, f, sock) ==> Total(KeepOpen(ws, sock), Waits(f)) == Total(ws, Waits(f))
  {
    if ws != [] {
      KeepOpenSplits(ws[1..], f, sock);
      assert WaitsOn(ws, f, sock) <==> (ws[0].fiber == f && ws[0].sock == sock) || WaitsOn(ws[1..], f, sock) by {
        assert forall w :: w in ws <==> w == ws[0] || w in ws[1..];
      }
      TotalAppend(if ws[0].sock != sock then [ws[0]] else [], KeepOpen(ws[1..], sock), Waits(f));
    }
  }

  lemma {:induction false} KeepOpenMembers(ws: seq<Waiter>, sock: int)
    ensures forall w :: w in KeepOpen(ws, sock) <==> w in ws && w.sock != sock
  {
    if ws != [] {
      KeepOpenMembers(ws[1..], sock);
    }
  }

  lemma CloseKeepsLinear(s: State, sock: int)
    requires Linear(s, {})
    ensures Linear(CloseSocket(s, sock), {})
    ensures forall f: FiberId :: WaitsOn(s.waiters, f, sock) ==> Holders(CloseSocket(s, sock), f) == 0
  {
    var s' := CloseSocket(s, sock);
    forall f: FiberId
      ensures Holders(s', f) == if f < |s'.fibers| && Alive(s'.fibers[f]) then 1 else 0
      ensures WaitsOn(s.waiters, f, sock) ==> Holders(s', f) == 0
    {
      KeepOpenSplits(s.waiters, f, sock);
      assert Holders(s, f) <= 1;
    }
  }

  lemma CloseKeepsAgreement(s: State, sock: int)
    requires Agree(s) && s.control.InFiber?
    requires forall f: FiberId :: WaitsOn(s.waiters, f, sock) ==> Holders(CloseSocket(s, sock), f) == 0
    ensures Agree(CloseSocket(s, sock))
  {
    var s' := CloseSocket(s, sock);
    KeepOpenMembers(s.waiters, sock);
    forall t | t in s'.queue ensures TaskOk(s', t) {
      assert TaskOk(s, t);
      if WaitsOn(s.waiters, t.fiber, sock) {
        Unmentioned(s', t.fiber);
      }
    }
    forall w | w in s'.waiters ensures WaiterOk(s', w) {
      assert WaiterOk(s, w);
      if WaitsOn(s.waiters, w.fiber, sock) {
        Unmentioned(s', w.fiber);
      }
    }
    forall q, t | 0 <= q < |s'.promises| && t in Stored(s'.promises[q]) ensures StoredOk(s', q, t) {
      assert StoredOk(s, q, t);
      if WaitsOn(s.waiters, t.fiber, sock) {
        Unmentioned(s', t.fiber);
      }
    }
    forall g | 0 <= g < |s'.fibers| ensures FiberOk(s', g) {
      assert FiberOk(s, g);
      if WaitsOn(s.waiters, g, sock) {
        WaitingFibersAreSuspended(s, g, sock);
      }
    }
    if WaitsOn(s.waiters, s.control.fiber, sock) {
      Unmentioned(s', s.control.fiber);
    }
  }

  lemma CloseKeepsCounts(s: State, sock: int)
    requires Agree(s) && Accounted(s)
    ensures Accounted(CloseSocket(s, sock))
  {
    var s' := CloseSocket(s, sock);
    forall k | 0 <= k < |s'.switches| ensures s'.switches[k] == Expected(s', k) {
      assert s.switches[k] == Expected(s, k);
      forall g | 0 <= g < |s.fibers| ensures LiveIn(k)(s.fibers[g]) == LiveIn(k)(s'.fibers[g]) {
        if WaitsOn(s.waiters, g, sock) {
          WaitingFibersAreSuspended(s, g, sock);
        }
      }
      TotalPointwise(s.fibers, LiveIn(k), s'.fibers, LiveIn(k));
      if WaitsOn(s.waiters, 0, sock) {
        WaitingFibersAreSuspended(s, 0, sock);
      }
    }
  }

  lemma CloseKeeps(s: State, sock: int)
    requires Core(s, {}) && s.control.InFiber?
    ensures Core(CloseSocket(s, sock), {})
  {
    CloseKeepsLinear(s, sock);
    CloseKeepsAgreement(s, sock);
    CloseKeepsCounts(s, sock);
  }

  lemma WaitingFibersAreSuspended(s: State, f: FiberId, sock: int)
    requires Agree(s) && WaitsOn(s.waiters, f, sock)
    ensures f < |s.fibers| && s.fibers[f].status.Suspended?
  {
    var w :| w in s.waiters && w.fiber == f && w.sock == sock;
    assert WaiterOk(s, w);
  }

  // Every handler keeps the invariant

  lemma AnsweredKeeps(s: State, f: FiberId, a: Answer)
    requires Core(s, {}) && s.control.InFiber? && s.control.fiber == f
    ensures Core(Answered(s, f, a), {})
  {
    var s' := Answered(s, f, a);
    forall g: FiberId ensures Holders(s', g) == Holders(s, g) {
    }
    SameTablesAgree(s, s');
  }

  lemma ForkPromiseKeeps(s: State, sw: SwitchId, budget: nat)
    requires Core(s, {}) && sw < |s.switches|
    ensures Core(Spawn(AddPromise(s), Promised(|s.promises|), sw, budget), {})
  {
    FreshPromiseKeeps(s, {});
    SpawnKeeps(AddPromise(s), Promised(|s.promises|), sw, budget);
  }

  lemma WaitThenSuspend(s: State, f: FiberId, sock: int, op: Operation)
    requires f < |s.fibers| && s.fibers[f].switch < |s.switches|
    ensures var s' := Suspend(s, f, OnIo(sock, op)); var w := Waiter(sock, op, 0, MAX_TIMEOUT, f);
            WaitForIo(s, f, sock, op) == s'.(waiters := [w] + s'.waiters) && WaiterOk(s', w)
  {
  }

  lemma QueueThenSuspend(s: State, f: FiberId)
    requires f < |s.fibers| && s.fibers[f].switch < |s.switches|
    ensures var s' := Suspend(s, f, OnYield); var t := Resume(f, Continue(Unit));
            Suspend(Enqueue(s, t), f, OnYield) == Enqueue(s', t) && TaskOk(s', t)
  {
  }

  /** Registering the waker before suspending is the same as registering it after. */
  lemma RegisterThenSuspend(s: State, f: FiberId, p: PromiseId)
    requires f < |s.fibers| && s.fibers[f].switch < |s.switches| && p < |s.promises| && s.promises[p].Pending?
    ensures var o := AfterAddWaiter(s.promises[p], Wake(f, p));
            Suspend(Settle(s, p, o), f, OnPromise(p)) == Settle(Suspend(s, f, OnPromise(p)), p, o)
  {
    assert EndSegment(s, f).queue == s.queue && EndSegment(s, f).promises == s.promises;
  }

  lemma AwaitKeeps(s: State, f: FiberId, p: PromiseId)
    requires Core(s, {}) && s.control.InFiber? && f == s.control.fiber && FiberInRange(s, f) && p < |s.promises|
    ensures Core(HandleAwait(s, f, p), {})
  {
    if s.promises[p].Pending? {
      SuspendDetaches(s, f, OnPromise(p));
      AttachWaker(Suspend(s, f, OnPromise(p)), p, f);
      RegisterThenSuspend(s, f, p);
    } else {
      AnsweredKeeps(s, f, Delivered(s.promises[p]));
    }
  }

  lemma IoKeeps(s: State, f: FiberId, sock: int, op: Operation)
    requires Core(s, {}) && s.control.InFiber? && f == s.control.fiber && FiberInRange(s, f)
    ensures Core(WaitForIo(s, f, sock, op), {})
  {
    SuspendDetaches(s, f, OnIo(sock, op));
    WaitThenSuspend(s, f, sock, op);
    AttachWaiter(Suspend(s, f, OnIo(sock, op)), Waiter(sock, op, 0, MAX_TIMEOUT, f));
  }

  lemma YieldKeeps(s: State, f: FiberId)
    requires Core(s, {}) && s.control.InFiber? && f == s.control.fiber && FiberInRange(s, f)
    ensures Core(Suspend(Enqueue(s, Resume(f, Continue(Unit))), f, OnYield), {})
  {
    SuspendDetaches(s, f, OnYield);
    QueueThenSuspend(s, f);
    AttachTask(Suspend(s, f, OnYield), Resume(f, Continue(Unit)));
  }

  lemma SettlingKeeps(s: State, p: PromiseId, v: Value, e: Exn)
    requires Core(s, {}) && p < |s.promises|
    ensures Core(Settle(s, p, AfterResolve(s.promises[p], v)), {})
    ensures Core(Settle(s, p, AfterFail(s.promises[p], e)), {})
  {
    SettleKeeps(s, p, AfterResolve(s.promises[p], v), {});
    SettleKeeps(s, p, AfterFail(s.promises[p], e), {});
  }

  lemma HandleKeeps(s: State, f: FiberId, e: Effect)
    requires Core(s, {}) && s.control.InFiber? && f == s.control.fiber && FiberInRange(s, f) && EffectInRange(s, e)
    ensures Core(Handle(s, f, e), {})
  {
    match e
    case Fork(sw, budget) =>
      SpawnKeeps(s, Forked, sw, budget);
      AnsweredKeeps(Spawn(s, Forked, sw, budget), f, Continue(Unit));
    case ForkPromise(sw, budget) =>
      ForkPromiseKeeps(s, sw, budget);
      AnsweredKeeps(Spawn(AddPromise(s), Promised(|s.promises|), sw, budget), f, Continue(Plain(|s.promises|)));
    case Await(p) => AwaitKeeps(s, f, p);
    case Yield => YieldKeeps(s, f);
    case TcpConnect(sock, ip, rc) =>
      if sock < 0 || ip == 0 || rc < 0 {
        AnsweredKeeps(s, f, HandleConnect(s, f, sock, ip, rc).control.last);
      } else {
        IoKeeps(s, f, sock, Connect);
      }
    case TcpRead(sock, n) =>
      if n > 0 || n == -2 {
        AnsweredKeeps(s, f, ReadAnswer(n));
      } else {
        IoKeeps(s, f, sock, Read);
      }
    case TcpClose(sock) =>
      CloseKeeps(s, sock);
      AnsweredKeeps(CloseSocket(s, sock), f, Continue(Unit));
    case Immediate(a) => AnsweredKeeps(s, f, a);
    case NewPromise =>
      FreshPromiseKeeps(s, {});
      AnsweredKeeps(AddPromise(s), f, Continue(Plain(|s.promises|)));
    case ResolvePromise(p, v) =>
      SettlingKeeps(s, p, v, NetworkError);
      AnsweredKeeps(Settle(s, p, AfterResolve(s.promises[p], v)), f, Continue(Unit));
    case FailPromise(p, x) =>
      SettlingKeeps(s, p, Unit, x);
      AnsweredKeeps(Settle(s, p, AfterFail(s.promises[p], x)), f, Continue(Unit));
  }

  // Main results

  lemma StepKeepsInv(s: State, a: Action)
    requires Inv(s) && Enabled(s, a)
    ensures Inv(Next(s, a))
  {
    match a
    case Tick(_, _) => TurnKeeps(s, a);
    case Perform(e) =>
      ChargeKeeps(s, s.control.fiber, Cost(e));
      HandleKeeps(Charge(s, s.control.fiber, Cost(e)), s.control.fiber, e);
    case Return(n) => EndKeeps(s, s.control.fiber, OkOf(n));
    case Raise(e) => EndKeeps(s, s.control.fiber, ErrorOf(e));
  }

  lemma InitialInv(s: State)
    requires Initial(s)
    ensures Inv(s)
  {
    forall f: FiberId ensures Holders(s, f) == if f < |s.fibers| && Alive(s.fibers[f]) then 1 else 0 {
      assert Total(s.queue, Holds(f)) == Holds(f)(Start(0));
    }
    forall k | 0 <= k < |s.switches| ensures s.switches[k] == Expected(s, k) {
      assert Total(s.fibers, LiveIn(k)) == 0;
    }
  }

  lemma {:induction false} RunKeepsInv(s: State, run: seq<Action>)
    requires Inv(s) && IsRun(s, run)
    ensures Inv(After(s, run))
    decreases |run|
  {
    if run != [] {
      StepKeepsInv(s, run[0]);
      RunKeepsInv(Next(s, run[0]), run[1..]);
    }
  }

  /** Continuation linearity: in every reachable state the continuation of a fiber that has neither ended nor been
      dropped is held exactly once, by the queue, an I/O waiter, a pending promise or the running context; a
      fiber that ended or was dropped is held nowhere, so nothing is ever resumed twice. */
  lemma ContinuationLinearity(s0: State, run: seq<Action>, f: FiberId)
    requires Initial(s0) && IsRun(s0, run)
    ensures var s := After(s0, run);
            Holders(s, f) == if f < |s.fibers| && Alive(s.fibers[f]) then 1 else 0
  {
    InitialInv(s0);
    RunKeepsInv(s0, run);
  }

  /** The failwith "Promise still pending" of a promise waker is unreachable. */
  lemma WakersSeeSettledPromises(s0: State, run: seq<Action>, t: Task)
    requires Initial(s0) && IsRun(s0, run)
    ensures var s := After(s0, run);
            !s.control.Crashed? &&
            (t in s.queue && t.Wake? ==> t.promise < |s.promises| && !s.promises[t.promise].Pending?)
  {
    InitialInv(s0);
    RunKeepsInv(s0, run);
    var s := After(s0, run);
    if t in s.queue {
      assert TaskOk(s, t);
    }
  }

  /** Exact fiber counts: the counter of every switch is its base, plus its forked fibers that have not ended,
      minus what the main fiber has spent. */
  lemma FiberCountsExact(s0: State, run: seq<Action>, sw: SwitchId)
    requires Initial(s0) && IsRun(s0, run) && sw < |After(s0, run).switches|
    ensures var s := After(s0, run);
            |s.fibers| > 0 && |s.base| == |s.switches| && s.switches[sw] == Expected(s, sw)
  {
    InitialInv(s0);
    RunKeepsInv(s0, run);
  }

  /** The counter of the main fiber's switch is what its name promises (unfinished forked fibers, plus one while
      the main fiber itself is unfinished) exactly when no resumed segment of the main fiber has ended; every
      such segment costs one decrement too many. */
  lemma MainSwitchCountExactIff(s0: State, run: seq<Action>)
    requires Initial(s0) && IsRun(s0, run)
    ensures var s := After(s0, run);
            |s.fibers| > 0 && s.fibers[0].switch < |s.switches| && |s.base| == |s.switches|
    ensures var s := After(s0, run); var main := s.fibers[0]; var sw := main.switch;
            s.switches[sw] == s.base[sw] + Total(s.fibers, LiveIn(sw)) - (if main.status.Finished? then 1 else 0)
            <==> main.resumes == 0 || (main.status.Running? && main.resumes == 1)
  {
    InitialInv(s0);
    RunKeepsInv(s0, run);
    var s := After(s0, run);
    assert FiberOk(s, 0);
    assert s.switches[s.fibers[0].switch] == Expected(s, s.fibers[0].switch);
  }

  // What one step can do to a fiber and to a promise

  /** The closure a scheduler turn executes, if any. */
  function Taken(s: State, a: Action): seq<Task>
    requires a.Tick?
  {
    var q := Poll(s, a.ready).queue;
    if q == [] then [] else [q[0]]
  }

  /** One-shot resumption with the right answer: a turn that executes Resume(f, x) finds f suspended and leaves it
      running with x; x is the value or the exception of the promise if f was awaiting one, unit if it yielded, and
      one of the outcomes of its socket operation if it was waiting for that. */
  lemma ResumeIsOneShot(s: State, a: Action, f: FiberId, x: Answer)
    requires Inv(s) && Enabled(s, a) && a.Tick? && Taken(s, a) == [Resume(f, x)]
    ensures f < |s.fibers| && s.fibers[f].status.Suspended?
    ensures match s.fibers[f].status.cause
            case OnPromise(p) =>
              p < |s.promises| && !s.promises[p].Pending? &&
              (if s.promises[p].Resolved? then x == Continue(s.promises[p].value)
               else x == Discontinue(s.promises[p].error))
            case OnIo(sock, Connect) => x in {Continue(Plain(sock)), Discontinue(ConnectionTimeout)}
            case OnIo(_, Read) =>
              (x.Continue? && x.value.Plain? && x.value.n > 0)
              || x in {Discontinue(SocketClosed), Discontinue(NetworkError)}
            case OnYield => x == Continue(Unit)
    ensures var s' := Next(s, a);
            && s'.control == InFiber(f, x) && s'.fibers[f].status.Running?
            && s'.fibers[f].resumes == s.fibers[f].resumes + 1
  {
    PollKeeps(s, a.ready);
    var polled := Poll(s, a.ready);
    assert TaskOk(polled, polled.queue[0]);
    SameTablesAgree(s, polled);
  }

  /** A continuation is lost in one way only: by Tcp_close, if and only if the socket is the one that an I/O waiter of
      the fiber names. */
  lemma OnlyCloseDrops(s: State, a: Action, f: FiberId)
    requires Enabled(s, a) && f < |s.fibers| && !s.fibers[f].status.Dropped?
    ensures f < |Next(s, a).fibers|
    ensures Next(s, a).fibers[f].status.Dropped? <==>
            a.Perform? && a.effect.TcpClose? && WaitsOn(s.waiters, f, a.effect.sock)
  {
    match a
    case Perform(e) =>
      var charged := Charge(s, s.control.fiber, Cost(e));
      if e.TcpClose? {
        CloseDropsWaiters(charged, s.control.fiber, e.sock, f);
      } else {
        OtherEffectsDropNobody(charged, s.control.fiber, e, f);
      }
    case Tick(ready, n) => TurnDropsNobody(s, ready, n, f);
    case Return(n) => EndDropsNobody(s, s.control.fiber, OkOf(n), f);
    case Raise(x) => EndDropsNobody(s, s.control.fiber, ErrorOf(x), f);
  }

  lemma CloseDropsWaiters(s: State, g: FiberId, sock: int, f: FiberId)
    requires f < |s.fibers| && FiberInRange(s, g) && !s.fibers[f].status.Dropped?
    ensures Handle(s, g, TcpClose(sock)).fibers[f].status.Dropped? <==> WaitsOn(s.waiters, f, sock)
  {
  }

  lemma TurnDropsNobody(s: State, ready: Waiter -> bool, n: int, f: FiberId)
    requires var q := Poll(s, ready).queue; q != [] ==> TaskInRange(s, q[0])
    requires f < |s.fibers| && !s.fibers[f].status.Dropped?
    ensures |Turn(s, ready, n).fibers| == |s.fibers| && !Turn(s, ready, n).fibers[f].status.Dropped?
  {
  }

  lemma EndDropsNobody(s: State, g: FiberId, result: Value, f: FiberId)
    requires FiberInRange(s, g) && f < |s.fibers| && !s.fibers[f].status.Dropped?
    ensures |End(s, g, result).fibers| == |s.fibers| && !End(s, g, result).fibers[f].status.Dropped?
  {
  }

  lemma OtherEffectsDropNobody(s: State, g: FiberId, e: Effect, f: FiberId)
    requires f < |s.fibers| && FiberInRange(s, g) && EffectInRange(s, e) && !e.TcpClose?
    requires !s.fibers[f].status.Dropped?
    ensures |Handle(s, g, e).fibers| >= |s.fibers| && !Handle(s, g, e).fibers[f].status.Dropped?
  {
  }

  /** Write-once across whole runs: a settled promise is never changed by any step. */
  lemma {:induction false} SettledForever(s: State, run: seq<Action>, p: PromiseId)
    requires IsRun(s, run) && p < |s.promises| && !s.promises[p].Pending?
    ensures p < |After(s, run).promises| && After(s, run).promises[p] == s.promises[p]
    decreases |run|
  {
    if run != [] {
      StepKeepsSettled(s, run[0], p);
      SettledForever(Next(s, run[0]), run[1..], p);
    }
  }

  lemma StepKeepsSettled(s: State, a: Action, p: PromiseId)
    requires Enabled(s, a) && p < |s.promises| && !s.promises[p].Pending?
    ensures p < |Next(s, a).promises| && Next(s, a).promises[p] == s.promises[p]
  {
    match a
    case Perform(e) => EffectKeepsSettled(Charge(s, s.control.fiber, Cost(e)), s.control.fiber, e, p);
    case _ =>
  }

  lemma EffectKeepsSettled(s: State, f: FiberId, e: Effect, p: PromiseId)
    requires FiberInRange(s, f) && EffectInRange(s, e) && p < |s.promises| && !s.promises[p].Pending?
    ensures p < |Handle(s, f, e).promises| && Handle(s, f, e).promises[p] == s.promises[p]
  {
  }

  /** The way a fiber ends decides its promise: if nobody settled it first, a return stores Ok and a raise Error. */
  lemma EndSettlesOwnPromise(s: State, a: Action)
    requires Inv(s) && Enabled(s, a) && (a.Return? || a.Raise?)
    requires s.fibers[s.control.fiber].kind.Promised?
    ensures var p := s.fibers[s.control.fiber].kind.p; var s' := Next(s, a);
            s'.promises[p] == (if !s.promises[p].Pending? then s.promises[p]
                               else Resolved(if a.Return? then OkOf(a.n) else ErrorOf(a.e)))
            && s'.queue == s.queue + Stored(s.promises[p])
            && s'.fibers[s.control.fiber].status.Finished?
  {
  }

  /** From the end of a fiber to whoever awaits it, over any run in between: a fiber that is resumed from awaiting the
      Fork_promise promise gets Ok of what the owner returned or Error of what it raised. */
  lemma AwaiterGetsOutcome(s: State, a: Action, run: seq<Action>, turn: Action, f: FiberId, x: Answer)
    requires Inv(s) && Enabled(s, a) && (a.Return? || a.Raise?) && s.fibers[s.control.fiber].kind.Promised?
    requires var p := s.fibers[s.control.fiber].kind.p; s.promises[p].Pending?
    requires IsRun(Next(s, a), run)
    requires var s' := After(Next(s, a), run); var p := s.fibers[s.control.fiber].kind.p;
             && Enabled(s', turn) && turn.Tick? && Taken(s', turn) == [Resume(f, x)]
             && f < |s'.fibers| && s'.fibers[f].status == Suspended(OnPromise(p))
    ensures x == Continue(if a.Return? then OkOf(a.n) else ErrorOf(a.e))
  {
    EndSettlesOwnPromise(s, a);
    StepKeepsInv(s, a);
    RunKeepsInv(Next(s, a), run);
    SettledForever(Next(s, a), run, s.fibers[s.control.fiber].kind.p);
    ResumeIsOneShot(After(Next(s, a), run), turn, f, x);
  }
}
