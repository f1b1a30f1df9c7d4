/** What fibers are told: from every effect to the value or exception its fiber continues with, over whole runs. */
module PioOutcomes {
  import opened Lists
  import opened Promises
  import opened Pio
  import opened PioSafety
  import opened PioPolling
  import PioLiveness
  import Sums

  // I/O waits, from the poll that takes the waiter off the list to the turn that resumes its fiber

  /** What is on the run queue for a fiber whose I/O wait is over: the closure of its waiter, or its answer. */
  datatype Errand = Closure(ready: bool) | Answering(x: Answer)

  function Carrier(f: FiberId, sock: int, op: Operation, e: Errand): Task
  {
    match e
    case Closure(ready) => if ready then IoWake(f, sock, op) else IoTimeout(f, sock, op)
    case Answering(x) => Resume(f, x)
  }

  /** The outcome of a wait; n is what the read of a woken reader returns. */
  function Outcome(sock: int, op: Operation, ready: bool, n: int): Answer
  {
    match op
    case Connect => if ready then Continue(Plain(sock)) else Discontinue(ConnectionTimeout)
    case Read =>
      if !ready then Discontinue(NetworkError)
      else if n > 0 then Continue(Plain(n))
      else if n == -2 then Discontinue(SocketClosed)
      else Discontinue(NetworkError)
  }

  /** While fiber f is in its r-th wait, nothing but its errand can resume it. */
  ghost predicate OnErrand(s: State, f: FiberId, r: nat, sock: int, op: Operation, e: Errand)
  {
    && f < |s.fibers| && s.fibers[f].resumes >= r
    && (s.fibers[f].resumes == r ==>
          && s.fibers[f].status == Suspended(OnIo(sock, op))
          && (forall w :: w in s.waiters ==> w.fiber != f)
          && (forall t :: t in s.queue && t.fiber == f ==> t == Carrier(f, sock, op, e)))
  }

  function AfterTurn(s: State, a: Action, f: FiberId, sock: int, op: Operation, e: Errand): Errand
  {
    if a.Tick? && e.Closure? && Taken(s, a) == [Carrier(f, sock, op, e)] then Answering(Outcome(sock, op, e.ready, a.n))
    else e
  }

  ghost predicate Mentions(ws: seq<Waiter>, f: FiberId)
  {
    exists v :: v in ws && v.fiber == f
  }

  ghost predicate Polled(ws: seq<Waiter>, ready: Waiter -> bool, t: Task)
  {
    exists v :: v in ws && !Stays(v, ready) && t == Carrier(v.fiber, v.sock, v.op, Closure(ready(v)))
  }

  /** The closures a poll queues come from the list it polls, and so do the waiters it keeps. */
  lemma {:induction false} PolledFrom(acc: PollResult, ws: seq<Waiter>, ready: Waiter -> bool)
    ensures var r := FoldWaiters(acc, ws, ready);
            && (forall w :: w in r.remaining ==> w in acc.remaining || Mentions(ws, w.fiber))
            && (forall t :: t in r.toWake ==> t in acc.toWake || Polled(ws, ready, t))
    decreases |ws|
  {
    if ws != [] {
      var acc' := ProcessWaiter(acc, ws[0], ready(ws[0]));
      PolledFrom(acc', ws[1..], ready);
      assert ws[0] in ws;
      forall w | w in FoldWaiters(acc, ws, ready).remaining ensures w in acc.remaining || Mentions(ws, w.fiber) {
        if w !in acc'.remaining {
          var v :| v in ws[1..] && v.fiber == w.fiber;
          assert v in ws;
        }
      }
      forall t | t in FoldWaiters(acc, ws, ready).toWake ensures t in acc.toWake || Polled(ws, ready, t) {
        if t !in acc'.toWake {
          var v :| v in ws[1..] && !Stays(v, ready) && t == Carrier(v.fiber, v.sock, v.op, Closure(ready(v)));
          assert v in ws;
        }
      }
    }
  }

  lemma PollSparesErrand(s: State, ready: Waiter -> bool, f: FiberId, r: nat, sock: int, op: Operation, e: Errand)
    requires OnErrand(s, f, r, sock, op, e)
    ensures OnErrand(Poll(s, ready), f, r, sock, op, e)
  {
    PolledFrom(PollResult([], []), s.waiters, ready);
  }

  /** A closure that is taken off the queue was the only one for its fiber. */
  lemma OnlyOneQueued(s: State, t: Task)
    requires Inv(s) && s.queue != [] && t in s.queue[1..]
    ensures t.fiber != s.queue[0].fiber
  {
    var s' := s.(queue := s.queue[1..]);
    DetachHead(s, s');
    Unmentioned(s', s.queue[0].fiber);
  }

  lemma ExecuteMovesErrand(s: State, n: int, f: FiberId, r: nat, sock: int, op: Operation, e: Errand)
    requires Inv(s) && s.queue != [] && OnErrand(s, f, r, sock, op, e)
    ensures TaskInRange(s, s.queue[0])
    ensures var taken := e.Closure? && s.queue[0] == Carrier(f, sock, op, e);
            var e' := if taken then Answering(Outcome(sock, op, e.ready, n)) else e;
            OnErrand(Execute(s.(queue := s.queue[1..]), s.queue[0], n), f, r, sock, op, e')
  {
    var t := s.queue[0];
    assert TaskOk(s, t);
    forall u | u in s.queue[1..] ensures u in s.queue && (t.fiber == f ==> u.fiber != f) {
      OnlyOneQueued(s, u);
    }
  }

  lemma TickMovesErrand(s: State, a: Action, f: FiberId, r: nat, sock: int, op: Operation, e: Errand)
    requires Inv(s) && Enabled(s, a) && a.Tick? && OnErrand(s, f, r, sock, op, e)
    ensures OnErrand(Next(s, a), f, r, sock, op, AfterTurn(s, a, f, sock, op, e))
  {
    PollSparesErrand(s, a.ready, f, r, sock, op, e);
    PollKeeps(s, a.ready);
    var polled := Poll(s, a.ready);
    if polled.queue != [] {
      ExecuteMovesErrand(polled, a.n, f, r, sock, op, e);
    }
  }

  /** What a fiber does never queues anything for another fiber that waits for I/O. */
  lemma EffectSparesErrand(s: State, g: FiberId, e: Effect, f: FiberId)
    requires Agree(s) && FiberInRange(s, g) && EffectInRange(s, e) && f < |s.fibers| && f != g
    requires s.fibers[f].status.Suspended? && s.fibers[f].status.cause.OnIo?
    ensures forall t :: t in Handle(s, g, e).queue && t.fiber == f ==> t in s.queue
  {
    StoredTasksAwait(s, f);
  }

  lemma StoredTasksAwait(s: State, f: FiberId)
    requires Agree(s) && f < |s.fibers| && s.fibers[f].status.Suspended? && s.fibers[f].status.cause.OnIo?
    ensures forall p, t :: 0 <= p < |s.promises| && t in Stored(s.promises[p]) ==> t.fiber != f
  {
    forall p, t | 0 <= p < |s.promises| && t in Stored(s.promises[p]) ensures t.fiber != f {
      assert StoredOk(s, p, t);
    }
  }

  lemma PerformKeepsErrand(s: State, eff: Effect, f: FiberId, r: nat, sock: int, op: Operation, e: Errand)
    requires Inv(s) && Enabled(s, Perform(eff)) && OnErrand(s, f, r, sock, op, e)
    ensures OnErrand(Next(s, Perform(eff)), f, r, sock, op, e)
  {
    var g := s.control.fiber;
    var charged := Charge(s, g, Cost(eff));
    ChargeKeeps(s, g, Cost(eff));
    EffectSparesOthers(charged, g, eff, f);
    if s.fibers[f].resumes == r {
      EffectSparesErrand(charged, g, eff, f);
      EffectKeepsWait(charged, g, eff, f);
    }
  }

  lemma EffectKeepsWait(s: State, g: FiberId, e: Effect, f: FiberId)
    requires FiberInRange(s, g) && EffectInRange(s, e) && f < |s.fibers| && f != g
    requires forall w :: w in s.waiters ==> w.fiber != f
    ensures f < |Handle(s, g, e).fibers| && Handle(s, g, e).fibers[f].status == s.fibers[f].status
  {
  }

  lemma EndKeepsErrand(s: State, g: FiberId, result: Value, f: FiberId, r: nat, sock: int, op: Operation, e: Errand)
    requires Inv(s) && s.control.InFiber? && g == s.control.fiber && FiberInRange(s, g)
    requires OnErrand(s, f, r, sock, op, e)
    ensures OnErrand(End(s, g, result), f, r, sock, op, e)
  {
    if s.fibers[f].resumes == r {
      StoredTasksAwait(s, f);
    }
  }

  lemma StepMovesErrand(s: State, a: Action, f: FiberId, r: nat, sock: int, op: Operation, e: Errand)
    requires Inv(s) && Enabled(s, a) && OnErrand(s, f, r, sock, op, e)
    ensures OnErrand(Next(s, a), f, r, sock, op, AfterTurn(s, a, f, sock, op, e))
  {
    match a
    case Tick(_, _) => TickMovesErrand(s, a, f, r, sock, op, e);
    case Perform(eff) => PerformKeepsErrand(s, eff, f, r, sock, op, e);
    case Return(n) => EndKeepsErrand(s, s.control.fiber, OkOf(n), f, r, sock, op, e);
    case Raise(x) => EndKeepsErrand(s, s.control.fiber, ErrorOf(x), f, r, sock, op, e);
  }

  /** What the turns that execute closure t read, in order. */
  ghost function Readings(s: State, run: seq<Action>, t: Task): seq<int>
    requires IsRun(s, run)
    decreases |run|
  {
    if run == [] then []
    else (if run[0].Tick? && Taken(s, run[0]) == [t] then [run[0].n] else []) + Readings(Next(s, run[0]), run[1..], t)
  }

  lemma {:induction false} AnswerStays(
      s: State, run: seq<Action>, f: FiberId, r: nat, sock: int, op: Operation, x: Answer)
    requires Inv(s) && IsRun(s, run) && OnErrand(s, f, r, sock, op, Answering(x))
    ensures OnErrand(After(s, run), f, r, sock, op, Answering(x))
    decreases |run|
  {
    if run != [] {
      StepMovesErrand(s, run[0], f, r, sock, op, Answering(x));
      StepKeepsInv(s, run[0]);
      AnswerStays(Next(s, run[0]), run[1..], f, r, sock, op, x);
    }
  }

  lemma {:induction false} ClosureIsAnswered(
      s: State, run: seq<Action>, f: FiberId, r: nat, sock: int, op: Operation, ready: bool)
    requires Inv(s) && IsRun(s, run) && OnErrand(s, f, r, sock, op, Closure(ready))
    ensures var found := Readings(s, run, Carrier(f, sock, op, Closure(ready)));
            OnErrand(After(s, run), f, r, sock, op,
                     if found == [] then Closure(ready) else Answering(Outcome(sock, op, ready, found[0])))
    decreases |run|
  {
    if run != [] {
      var a, s' := run[0], Next(s, run[0]);
      var e := AfterTurn(s, a, f, sock, op, Closure(ready));
      StepMovesErrand(s, a, f, r, sock, op, Closure(ready));
      StepKeepsInv(s, a);
      if e.Answering? {
        AnswerStays(s', run[1..], f, r, sock, op, e.x);
      } else {
        ClosureIsAnswered(s', run[1..], f, r, sock, op, ready);
      }
    }
  }

  /** The poll that takes a waiter off the list puts its closure on the queue, for the right reason. */
  lemma PollStartsErrand(s: State, ready: Waiter -> bool, w: Waiter)
    requires Inv(s) && w in s.waiters && !Stays(w, ready)
    ensures w.fiber < |s.fibers|
    ensures OnErrand(Poll(s, ready), w.fiber, s.fibers[w.fiber].resumes, w.sock, w.op, Closure(ready(w)))
  {
    assert WaiterOk(s, w);
    var f := w.fiber;
    WaiterHolds(s, w);
    PolledFrom(PollResult([], []), s.waiters, ready);
    forall v | v in s.waiters && v.fiber == f ensures v == w {
      OneWaiterPerFiber(s, v, w);
    }
    var polled := Poll(s, ready);
    forall x | x in polled.waiters ensures x.fiber != f {
      PollPartitions(s.waiters, ready);
      ReversedSize(Staying(s.waiters, ready));
      if x.fiber == f {
        StayingStayed(s.waiters, ready, x);
        assert false;
      }
    }
  }

  lemma {:induction false} StayingStayed(ws: seq<Waiter>, ready: Waiter -> bool, x: Waiter)
    requires x in Staying(ws, ready)
    ensures exists v :: v in ws && Stays(v, ready) && v.fiber == x.fiber
  {
    var head := if Stays(ws[0], ready) then [ws[0].(timeoutCount := ws[0].timeoutCount + 1)] else [];
    if x in head {
      assert ws[0] in ws;
    } else {
      StayingStayed(ws[1..], ready, x);
      var v :| v in ws[1..] && Stays(v, ready) && v.fiber == x.fiber;
      assert v in ws;
    }
  }

  /** A fiber with a waiter has nothing on the run queue. */
  lemma WaiterHolds(s: State, w: Waiter)
    requires Inv(s) && w in s.waiters
    ensures forall t :: t in s.queue ==> t.fiber != w.fiber
  {
    forall t | t in s.queue ensures t.fiber != w.fiber {
      if t.fiber == w.fiber {
        assert Holders(s, w.fiber) <= 1;
        Sums.TotalAtLeast(s.queue, t, Holds(w.fiber));
        Sums.TotalAtLeast(s.waiters, w, Waits(w.fiber));
        assert false;
      }
    }
  }

  /** The turn that polls w off the list, with the errand it leaves. */
  lemma TurnStartsErrand(s: State, a: Action, w: Waiter)
    requires Inv(s) && Enabled(s, a) && a.Tick? && w in s.waiters && !Stays(w, a.ready)
    ensures w.fiber < |s.fibers|
    ensures var e := Closure(a.ready(w));
            OnErrand(Next(s, a), w.fiber, s.fibers[w.fiber].resumes, w.sock, w.op,
                     AfterTurn(s, a, w.fiber, w.sock, w.op, e))
  {
    PollStartsErrand(s, a.ready, w);
    PollKeeps(s, a.ready);
    var polled := Poll(s, a.ready);
    if polled.queue != [] {
      ExecuteMovesErrand(polled, a.n, w.fiber, s.fibers[w.fiber].resumes, w.sock, w.op, Closure(a.ready(w)));
    }
  }

  /** A turn that resumes a fiber on an errand brings the answer of the errand. */
  lemma ResumeBringsErrand(s: State, turn: Action, f: FiberId, sock: int, op: Operation, e: Errand, x: Answer)
    requires turn.Tick? && Taken(s, turn) == [Resume(f, x)]
    requires f < |s.fibers| && OnErrand(s, f, s.fibers[f].resumes, sock, op, e)
    ensures e == Answering(x)
  {
    PollSparesErrand(s, turn.ready, f, s.fibers[f].resumes, sock, op, e);
    var q := Poll(s, turn.ready).queue;
    assert q[0] in q;
  }

  /** The turn resumes the fiber of w from the wait that it was in when w was on the list. */
  ghost predicate EndsWait(s: State, s': State, turn: Action, w: Waiter, x: Answer)
  {
    && turn.Tick? && Taken(s', turn) == [Resume(w.fiber, x)]
    && w.fiber < |s.fibers| && w.fiber < |s'.fibers|
    && s'.fibers[w.fiber].resumes == s.fibers[w.fiber].resumes
  }

  /** What the fiber of w is told, by the operation, whether the poll found it ready, and what the reads returned that
      its wake closure made. */
  predicate RightOutcome(op: Operation, sock: int, ready: bool, found: seq<int>, x: Answer)
  {
    match op
    case Connect => x == if ready then Continue(Plain(sock)) else Discontinue(ConnectionTimeout)
    case Read =>
      if !ready then x == Discontinue(NetworkError)
      else
        && found != []
        && x == if found[0] > 0 then Continue(Plain(found[0]))
                else if found[0] == -2 then Discontinue(SocketClosed)
                else Discontinue(NetworkError)
  }

  /** The outcome of every I/O wait, from the poll that takes the waiter off the list, over any run, to the turn that
      ends the wait: a waiter polled ready completes its connect, or reads what its closure finds when it is executed;
      one that is not ready, and so is out of polls, times out, a connect with Connection_timeout and a read with a
      network error. */
  lemma WaiterGetsItsOutcome(s: State, run: seq<Action>, turn: Action, w: Waiter, x: Answer)
    requires Inv(s) && IsRun(s, run) && run != [] && run[0].Tick? && w in s.waiters && !Stays(w, run[0].ready)
    requires EndsWait(s, After(s, run), turn, w, x)
    ensures RightOutcome(w.op, w.sock, run[0].ready(w), Readings(s, run, IoWake(w.fiber, w.sock, w.op)), x)
  {
    WaiterGetsOutcome(s, run, turn, w, x);
  }

  lemma WaiterGetsOutcome(s: State, run: seq<Action>, turn: Action, w: Waiter, x: Answer)
    requires Inv(s) && IsRun(s, run) && run != [] && run[0].Tick? && w in s.waiters && !Stays(w, run[0].ready)
    requires EndsWait(s, After(s, run), turn, w, x)
    ensures var ready := run[0].ready(w);
            var found := Readings(s, run, Carrier(w.fiber, w.sock, w.op, Closure(ready)));
            found != [] && x == Outcome(w.sock, w.op, ready, found[0])
  {
    var e := ErrandAtEnd(s, run, w);
    ResumeBringsErrand(After(s, run), turn, w.fiber, w.sock, w.op, e, x);
  }

  lemma ErrandAtEnd(s: State, run: seq<Action>, w: Waiter) returns (e: Errand)
    requires Inv(s) && IsRun(s, run) && run != [] && run[0].Tick? && w in s.waiters && !Stays(w, run[0].ready)
    ensures w.fiber < |s.fibers|
    ensures OnErrand(After(s, run), w.fiber, s.fibers[w.fiber].resumes, w.sock, w.op, e)
    ensures var ready := run[0].ready(w);
            var found := Readings(s, run, Carrier(w.fiber, w.sock, w.op, Closure(ready)));
            e == if found == [] then Closure(ready) else Answering(Outcome(w.sock, w.op, ready, found[0]))
  {
    var a, f := run[0], w.fiber;
    var ready := a.ready(w);
    TurnStartsErrand(s, a, w);
    StepKeepsInv(s, a);
    var first := AfterTurn(s, a, f, w.sock, w.op, Closure(ready));
    if first.Answering? {
      e := first;
      AnswerStays(Next(s, a), run[1..], f, s.fibers[f].resumes, w.sock, w.op, first.x);
    } else {
      ClosureIsAnswered(Next(s, a), run[1..], f, s.fibers[f].resumes, w.sock, w.op, ready);
      var found := Readings(Next(s, a), run[1..], Carrier(f, w.sock, w.op, first));
      e := if found == [] then first else Answering(Outcome(w.sock, w.op, ready, found[0]));
    }
  }

  // Promises

  /** A fiber resumed from awaiting a promise gets what the promise was settled with, over any run since. */
  lemma AwaiterGetsSettlement(s: State, run: seq<Action>, turn: Action, f: FiberId, p: PromiseId, x: Answer)
    requires Inv(s) && IsRun(s, run) && p < |s.promises| && !s.promises[p].Pending?
    requires var s' := After(s, run);
             && Enabled(s', turn) && turn.Tick? && Taken(s', turn) == [Resume(f, x)]
             && f < |s'.fibers| && s'.fibers[f].status == Suspended(OnPromise(p))
    ensures x == if s.promises[p].Resolved? then Continue(s.promises[p].value) else Discontinue(s.promises[p].error)
  {
    RunKeepsInv(s, run);
    SettledForever(s, run, p);
    ResumeIsOneShot(After(s, run), turn, f, x);
  }

  /** Promise.resolve and Promise.fail settle the promise they name, if it is pending, and no other; its wakers go to
      the end of the queue. */
  lemma SettlesNamedPromise(s: State, e: Effect)
    requires Enabled(s, Perform(e)) && (e.ResolvePromise? || e.FailPromise?)
    ensures var s' := Next(s, Perform(e)); var p := e.p;
            && s'.control == InFiber(s.control.fiber, Continue(Unit))
            && |s'.promises| == |s.promises| && s'.queue == s.queue + Stored(s.promises[p])
            && (forall q :: 0 <= q < |s.promises| && (q != p || !s.promises[q].Pending?) ==>
                  s'.promises[q] == s.promises[q])
            && (s.promises[p].Pending? ==> s'.promises[p] == if e.ResolvePromise? then Resolved(e.v) else Failed(e.e))
  {
  }

  /** From a resolve or fail to whoever awaits the promise, over any run in between. */
  lemma SettlingReachesAwaiter(s: State, e: Effect, run: seq<Action>, turn: Action, f: FiberId, x: Answer)
    requires Inv(s) && Enabled(s, Perform(e)) && (e.ResolvePromise? || e.FailPromise?)
    requires s.promises[e.p].Pending? && IsRun(Next(s, Perform(e)), run)
    requires var s' := After(Next(s, Perform(e)), run);
             && Enabled(s', turn) && turn.Tick? && Taken(s', turn) == [Resume(f, x)]
             && f < |s'.fibers| && s'.fibers[f].status == Suspended(OnPromise(e.p))
    ensures x == if e.ResolvePromise? then Continue(e.v) else Discontinue(e.e)
  {
    SettlesNamedPromise(s, e);
    StepKeepsInv(s, Perform(e));
    AwaiterGetsSettlement(Next(s, Perform(e)), run, turn, f, e.p, x);
  }

  /** Awaiting a promise that is settled goes on at once with its value or its exception, whatever ran since it was
      settled; awaiting a pending one suspends the fiber on it, with its waker stored. */
  lemma AwaitAnswers(s: State, run: seq<Action>, p: PromiseId)
    requires IsRun(s, run) && p < |s.promises| && Enabled(After(s, run), Perform(Await(p)))
    ensures var s' := After(s, run); var f := s'.control.fiber; var s'' := Next(s', Perform(Await(p)));
            && (s.promises[p].Resolved? ==> s''.control == InFiber(f, Continue(s.promises[p].value)))
            && (s.promises[p].Failed? ==> s''.control == InFiber(f, Discontinue(s.promises[p].error)))
            && (s'.promises[p].Pending? ==>
                  && s''.control == Scheduling && s''.fibers[f].status == Suspended(OnPromise(p))
                  && s''.promises[p] == Pending([Wake(f, p)] + s'.promises[p].waiters))
  {
    if !s.promises[p].Pending? {
      SettledForever(s, run, p);
    }
  }

  lemma {:induction false} KindsForever(s: State, run: seq<Action>, h: FiberId)
    requires IsRun(s, run) && h < |s.fibers|
    ensures h < |After(s, run).fibers| && After(s, run).fibers[h].kind == s.fibers[h].kind
    decreases |run|
  {
    if run != [] {
      PioLiveness.StepKeepsKinds(s, run[0], h);
      KindsForever(Next(s, run[0]), run[1..], h);
    }
  }

  /** Fork_promise answers with the child's own promise: fresh, pending, and that of the fiber it queues, for ever. */
  lemma ForkAnswersChildsPromise(s: State, sw: SwitchId, budget: nat, run: seq<Action>)
    requires Enabled(s, Perform(ForkPromise(sw, budget))) && IsRun(Next(s, Perform(ForkPromise(sw, budget))), run)
    ensures var s1 := Next(s, Perform(ForkPromise(sw, budget))); var child, p := |s.fibers|, |s.promises|;
            && s1.control == InFiber(s.control.fiber, Continue(Plain(p)))
            && |s1.promises| == p + 1 && s1.promises[p] == Pending([]) && s1.promises[..p] == s.promises
            && |s1.fibers| == child + 1 && s1.fibers[child].switch == sw && s1.fibers[child].status.NotStarted?
            && s1.queue == s.queue + [Start(child)]
            && child < |After(s1, run).fibers| && After(s1, run).fibers[child].kind == Promised(p)
  {
    KindsForever(Next(s, Perform(ForkPromise(sw, budget))), run, |s.fibers|);
  }

  /** The round trip of Fork_promise and Await: whoever is resumed from awaiting the promise that the fork answered with
      gets Ok of what the child returned or Error of what it raised, if nobody else settled that promise first. */
  lemma ForkAwaitRoundTrip(s: State, sw: SwitchId, budget: nat, run: seq<Action>, end: Action, more: seq<Action>,
                           turn: Action, g: FiberId, x: Answer)
    requires Inv(s) && Enabled(s, Perform(ForkPromise(sw, budget)))
    requires IsRun(Next(s, Perform(ForkPromise(sw, budget))), run)
    requires var s1 := Next(s, Perform(ForkPromise(sw, budget))); var s2 := After(s1, run); var p := |s.promises|;
             && Enabled(s2, end) && (end.Return? || end.Raise?) && s2.control.fiber == |s.fibers|
             && p < |s2.promises| && s2.promises[p].Pending?
             && IsRun(Next(s2, end), more)
             && var s3 := After(Next(s2, end), more);
                && Enabled(s3, turn) && turn.Tick? && Taken(s3, turn) == [Resume(g, x)]
                && g < |s3.fibers| && s3.fibers[g].status == Suspended(OnPromise(p))
    ensures x == Continue(if end.Return? then OkOf(end.n) else ErrorOf(end.e))
  {
    var s1 := Next(s, Perform(ForkPromise(sw, budget)));
    ForkAnswersChildsPromise(s, sw, budget, run);
    StepKeepsInv(s, Perform(ForkPromise(sw, budget)));
    RunKeepsInv(s1, run);
    AwaiterGetsOutcome(After(s1, run), end, more, turn, g, x);
  }

  /** Promise.create answers with a fresh pending promise; Fork, Yield and Tcp_close answer with unit, and Tcp_close
      takes exactly the waiters on its socket off the list. */
  lemma OtherAnswers(s: State, e: Effect)
    requires Enabled(s, Perform(e)) && (e.NewPromise? || e.Fork? || e.Yield? || e.TcpClose? || e.Immediate?)
    ensures var s' := Next(s, Perform(e)); var f := s.control.fiber;
            match e
            case NewPromise =>
              s'.control == InFiber(f, Continue(Plain(|s.promises|))) && s'.promises == s.promises + [Pending([])]
            case Fork(sw, _) =>
              && s'.control == InFiber(f, Continue(Unit)) && s'.queue == s.queue + [Start(|s.fibers|)]
              && |s'.fibers| == |s.fibers| + 1
              && s'.fibers[|s.fibers|].kind == Forked && s'.fibers[|s.fibers|].switch == sw
            case Yield => s'.control == Scheduling && s'.queue == s.queue + [Resume(f, Continue(Unit))]
            case TcpClose(sock) =>
              && s'.control == InFiber(f, Continue(Unit))
              && forall w :: w in s'.waiters <==> w in s.waiters && w.sock != sock
            case Immediate(a) => s'.control == InFiber(f, a)
            case _ => true
  {
    if e.TcpClose? {
      KeepOpenMembers(s.waiters, e.sock);
    }
  }

  // Network effects that answer at once, or begin a wait

  predicate WaitsFor(s: State, s': State, f: FiberId, sock: int, op: Operation)
  {
    && s'.control == Scheduling && f < |s'.fibers| && s'.fibers[f].status == Suspended(OnIo(sock, op))
    && s'.waiters == [Waiter(sock, op, 0, 1000, f)] + s.waiters
  }

  /** Which connects and reads go on at once, and with what; all others wait, with a thousand polls to go. */
  lemma NetworkAnswers(s: State, e: Effect)
    requires Enabled(s, Perform(e)) && (e.TcpConnect? || e.TcpRead?)
    ensures var s' := Next(s, Perform(e)); var f := s.control.fiber;
            match e
            case TcpConnect(sock, ip, rc) =>
              if sock < 0 then s'.control == InFiber(f, Discontinue(NetworkError))
              else if ip == 0 then s'.control == InFiber(f, Discontinue(DnsFailed))
              else if rc < 0 then s'.control == InFiber(f, Discontinue(NetworkError))
              else WaitsFor(s, s', f, sock, Connect)
            case TcpRead(sock, n) =>
              if n > 0 then s'.control == InFiber(f, Continue(Plain(n)))
              else if n == -2 then s'.control == InFiber(f, Discontinue(SocketClosed))
              else WaitsFor(s, s', f, sock, Read)
            case _ => true
  {
  }

  /** A fiber that is started begins to run, and it is the one that was queued. */
  lemma StartBegins(s: State, a: Action, f: FiberId)
    requires Inv(s) && Enabled(s, a) && a.Tick? && Taken(s, a) == [Start(f)]
    ensures f < |s.fibers| && s.fibers[f].status.NotStarted?
    ensures Next(s, a).control == InFiber(f, Continue(Unit)) && Next(s, a).fibers[f].status.Running?
  {
    PollKeeps(s, a.ready);
    var polled := Poll(s, a.ready);
    assert TaskOk(polled, polled.queue[0]);
  }
}
