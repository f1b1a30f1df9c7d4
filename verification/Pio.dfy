/** The fiber scheduler of pio.ml as a step relation.
    One scheduler turn polls the I/O waiters and takes one task; a running fiber performs one effect per step
    until it suspends or ends. Nested scheduler calls take the same turns as the outer loop, so they flatten. */
module Pio {
  import opened Promises

  const MAX_TIMEOUT: nat := 1000

  type FiberId = nat
  type PromiseId = nat
  type SwitchId = nat

  datatype Exn = SocketClosed | NetworkError | ConnectionTimeout | DnsFailed | UserExn(code: int)
  /** Fork_promise promises hold a result: OkOf or ErrorOf. */
  datatype Value = Unit | Plain(n: int) | OkOf(n: int) | ErrorOf(e: Exn)
  /** What a continuation is resumed with: continue k v, or discontinue k e. */
  datatype Answer = Continue(value: Value) | Discontinue(exn: Exn)

  datatype Operation = Connect | Read

  /** The closures that can sit on the run queue; each one captures the continuation of one fiber. */
  datatype Task =
    | Start(fiber: FiberId)
    | Resume(fiber: FiberId, answer: Answer)
    | Wake(fiber: FiberId, promise: PromiseId)
    | IoWake(fiber: FiberId, sock: int, op: Operation)
    | IoTimeout(fiber: FiberId, sock: int, op: Operation)

  type Cell = PromiseState<Value, Exn, Task>

  datatype Waiter = Waiter(sock: int, op: Operation, timeoutCount: nat, maxTimeout: nat, fiber: FiberId)

  datatype Cause = OnPromise(p: PromiseId) | OnIo(sock: int, op: Operation) | OnYield
  datatype Status = NotStarted | Running | Suspended(cause: Cause) | Finished | Dropped
  datatype Kind = Main | Forked | Promised(p: PromiseId)

  /** effectsLeft bounds the effects of the fiber's own body and of every body it may still fork. */
  datatype Fiber = Fiber(kind: Kind, switch: SwitchId, effectsLeft: nat, resumes: nat, status: Status)

  /** last is the answer the running fiber got from its latest effect; Crashed is the failwith of a waker. */
  datatype Control = Scheduling | InFiber(fiber: FiberId, last: Answer) | Crashed

  datatype State = State(
    queue: seq<Task>,
    waiters: seq<Waiter>,
    promises: seq<Cell>,
    fibers: seq<Fiber>,
    switches: seq<int>,
    base: seq<int>,
    control: Control)

  datatype Effect =
    | Fork(switch: SwitchId, budget: nat)
    | ForkPromise(switch: SwitchId, budget: nat)
    | Await(p: PromiseId)
    | Yield
    | TcpConnect(sock: int, ip: int, rc: int)
    | TcpRead(sock: int, n: int)
    | TcpClose(sock: int)
    | Immediate(answer: Answer)
    | NewPromise
    | ResolvePromise(p: PromiseId, v: Value)
    | FailPromise(p: PromiseId, e: Exn)

  /** A step and everything the outside world decides in it: ready answers the socket probes of a poll and
      n the read a woken reader makes. */
  datatype Action =
    | Tick(ready: Waiter -> bool, n: int)
    | Perform(effect: Effect)
    | Return(n: int)
    | Raise(e: Exn)

  // Polling

  datatype PollResult = PollResult(remaining: seq<Waiter>, toWake: seq<Task>)

  function ProcessWaiter(acc: PollResult, w: Waiter, ready: bool): PollResult
  {
    if ready then
      acc.(toWake := [IoWake(w.fiber, w.sock, w.op)] + acc.toWake)
    else if w.timeoutCount >= w.maxTimeout then
      acc.(toWake := [IoTimeout(w.fiber, w.sock, w.op)] + acc.toWake)
    else
      acc.(remaining := [w.(timeoutCount := w.timeoutCount + 1)] + acc.remaining)
  }

  function FoldWaiters(acc: PollResult, ws: seq<Waiter>, ready: Waiter -> bool): PollResult
    decreases |ws|
  {
    if ws == [] then acc else FoldWaiters(ProcessWaiter(acc, ws[0], ready(ws[0])), ws[1..], ready)
  }

  function CheckIo(ws: seq<Waiter>, ready: Waiter -> bool): PollResult
  {
    FoldWaiters(PollResult([], []), ws, ready)
  }

  function Poll(s: State, ready: Waiter -> bool): State
  {
    var r := CheckIo(s.waiters, ready);
    s.(waiters := r.remaining, queue := s.queue + r.toWake)
  }

  // Scheduler turns

  function Delivered(c: Cell): Answer
    requires !c.Pending?
  {
    if c.Resolved? then Continue(c.value) else Discontinue(c.error)
  }

  function ReadAnswer(n: int): Answer
  {
    if n > 0 then Continue(Plain(n)) else if n == -2 then Discontinue(SocketClosed) else Discontinue(NetworkError)
  }

  function Enqueue(s: State, t: Task): State
  {
    s.(queue := s.queue + [t])
  }

  function SetStatus(s: State, f: FiberId, status: Status): State
    requires f < |s.fibers|
  {
    s.(fibers := s.fibers[f := s.fibers[f].(status := status)])
  }

  function Enter(s: State, f: FiberId, answer: Answer, resumed: nat): State
    requires f < |s.fibers|
  {
    s.(fibers := s.fibers[f := s.fibers[f].(status := Running, resumes := s.fibers[f].resumes + resumed)],
       control := InFiber(f, answer))
  }

  /** Run the closure t, already removed from the queue. */
  function Execute(s: State, t: Task, n: int): State
    requires t.fiber < |s.fibers| && (t.Wake? ==> t.promise < |s.promises|)
  {
    match t
    case Start(f) => Enter(s, f, Continue(Unit), 0)
    case Resume(f, a) => Enter(s, f, a, 1)
    case Wake(f, p) =>
      if s.promises[p].Pending? then s.(control := Crashed)
      else Enqueue(s, Resume(f, Delivered(s.promises[p])))
    case IoWake(f, sock, Connect) => Enqueue(s, Resume(f, Continue(Plain(sock))))
    case IoWake(f, sock, Read) => Enqueue(s, Resume(f, ReadAnswer(n)))
    case IoTimeout(f, sock, Connect) => Enqueue(s, Resume(f, Discontinue(ConnectionTimeout)))
    case IoTimeout(f, sock, Read) => Enqueue(s, Resume(f, Discontinue(NetworkError)))
  }

  predicate TaskInRange(s: State, t: Task)
  {
    t.fiber < |s.fibers| && (t.Wake? ==> t.promise < |s.promises|)
  }

  function Turn(s: State, ready: Waiter -> bool, n: int): State
    requires var q := Poll(s, ready).queue; q != [] ==> TaskInRange(s, q[0])
  {
    var polled := Poll(s, ready);
    if polled.queue == [] then polled
    else Execute(polled.(queue := polled.queue[1..]), polled.queue[0], n)
  }

  // Effects of the running fiber

  function Count(s: State, sw: SwitchId, delta: int): State
    requires sw < |s.switches|
  {
    s.(switches := s.switches[sw := s.switches[sw] + delta])
  }

  /** A resumed segment of the main fiber is wrapped in main_handler again, and the wrapper's retc
      decrements the count when the segment suspends or ends. */
  function EndSegment(s: State, f: FiberId): State
    requires f < |s.fibers| && s.fibers[f].switch < |s.switches|
  {
    if s.fibers[f].kind.Main? && s.fibers[f].resumes > 0 then Count(s, s.fibers[f].switch, -1) else s
  }

  function Suspend(s: State, f: FiberId, cause: Cause): State
    requires f < |s.fibers| && s.fibers[f].switch < |s.switches|
  {
    SetStatus(EndSegment(s, f), f, Suspended(cause)).(control := Scheduling)
  }

  function Settle(s: State, p: PromiseId, o: Outcome<Value, Exn, Task>): State
    requires p < |s.promises|
  {
    s.(promises := s.promises[p := o.state], queue := s.queue + o.enqueued)
  }

  function Spawn(s: State, kind: Kind, sw: SwitchId, budget: nat): State
    requires sw < |s.switches|
  {
    Enqueue(Count(s, sw, 1).(fibers := s.fibers + [Fiber(kind, sw, budget, 0, NotStarted)]), Start(|s.fibers|))
  }

  function KeepOpen(ws: seq<Waiter>, sock: int): seq<Waiter>
  {
    if ws == [] then []
    else (if ws[0].sock != sock then [ws[0]] else []) + KeepOpen(ws[1..], sock)
  }

  predicate WaitsOn(ws: seq<Waiter>, f: FiberId, sock: int)
  {
    exists w :: w in ws && w.fiber == f && w.sock == sock
  }

  /** The fibers whose only continuation was in a waiter record removed by Tcp_close. */
  function MarkDropped(fibers: seq<Fiber>, ws: seq<Waiter>, sock: int): (marked: seq<Fiber>)
    ensures |marked| == |fibers|
    ensures forall f :: 0 <= f < |fibers| ==>
      marked[f] == if WaitsOn(ws, f, sock) then fibers[f].(status := Dropped) else fibers[f]
  {
    seq(|fibers|, f requires 0 <= f < |fibers| =>
      if WaitsOn(ws, f, sock) then fibers[f].(status := Dropped) else fibers[f])
  }

  function Cost(e: Effect): nat
  {
    match e
    case Fork(_, budget) => 1 + budget
    case ForkPromise(_, budget) => 1 + budget
    case _ => 1
  }

  predicate EffectInRange(s: State, e: Effect)
  {
    match e
    case Fork(sw, _) => sw < |s.switches|
    case ForkPromise(sw, _) => sw < |s.switches|
    case Await(p) => p < |s.promises|
    case ResolvePromise(p, _) => p < |s.promises|
    case FailPromise(p, _) => p < |s.promises|
    case _ => true
  }

  function Answered(s: State, f: FiberId, a: Answer): State
  {
    s.(control := InFiber(f, a))
  }

  function HandleAwait(s: State, f: FiberId, p: PromiseId): State
    requires f < |s.fibers| && s.fibers[f].switch < |s.switches| && p < |s.promises|
  {
    if !s.promises[p].Pending? then Answered(s, f, Delivered(s.promises[p]))
    else Suspend(Settle(s, p, AfterAddWaiter(s.promises[p], Wake(f, p))), f, OnPromise(p))
  }

  /** Register an I/O waiter at the head of the list and suspend. */
  function WaitForIo(s: State, f: FiberId, sock: int, op: Operation): State
    requires f < |s.fibers| && s.fibers[f].switch < |s.switches|
  {
    Suspend(s.(waiters := [Waiter(sock, op, 0, MAX_TIMEOUT, f)] + s.waiters), f, OnIo(sock, op))
  }

  function HandleConnect(s: State, f: FiberId, sock: int, ip: int, rc: int): State
    requires f < |s.fibers| && s.fibers[f].switch < |s.switches|
  {
    if sock < 0 then Answered(s, f, Discontinue(NetworkError))
    else if ip == 0 then Answered(s, f, Discontinue(DnsFailed))
    else if rc < 0 then Answered(s, f, Discontinue(NetworkError))
    else WaitForIo(s, f, sock, Connect)
  }

  function HandleRead(s: State, f: FiberId, sock: int, n: int): State
    requires f < |s.fibers| && s.fibers[f].switch < |s.switches|
  {
    if n > 0 || n == -2 then Answered(s, f, ReadAnswer(n)) else WaitForIo(s, f, sock, Read)
  }

  function CloseSocket(s: State, sock: int): State
  {
    s.(waiters := KeepOpen(s.waiters, sock), fibers := MarkDropped(s.fibers, s.waiters, sock))
  }

  function AddPromise(s: State): State
  {
    s.(promises := s.promises + [Pending([])])
  }

  /** The effect handler of a fiber whose budget is already charged. */
  function Handle(s: State, f: FiberId, e: Effect): State
    requires f < |s.fibers| && s.fibers[f].switch < |s.switches| && EffectInRange(s, e)
  {
    match e
    case Fork(sw, budget) => Answered(Spawn(s, Forked, sw, budget), f, Continue(Unit))
    case ForkPromise(sw, budget) =>
      Answered(Spawn(AddPromise(s), Promised(|s.promises|), sw, budget), f, Continue(Plain(|s.promises|)))
    case Await(p) => HandleAwait(s, f, p)
    case Yield => Suspend(Enqueue(s, Resume(f, Continue(Unit))), f, OnYield)
    case TcpConnect(sock, ip, rc) => HandleConnect(s, f, sock, ip, rc)
    case TcpRead(sock, n) => HandleRead(s, f, sock, n)
    case TcpClose(sock) => Answered(CloseSocket(s, sock), f, Continue(Unit))
    case Immediate(a) => Answered(s, f, a)
    case NewPromise => Answered(AddPromise(s), f, Continue(Plain(|s.promises|)))
    case ResolvePromise(p, v) => Answered(Settle(s, p, AfterResolve(s.promises[p], v)), f, Continue(Unit))
    case FailPromise(p, e) => Answered(Settle(s, p, AfterFail(s.promises[p], e)), f, Continue(Unit))
  }

  function Charge(s: State, f: FiberId, cost: nat): State
    requires f < |s.fibers| && cost <= s.fibers[f].effectsLeft
  {
    s.(fibers := s.fibers[f := s.fibers[f].(effectsLeft := s.fibers[f].effectsLeft - cost)])
  }

  /** retc and exnc: settle the fiber's own promise, count the fiber out, go back to the scheduler. */
  function End(s: State, f: FiberId, result: Value): State
    requires f < |s.fibers| && s.fibers[f].switch < |s.switches|
    requires s.fibers[f].kind.Promised? ==> s.fibers[f].kind.p < |s.promises|
  {
    var kind := s.fibers[f].kind;
    var settled := if kind.Promised? then Settle(s, kind.p, AfterResolve(s.promises[kind.p], result)) else s;
    SetStatus(Count(EndSegment(settled, f), s.fibers[f].switch, -1), f, Finished).(control := Scheduling)
  }

  // The step relation

  predicate FiberInRange(s: State, f: FiberId)
  {
    && f < |s.fibers|
    && s.fibers[f].switch < |s.switches|
    && (s.fibers[f].kind.Promised? ==> s.fibers[f].kind.p < |s.promises|)
  }

  ghost predicate Enabled(s: State, a: Action)
  {
    match a
    case Tick(ready, _) => s.control.Scheduling? && forall t :: t in Poll(s, ready).queue ==> TaskInRange(s, t)
    case Perform(e) =>
      && s.control.InFiber? && FiberInRange(s, s.control.fiber)
      && EffectInRange(s, e) && Cost(e) <= s.fibers[s.control.fiber].effectsLeft
    case Return(_) => s.control.InFiber? && FiberInRange(s, s.control.fiber)
    case Raise(_) => s.control.InFiber? && FiberInRange(s, s.control.fiber)
  }

  function Next(s: State, a: Action): State
    requires Enabled(s, a)
  {
    match a
    case Tick(ready, n) => Turn(s, ready, n)
    case Perform(e) => Handle(Charge(s, s.control.fiber, Cost(e)), s.control.fiber, e)
    case Return(n) => End(s, s.control.fiber, OkOf(n))
    case Raise(e) => End(s, s.control.fiber, ErrorOf(e))
  }

  ghost predicate IsRun(s: State, run: seq<Action>)
    decreases |run|
  {
    run == [] || (Enabled(s, run[0]) && IsRun(Next(s, run[0]), run[1..]))
  }

  ghost function After(s: State, run: seq<Action>): State
    requires IsRun(s, run)
    decreases |run|
  {
    if run == [] then s else After(Next(s, run[0]), run[1..])
  }

  /** switch_run: the main fiber, alone on the queue, counted once in switch 0. The other switches start with
      whatever their own main fibers contribute. */
  predicate Initial(s: State)
  {
    && |s.switches| > 0 && s.switches == s.base && s.switches[0] == 1
    && |s.fibers| == 1 && s.fibers[0].kind == Main && s.fibers[0].switch == 0
    && s.fibers[0].resumes == 0 && s.fibers[0].status == NotStarted
    && s.queue == [Start(0)] && s.waiters == [] && s.promises == []
    && s.control == Scheduling
  }
}
