/** check_io_completions: what one poll does with every waiter, and how long a waiter can stay. */
module PioPolling {
  import opened Lists
  import opened Pio
  import opened PioSafety
  import Sums

  // One poll, waiter by waiter

  predicate Stays(w: Waiter, ready: Waiter -> bool)
  {
    !ready(w) && w.timeoutCount < w.maxTimeout
  }

  /** The waiters a poll keeps, one poll older, in list order. */
  function Staying(ws: seq<Waiter>, ready: Waiter -> bool): seq<Waiter>
  {
    if ws == [] then []
    else (if Stays(ws[0], ready) then [ws[0].(timeoutCount := ws[0].timeoutCount + 1)] else [])
         + Staying(ws[1..], ready)
  }

  /** The closures a poll queues for the others: readiness wins over a timeout that is due. */
  function Leaving(ws: seq<Waiter>, ready: Waiter -> bool): seq<Task>
  {
    if ws == [] then []
    else (if Stays(ws[0], ready) then []
          else if ready(ws[0]) then [IoWake(ws[0].fiber, ws[0].sock, ws[0].op)]
          else [IoTimeout(ws[0].fiber, ws[0].sock, ws[0].op)])
         + Leaving(ws[1..], ready)
  }

  lemma {:induction false} FoldIsPartition(acc: PollResult, ws: seq<Waiter>, ready: Waiter -> bool)
    ensures FoldWaiters(acc, ws, ready) ==
      PollResult(Reversed(Staying(ws, ready)) + acc.remaining, Reversed(Leaving(ws, ready)) + acc.toWake)
    decreases |ws|
  {
    if ws != [] {
      var w, rest := ws[0], ws[1..];
      FoldIsPartition(ProcessWaiter(acc, w, ready(w)), rest, ready);
      if Stays(w, ready) {
        ReversedOnto(w.(timeoutCount := w.timeoutCount + 1), Staying(rest, ready), acc.remaining);
        assert Leaving(ws, ready) == Leaving(rest, ready);
      } else {
        ReversedOnto(if ready(w) then IoWake(w.fiber, w.sock, w.op) else IoTimeout(w.fiber, w.sock, w.op),
                     Leaving(rest, ready), acc.toWake);
        assert Staying(ws, ready) == Staying(rest, ready);
      }
    }
  }

  /** Every poll sends each waiter to exactly one place: kept and aged by one, woken, or timed out; both result
      lists come out reversed, and together they are as long as the list that was polled. */
  lemma PollPartitions(ws: seq<Waiter>, ready: Waiter -> bool)
    ensures CheckIo(ws, ready) == PollResult(Reversed(Staying(ws, ready)), Reversed(Leaving(ws, ready)))
    ensures |CheckIo(ws, ready).remaining| + |CheckIo(ws, ready).toWake| == |ws|
  {
    FoldIsPartition(PollResult([], []), ws, ready);
    PartitionSizes(ws, ready);
  }

  lemma {:induction false} PartitionSizes(ws: seq<Waiter>, ready: Waiter -> bool)
    ensures |Reversed(Staying(ws, ready))| + |Reversed(Leaving(ws, ready))| == |ws|
  {
    ReversedSize(Staying(ws, ready));
    ReversedSize(Leaving(ws, ready));
    if ws != [] {
      PartitionSizes(ws[1..], ready);
      ReversedSize(Staying(ws[1..], ready));
      ReversedSize(Leaving(ws[1..], ready));
    }
  }

  lemma {:induction false} StayingAges(ws: seq<Waiter>, ready: Waiter -> bool, x: Waiter)
    requires x in Staying(ws, ready)
    ensures x.timeoutCount > 0 && x.(timeoutCount := x.timeoutCount - 1) in ws
  {
    var head := if Stays(ws[0], ready) then [ws[0].(timeoutCount := ws[0].timeoutCount + 1)] else [];
    if x !in head {
      StayingAges(ws[1..], ready, x);
    }
  }

  // How long a waiter stays

  function Ticks(run: seq<Action>): nat
  {
    if run == [] then 0 else (if run[0].Tick? then 1 else 0) + Ticks(run[1..])
  }

  /** While fiber f is in its r-th wait, any I/O waiter it has is c polls old. */
  ghost predicate AgedBy(s: State, f: FiberId, r: nat, c: nat)
  {
    && f < |s.fibers| && s.fibers[f].resumes >= r
    && (s.fibers[f].resumes == r ==>
          && !s.fibers[f].status.Running? && !s.fibers[f].status.NotStarted?
          && forall w :: w in s.waiters && w.fiber == f ==> w.timeoutCount == c)
  }

  lemma PollAges(s: State, ready: Waiter -> bool, f: FiberId, r: nat, c: nat)
    requires AgedBy(s, f, r, c)
    ensures AgedBy(Poll(s, ready), f, r, c + 1)
  {
    var polled := Poll(s, ready);
    forall w | w in polled.waiters && w.fiber == f && s.fibers[f].resumes == r
      ensures w.timeoutCount == c + 1
    {
      PollPartitions(s.waiters, ready);
      ReversedSize(Staying(s.waiters, ready));
      StayingAges(s.waiters, ready, w);
    }
  }

  lemma TickAges(s: State, a: Action, f: FiberId, r: nat, c: nat)
    requires Inv(s) && Enabled(s, a) && a.Tick? && AgedBy(s, f, r, c)
    ensures AgedBy(Next(s, a), f, r, c + 1)
  {
    PollAges(s, a.ready, f, r, c);
    var polled := Poll(s, a.ready);
    if polled.queue != [] {
      PollKeeps(s, a.ready);
      assert TaskOk(polled, polled.queue[0]);
      ExecuteAges(polled.(queue := polled.queue[1..]), polled.queue[0], a.n, f, r, c + 1);
    }
  }

  lemma ExecuteAges(s: State, t: Task, n: int, f: FiberId, r: nat, c: nat)
    requires TaskInRange(s, t) && TaskOk(s, t) && AgedBy(s, f, r, c)
    ensures AgedBy(Execute(s, t, n), f, r, c)
  {
  }

  lemma EndAges(s: State, g: FiberId, result: Value, f: FiberId, r: nat, c: nat)
    requires FiberInRange(s, g) && s.fibers[g].status.Running? && AgedBy(s, f, r, c)
    ensures AgedBy(End(s, g, result), f, r, c)
  {
  }

  lemma EffectAges(s: State, g: FiberId, e: Effect, f: FiberId, r: nat, c: nat)
    requires FiberInRange(s, g) && EffectInRange(s, e) && s.fibers[g].status.Running? && AgedBy(s, f, r, c)
    ensures AgedBy(Handle(s, g, e), f, r, c)
  {
    if e.TcpClose? {
      KeepOpenMembers(s.waiters, e.sock);
    }
    EffectSparesOthers(s, g, e, f);
  }

  /** Handling an effect of g neither resumes another fiber nor registers a waiter for it. */
  lemma EffectSparesOthers(s: State, g: FiberId, e: Effect, f: FiberId)
    requires FiberInRange(s, g) && EffectInRange(s, e) && f < |s.fibers|
    ensures var s' := Handle(s, g, e);
            && f < |s'.fibers| && s'.fibers[f].resumes == s.fibers[f].resumes
            && (f != g ==> (s'.fibers[f].status == s.fibers[f].status || s'.fibers[f].status.Dropped?))
    ensures forall w :: w in Handle(s, g, e).waiters ==> w in s.waiters || w.fiber == g
  {
    if e.TcpClose? {
      KeepOpenMembers(s.waiters, e.sock);
    }
  }

  lemma {:induction false} RunAges(s: State, run: seq<Action>, f: FiberId, r: nat, c: nat)
    requires Inv(s) && IsRun(s, run) && AgedBy(s, f, r, c)
    ensures AgedBy(After(s, run), f, r, c + Ticks(run))
    decreases |run|
  {
    if run != [] {
      var a := run[0];
      match a {
        case Tick(_, _) => TickAges(s, a, f, r, c);
        case Perform(e) => EffectAges(Charge(s, s.control.fiber, Cost(e)), s.control.fiber, e, f, r, c);
        case Return(n) => EndAges(s, s.control.fiber, OkOf(n), f, r, c);
        case Raise(x) => EndAges(s, s.control.fiber, ErrorOf(x), f, r, c);
      }
      StepKeepsInv(s, a);
      RunAges(Next(s, a), run[1..], f, r, if a.Tick? then c + 1 else c);
    }
  }

  /** Bounded waits: after more than 1000 polls no I/O waiter of the same wait is left, whatever the sockets answered
      and whatever the other fibers did. */
  lemma WaitsAreBounded(s: State, run: seq<Action>, w: Waiter)
    requires Inv(s) && w in s.waiters && IsRun(s, run) && Ticks(run) > 1000 - w.timeoutCount
    ensures w.fiber < |s.fibers| && w.fiber < |After(s, run).fibers|
    ensures After(s, run).fibers[w.fiber].resumes == s.fibers[w.fiber].resumes ==>
              forall x :: x in After(s, run).waiters ==> x.fiber != w.fiber
  {
    var f := w.fiber;
    assert WaiterOk(s, w);
    forall x | x in s.waiters && x.fiber == f ensures x == w {
      OneWaiterPerFiber(s, x, w);
    }
    RunAges(s, run, f, s.fibers[f].resumes, w.timeoutCount);
    RunKeepsInv(s, run);
    forall x | x in After(s, run).waiters ensures WaiterOk(After(s, run), x) {
    }
  }

  lemma OneWaiterPerFiber(s: State, x: Waiter, w: Waiter)
    requires Inv(s) && x in s.waiters && w in s.waiters && x.fiber == w.fiber
    ensures x == w
  {
    assert Holders(s, w.fiber) <= 1;
    if x != w {
      TwoWaitersCount(s.waiters, x, w);
      assert false;
    }
  }

  lemma {:induction false} TwoWaitersCount(ws: seq<Waiter>, x: Waiter, w: Waiter)
    requires x in ws && w in ws && x != w && x.fiber == w.fiber
    ensures Sums.Total(ws, Waits(w.fiber)) >= 2
  {
    if ws[0] == x {
      Sums.TotalAtLeast(ws[1..], w, Waits(w.fiber));
    } else if ws[0] == w {
      Sums.TotalAtLeast(ws[1..], x, Waits(w.fiber));
    } else {
      TwoWaitersCount(ws[1..], x, w);
    }
  }

  /** The step neither finds that wait of fiber f ready nor closes the socket. */
  ghost predicate LeftAlone(a: Action, f: FiberId, sock: int, op: Operation)
  {
    match a
    case Tick(ready, _) => forall w: Waiter :: w.fiber == f && w.sock == sock && w.op == op ==> !ready(w)
    case Perform(TcpClose(closed)) => closed != sock
    case _ => true
  }

  ghost predicate Unserved(run: seq<Action>, f: FiberId, sock: int, op: Operation)
  {
    run == [] || (LeftAlone(run[0], f, sock, op) && Unserved(run[1..], f, sock, op))
  }

  function Older(w: Waiter, polls: nat): Waiter
  {
    w.(timeoutCount := w.timeoutCount + polls)
  }

  lemma {:induction false} PollKeepsUnready(ws: seq<Waiter>, ready: Waiter -> bool, w: Waiter)
    requires w in ws && Stays(w, ready)
    ensures Older(w, 1) in Staying(ws, ready)
  {
    if ws[0] != w {
      PollKeepsUnready(ws[1..], ready, w);
    }
  }

  lemma ThousandPolls(s: State, w: Waiter)
    requires Inv(s) && w in s.waiters
    ensures w.maxTimeout == 1000
  {
    assert WaiterOk(s, w);
  }

  lemma StepKeepsUnready(s: State, a: Action, w: Waiter)
    requires Enabled(s, a) && w in s.waiters && (a.Tick? ==> w.timeoutCount < w.maxTimeout)
    requires LeftAlone(a, w.fiber, w.sock, w.op)
    ensures Older(w, if a.Tick? then 1 else 0) in Next(s, a).waiters
  {
    match a
    case Tick(ready, _) =>
      PollPartitions(s.waiters, ready);
      ReversedSize(Staying(s.waiters, ready));
      PollKeepsUnready(s.waiters, ready, w);
    case Perform(TcpClose(sock)) => KeepOpenMembers(s.waiters, sock);
    case _ =>
  }

  ghost predicate WaitsUnserved(s: State, run: seq<Action>, w: Waiter)
  {
    && Inv(s) && w in s.waiters && IsRun(s, run)
    && Unserved(run, w.fiber, w.sock, w.op) && w.timeoutCount + Ticks(run) <= 1000
  }

  lemma StepLeavesUnserved(s: State, run: seq<Action>, w: Waiter) returns (s': State, w': Waiter)
    requires WaitsUnserved(s, run, w) && run != []
    ensures WaitsUnserved(s', run[1..], w')
    ensures After(s', run[1..]) == After(s, run) && Older(w', Ticks(run[1..])) == Older(w, Ticks(run))
  {
    s', w' := Next(s, run[0]), Older(w, if run[0].Tick? then 1 else 0);
    ThousandPolls(s, w);
    StepKeepsUnready(s, run[0], w);
    StepKeepsInv(s, run[0]);
  }

  /** And no shorter: a waiter that is never ready and whose socket is not closed stays through its first 1000
      polls. */
  lemma {:induction false} WaitsLastThousandPolls(s: State, run: seq<Action>, w: Waiter)
    requires Inv(s) && w in s.waiters && IsRun(s, run)
    requires Unserved(run, w.fiber, w.sock, w.op) && w.timeoutCount + Ticks(run) <= 1000
    ensures Older(w, Ticks(run)) in After(s, run).waiters
    decreases |run|
  {
    if run != [] {
      var s', w' := StepLeavesUnserved(s, run, w);
      WaitsLastThousandPolls(s', run[1..], w');
    }
  }

  // Order of service

  /** The closures a run executes, in order. */
  ghost function Executed(s: State, run: seq<Action>): seq<Task>
    requires IsRun(s, run)
    decreases |run|
  {
    if run == [] then []
    else (if run[0].Tick? then Taken(s, run[0]) else []) + Executed(Next(s, run[0]), run[1..])
  }

  lemma EffectAppends(s: State, f: FiberId, e: Effect)
    requires FiberInRange(s, f) && EffectInRange(s, e)
    ensures s.queue <= Handle(s, f, e).queue
  {
  }

  lemma EndAppends(s: State, f: FiberId, result: Value)
    requires FiberInRange(s, f)
    ensures s.queue <= End(s, f, result).queue
  {
  }

  lemma TurnTakesFirst(s: State, a: Action)
    requires a.Tick? && Enabled(s, a)
    ensures s.queue <= Taken(s, a) + Next(s, a).queue
    ensures s.queue != [] ==> Taken(s, a) == [s.queue[0]]
  {
    var q := Poll(s, a.ready).queue;
    assert s.queue <= q;
    if q != [] {
      assert [q[0]] + q[1..] == q;
      assert q[1..] <= Next(s, a).queue;
    }
  }

  lemma StepServesInOrder(s: State, a: Action)
    requires Enabled(s, a)
    ensures s.queue <= (if a.Tick? then Taken(s, a) else []) + Next(s, a).queue
  {
    match a
    case Tick(_, _) => TurnTakesFirst(s, a);
    case Perform(e) => EffectAppends(Charge(s, s.control.fiber, Cost(e)), s.control.fiber, e);
    case Return(n) => EndAppends(s, s.control.fiber, OkOf(n));
    case Raise(x) => EndAppends(s, s.control.fiber, ErrorOf(x));
  }

  lemma {:induction false} ServedBeforeLater(s: State, run: seq<Action>)
    requires IsRun(s, run)
    ensures s.queue <= Executed(s, run) + After(s, run).queue
    decreases |run|
  {
    if run != [] {
      var s' := Next(s, run[0]);
      var taken := if run[0].Tick? then Taken(s, run[0]) else [];
      StepServesInOrder(s, run[0]);
      ServedBeforeLater(s', run[1..]);
      PrefixThrough(s.queue, taken, s'.queue, Executed(s', run[1..]), After(s, run).queue);
    }
  }

  /** First come, first served: whatever is on the run queue is executed before anything queued later, in queue
      order, and all of it within as many turns as there are closures. */
  lemma ServedInOrder(s: State, run: seq<Action>)
    requires IsRun(s, run)
    ensures s.queue <= Executed(s, run) + After(s, run).queue
    ensures Ticks(run) >= |s.queue| ==> s.queue <= Executed(s, run)
  {
    ServedBeforeLater(s, run);
    if Ticks(run) >= |s.queue| {
      EveryTurnServes(s, run, |s.queue|);
      assert forall i :: 0 <= i < |s.queue| ==> Executed(s, run)[i] == (Executed(s, run) + After(s, run).queue)[i];
    }
  }

  /** A turn executes a closure as long as one is queued. */
  lemma {:induction false} EveryTurnServes(s: State, run: seq<Action>, k: nat)
    requires IsRun(s, run) && k <= |s.queue| && k <= Ticks(run)
    ensures |Executed(s, run)| >= k
    decreases |run|
  {
    if run != [] && k > 0 {
      StepServesInOrder(s, run[0]);
      if run[0].Tick? {
        TurnTakesFirst(s, run[0]);
        EveryTurnServes(Next(s, run[0]), run[1..], k - 1);
      } else {
        EveryTurnServes(Next(s, run[0]), run[1..], k);
      }
    }
  }

  lemma PrefixThrough(queue: seq<Task>, taken: seq<Task>, queue': seq<Task>, executed: seq<Task>, left: seq<Task>)
    requires queue <= taken + queue' && queue' <= executed + left
    ensures queue <= (taken + executed) + left
  {
    assert (taken + executed) + left == taken + (executed + left);
    assert forall i :: 0 <= i < |queue| ==> queue[i] == (taken + queue')[i] == (taken + (executed + left))[i];
  }
}
