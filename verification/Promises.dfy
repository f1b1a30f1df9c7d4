/** The write-once promise of pio.ml: a pending list of wakers, or a settled value.
    A waker is an opaque closure W that is put on the run queue when the promise settles. */
module Promises {
  import opened Lists

  datatype PromiseState<V, E, W> =
    | Pending(waiters: seq<W>)
    | Resolved(value: V)
    | Failed(error: E)

  /** What one call does: the new promise state and the wakers it appends to the run queue. */
  datatype Outcome<V, E, W> = Outcome(state: PromiseState<V, E, W>, enqueued: seq<W>)

  function AfterResolve<V, E, W>(p: PromiseState<V, E, W>, v: V): Outcome<V, E, W>
  {
    match p
    case Pending(waiters) => Outcome(Resolved(v), waiters)
    case _ => Outcome(p, [])
  }

  function AfterFail<V, E, W>(p: PromiseState<V, E, W>, e: E): Outcome<V, E, W>
  {
    match p
    case Pending(waiters) => Outcome(Failed(e), waiters)
    case _ => Outcome(p, [])
  }

  function AfterAddWaiter<V, E, W>(p: PromiseState<V, E, W>, waker: W): Outcome<V, E, W>
  {
    match p
    case Pending(waiters) => Outcome(Pending([waker] + waiters), [])
    case _ => Outcome(p, [waker])
  }

  // Histories of calls on one promise

  datatype Call<V, E, W> = CallResolve(v: V) | CallFail(e: E) | CallAddWaiter(waker: W)

  function Apply<V, E, W>(p: PromiseState<V, E, W>, c: Call<V, E, W>): Outcome<V, E, W>
  {
    match c
    case CallResolve(v) => AfterResolve(p, v)
    case CallFail(e) => AfterFail(p, e)
    case CallAddWaiter(w) => AfterAddWaiter(p, w)
  }

  /** The state after a history, and every waker the history put on the run queue, in order. */
  function ApplyAll<V, E, W>(p: PromiseState<V, E, W>, calls: seq<Call<V, E, W>>): Outcome<V, E, W>
    decreases |calls|
  {
    if calls == [] then Outcome(p, []) else
      var first := Apply(p, calls[0]);
      var rest := ApplyAll(first.state, calls[1..]);
      Outcome(rest.state, first.enqueued + rest.enqueued)
  }

  function Stored<V, E, W>(p: PromiseState<V, E, W>): seq<W>
  {
    if p.Pending? then p.waiters else []
  }

  /** The wakers a history hands to the promise. */
  function Added<V, E, W>(calls: seq<Call<V, E, W>>): seq<W>
  {
    if calls == [] then []
    else (if calls[0].CallAddWaiter? then [calls[0].waker] else []) + Added(calls[1..])
  }

  /** The first call that settles a pending promise, if there is one. */
  function FirstSettle<V, E, W>(calls: seq<Call<V, E, W>>): (i: nat)
    ensures i <= |calls|
    ensures i < |calls| ==> !calls[i].CallAddWaiter?
    ensures forall j :: 0 <= j < i ==> calls[j].CallAddWaiter?
  {
    if calls == [] || !calls[0].CallAddWaiter? then 0 else 1 + FirstSettle(calls[1..])
  }

  lemma OneCallConserves<V, E, W>(p: PromiseState<V, E, W>, c: Call<V, E, W>)
    ensures var r := Apply(p, c);
            multiset(Stored(p)) + multiset(Added([c])) == multiset(Stored(r.state)) + multiset(r.enqueued)
  {
    assert Added([c]) == if c.CallAddWaiter? then [c.waker] else [];
  }

  lemma BagOfConcat<W>(xs: seq<W>, ys: seq<W>)
    ensures multiset(xs + ys) == multiset(xs) + multiset(ys)
  {
  }

  /** Two balanced exchanges, one after the other, balance. */
  lemma Chain<W>(stored: multiset<W>, added: multiset<W>, stored': multiset<W>, enqueued: multiset<W>,
                 added': multiset<W>, left: multiset<W>, enqueued': multiset<W>)
    requires stored + added == stored' + enqueued && stored' + added' == left + enqueued'
    ensures stored + (added + added') == left + (enqueued + enqueued')
  {
    assert stored + (added + added') == (stored + added) + added';
    assert (stored' + enqueued) + added' == (stored' + added') + enqueued;
    assert (left + enqueued') + enqueued == left + (enqueued + enqueued');
  }

  lemma FirstThenRest<V, E, W>(p: PromiseState<V, E, W>, calls: seq<Call<V, E, W>>)
    requires calls != []
    ensures var first := Apply(p, calls[0]); var rest := ApplyAll(first.state, calls[1..]);
            ApplyAll(p, calls) == Outcome(rest.state, first.enqueued + rest.enqueued)
    ensures Added(calls) == Added([calls[0]]) + Added(calls[1..])
  {
    assert Added([calls[0]]) == if calls[0].CallAddWaiter? then [calls[0].waker] else [];
  }

  /** No waker is lost and none is invented: what was there or was added is stored or was enqueued. */
  lemma {:induction false} WakersConserved<V, E, W>(p: PromiseState<V, E, W>, calls: seq<Call<V, E, W>>)
    ensures var r := ApplyAll(p, calls);
            multiset(Stored(p)) + multiset(Added(calls)) == multiset(Stored(r.state)) + multiset(r.enqueued)
    decreases |calls|
  {
    if calls != [] {
      WakersConserved(Apply(p, calls[0]).state, calls[1..]);
      FirstThenRestConserves(p, calls);
    }
  }

  lemma FirstThenRestConserves<V, E, W>(p: PromiseState<V, E, W>, calls: seq<Call<V, E, W>>)
    requires calls != []
    requires var q := Apply(p, calls[0]).state; var rest := ApplyAll(q, calls[1..]);
             multiset(Stored(q)) + multiset(Added(calls[1..])) == multiset(Stored(rest.state)) + multiset(rest.enqueued)
    ensures var r := ApplyAll(p, calls);
            multiset(Stored(p)) + multiset(Added(calls)) == multiset(Stored(r.state)) + multiset(r.enqueued)
  {
    var first := Apply(p, calls[0]);
    var rest := ApplyAll(first.state, calls[1..]);
    OneCallConserves(p, calls[0]);
    FirstThenRest(p, calls);
    Chain(multiset(Stored(p)), multiset(Added([calls[0]])), multiset(Stored(first.state)), multiset(first.enqueued),
          multiset(Added(calls[1..])), multiset(Stored(rest.state)), multiset(rest.enqueued));
    BagOfConcat(Added([calls[0]]), Added(calls[1..]));
    BagOfConcat(first.enqueued, rest.enqueued);
  }

  /** Write-once: a settled promise keeps its state through every later history. */
  lemma {:induction false} SettledNeverChanges<V, E, W>(p: PromiseState<V, E, W>, calls: seq<Call<V, E, W>>)
    requires !p.Pending?
    ensures ApplyAll(p, calls).state == p
    ensures ApplyAll(p, calls).enqueued == Added(calls)
  {
    if calls != [] {
      SettledNeverChanges(p, calls[1..]);
    }
  }

  /** A pending promise is settled exactly by the first resolve or fail of its history, with that call's payload. */
  lemma {:induction false} FirstSettleWins<V, E, W>(p: PromiseState<V, E, W>, calls: seq<Call<V, E, W>>)
    requires p.Pending?
    ensures var i := FirstSettle(calls); var r := ApplyAll(p, calls).state;
            if i == |calls| then r.Pending?
            else if calls[i].CallResolve? then r == Resolved(calls[i].v)
            else r == Failed(calls[i].e)
    decreases |calls|
  {
    if calls != [] {
      var q := Apply(p, calls[0]).state;
      if q.Pending? {
        FirstSettleWins(q, calls[1..]);
      } else {
        SettledNeverChanges(q, calls[1..]);
      }
    }
  }

  function AddCalls<V, E, W>(wakers: seq<W>): (calls: seq<Call<V, E, W>>)
    ensures |calls| == |wakers|
  {
    if wakers == [] then [] else [CallAddWaiter(wakers[0])] + AddCalls(wakers[1..])
  }

  lemma {:induction false} WaitersPileUp<V, E, W>(ws: seq<W>, wakers: seq<W>, last: Call<V, E, W>)
    requires !last.CallAddWaiter?
    ensures ApplyAll(Pending(ws), AddCalls(wakers) + [last]).enqueued == Reversed(wakers) + ws
    decreases |wakers|
  {
    var calls := AddCalls(wakers) + [last];
    if wakers == [] {
      assert ApplyAll(Apply(Pending(ws), last).state, calls[1..]).enqueued == [];
    } else {
      assert calls[1..] == AddCalls(wakers[1..]) + [last];
      WaitersPileUp([wakers[0]] + ws, wakers[1..], last);
    }
  }

  /** Settling a promise enqueues its wakers newest first, each once. */
  lemma WakersRunNewestFirst<V, E, W>(wakers: seq<W>, last: Call<V, E, W>)
    requires !last.CallAddWaiter?
    ensures ApplyAll(Pending([]), AddCalls(wakers) + [last]).enqueued == Reversed(wakers)
  {
    WaitersPileUp([], wakers, last);
  }

  // The mutable objects of the source

  /** The global FIFO of closures. */
  class RunQueue<W> {
    var tasks: seq<W>

    constructor ()
      ensures tasks == []
    {
      tasks := [];
    }

    method Enqueue(w: W)
      modifies this
      ensures tasks == old(tasks) + [w]
    {
      tasks := tasks + [w];
    }

    /** List.iter enqueue: one element after the other, in list order. */
    method EnqueueAll(ws: seq<W>)
      modifies this
      ensures tasks == old(tasks) + ws
    {
      for i := 0 to |ws|
        invariant tasks == old(tasks) + ws[..i]
      {
        assert ws[..i + 1] == ws[..i] + [ws[i]];
        Enqueue(ws[i]);
      }
      assert ws[..|ws|] == ws;
    }

    method TakeOpt() returns (found: bool, head: seq<W>)
      modifies this
      ensures found <==> old(tasks) != []
      ensures head + tasks == old(tasks)
      ensures |head| == if found then 1 else 0
    {
      found := tasks != [];
      head := if found then [tasks[0]] else [];
      tasks := if found then tasks[1..] else tasks;
    }
  }

  class Promise<V, E, W> {
    var state: PromiseState<V, E, W>

    constructor ()
      ensures state == Pending([])
    {
      state := Pending([]);
    }

    method Resolve(v: V, queue: RunQueue<W>)
      modifies this, queue
      ensures old(queue.tasks) <= queue.tasks
      ensures Outcome(state, queue.tasks[|old(queue.tasks)|..]) == AfterResolve(old(state), v)
    {
      match state
      case Pending(waiters) =>
        state := Resolved(v);
        queue.EnqueueAll(waiters);
      case _ =>
    }

    method Fail(e: E, queue: RunQueue<W>)
      modifies this, queue
      ensures old(queue.tasks) <= queue.tasks
      ensures Outcome(state, queue.tasks[|old(queue.tasks)|..]) == AfterFail(old(state), e)
    {
      match state
      case Pending(waiters) =>
        state := Failed(e);
        queue.EnqueueAll(waiters);
      case _ =>
    }

    method AddWaiter(waker: W, queue: RunQueue<W>)
      modifies this, queue
      ensures old(queue.tasks) <= queue.tasks
      ensures Outcome(state, queue.tasks[|old(queue.tasks)|..]) == AfterAddWaiter(old(state), waker)
    {
      match state
      case Pending(waiters) =>
        state := Pending([waker] + waiters);
      case _ =>
        queue.Enqueue(waker);
    }
  }
}
