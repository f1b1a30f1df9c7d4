/** The pthread mutex layer of ocaml_stubs.c on two cores, one shared access per step: recursive SDK mutexes, the
    per-core bookkeeping of held locks, the release and reacquire of pthread_cond_wait, the clean-up of core 1, and
    the servicing of stop-the-world interrupts inside every blocking loop. */
module Locks {

  const MAX_MUTEXES: nat := 64
  const CORES: nat := 2

  datatype Option<T> = None | Some(value: T)

  // The SDK's recursive mutex: an atomic primitive with an owner and a depth

  /** A mutex its owner has entered 1 + reentries times. */
  datatype Mutex = Free | Owned(core: nat, reentries: nat)

  function TryEnter(m: Mutex, c: nat): Option<Mutex>
  {
    match m
    case Free => Some(Owned(c, 0))
    case Owned(owner, reentries) => if owner == c then Some(Owned(c, reentries + 1)) else None
  }

  /** The SDK lowers the depth whoever calls. What it does to a free mutex is undefined; no step exits one. */
  function ExitMutex(m: Mutex): Mutex
  {
    match m
    case Free => Free
    case Owned(owner, reentries) => if reentries == 0 then Free else Owned(owner, reentries - 1)
  }

  function Depth(m: Mutex, c: nat): nat
  {
    if m.Owned? && m.core == c then m.reentries + 1 else 0
  }

  // Program counters

  /** What caml_state and the depth of the domain lock were when a service call began (a history variable). */
  datatype Entry = Entry(camlState: int, depth: nat)

  /** Where the shared tail of a routine continues. */
  datatype Next = ToCaller | ToWait | ToHandler(entry: Entry) | FromHandler(entry: Entry)

  /** One activation of a routine, at the instruction it executes next.
      lock and trylock: AtEnter, AtSetBit, AtIncrement. unlock and the release of cond_wait: AtExit, AtDecrement,
      AtClearBit. cond_wait's loop: AtWait. try_handle_stw_interrupt once it has the domain lock: AtRaiseFlag,
      AtSwapState, InHandler, AtRestore, AtLowerFlag. core1_wrapper's clean-up: AtClean, AtCleanDecrement. */
  datatype Frame =
    | AtEnter(i: nat, blocking: bool, next: Next)
    | AtSetBit(i: nat, next: Next)
    | AtIncrement(i: nat, next: Next)
    | AtExit(i: nat, next: Next)
    | AtDecrement(i: nat, next: Next)
    | AtClearBit(i: nat, next: Next)
    | AtWait(i: nat)
    | AtRaiseFlag(i: nat, entry: Entry)
    | AtSwapState(i: nat, entry: Entry)
    | InHandler(i: nat, entry: Entry, saved: int)
    | AtRestore(i: nat, entry: Entry, saved: int)
    | AtLowerFlag(i: nat, entry: Entry)
    | AtClean(i: nat)
    | AtCleanDecrement(i: nat)

  /** The activations of a core, innermost on top of ordinary code. */
  datatype Stack = Code | Call(top: Frame, below: Stack)

  /** mask is held_mutexes[core] as the set of its one bits. */
  datatype Core = Core(
    counts: seq<nat>,
    mask: set<nat>,
    handling: bool,
    camlState: int,
    domainState: int,
    domainLock: Option<nat>,
    stack: Stack)

  datatype State = State(mutexes: seq<Mutex>, cores: seq<Core>)

  datatype Op =
    | CallLock(i: nat)
    | CallTryLock(i: nat)
    | CallUnlock(i: nat)
    | CallWait(i: nat)
    | CallCleanup
    | Service(queued: bool)
    | SetCamlState(x: int)
    | HandlerReturns
    | GenerationChanged
    | Advance

  /** Ordinary code may run: no routine is active, or the handler itself is running. */
  predicate AtCode(stack: Stack)
  {
    stack.Code? || stack.top.InHandler?
  }

  /** Points at which a routine calls try_handle_stw_interrupt, and so activations that can have others above. */
  predicate Spinning(f: Frame)
  {
    (f.AtEnter? && f.blocking) || f.AtWait? || f.InHandler?
  }

  /** The frames during which handling_stw is set. */
  predicate HandlerFrame(f: Frame)
  {
    f.AtSwapState? || f.InHandler? || f.AtRestore? || f.AtLowerFlag?
  }

  function HandlerFrames(stack: Stack): nat
  {
    if stack.Code? then 0 else (if HandlerFrame(stack.top) then 1 else 0) + HandlerFrames(stack.below)
  }

  /** The depth on slot i that a handler on the stack relies on. */
  function Floor(stack: Stack, i: nat): nat
  {
    if stack.Code? then 0
    else if HandlerFrame(stack.top) && stack.top.i == i then stack.top.entry.depth + 1
    else Floor(stack.below, i)
  }

  /** The handler on top is balanced so far: it may release slot i. */
  predicate MayRelease(s: State, c: nat, i: nat)
    requires c < |s.cores| && i < |s.mutexes|
  {
    Depth(s.mutexes[i], c) > Floor(s.cores[c].stack, i)
  }

  predicate InRange(f: Frame)
  {
    f.i < MAX_MUTEXES || (f.AtClean? && f.i == MAX_MUTEXES)
  }

  predicate Shaped(s: State)
  {
    && |s.mutexes| == MAX_MUTEXES && |s.cores| == CORES
    && forall c :: 0 <= c < CORES ==>
         && |s.cores[c].counts| == MAX_MUTEXES
         && (s.cores[c].domainLock.Some? ==> s.cores[c].domainLock.value < MAX_MUTEXES)
         && (s.cores[c].stack.Call? ==> InRange(s.cores[c].stack.top))
  }

  /** unlock and cond_wait require the caller to own the mutex; a handler must not release what it relies on and
      returns balanced. */
  predicate Enabled(s: State, c: nat, op: Op)
  {
    && Shaped(s) && c < CORES
    && var stack := s.cores[c].stack;
       match op
       case CallLock(i) => AtCode(stack) && i < MAX_MUTEXES
       case CallTryLock(i) => AtCode(stack) && i < MAX_MUTEXES
       case CallUnlock(i) => AtCode(stack) && i < MAX_MUTEXES && MayRelease(s, c, i)
       case CallWait(i) => AtCode(stack) && i < MAX_MUTEXES && MayRelease(s, c, i)
       case CallCleanup => c == 1 && stack.Code?
       case Service(_) => stack.Code? || Spinning(stack.top)
       case SetCamlState(_) => AtCode(stack)
       case HandlerReturns =>
         stack.Call? && stack.top.InHandler? && Depth(s.mutexes[stack.top.i], c) == stack.top.entry.depth + 1
       case GenerationChanged => stack.Call? && stack.top.AtWait?
       case Advance => stack.Call? && !stack.top.AtWait? && !stack.top.InHandler?
  }

  function Push(core: Core, f: Frame): Core
  {
    core.(stack := Call(f, core.stack))
  }

  function Pop(core: Core): Core
    requires core.stack.Call?
  {
    core.(stack := core.stack.below)
  }

  function Goto(core: Core, f: Frame): Core
    requires core.stack.Call?
  {
    core.(stack := Call(f, core.stack.below))
  }

  /** The bit is cleared only when the count has reached zero. */
  function ClearBit(core: Core, i: nat): Core
    requires i < |core.counts|
  {
    if core.counts[i] == 0 then core.(mask := core.mask - {i}) else core
  }

  function AddCount(core: Core, i: nat, delta: int): Core
    requires i < |core.counts| && core.counts[i] + delta >= 0
  {
    core.(counts := core.counts[i := core.counts[i] + delta])
  }

  /** One instruction of the innermost activation of core c; m is the mutex that activation works on. */
  function Instruction(core: Core, m: Mutex, c: nat): (r: (Core, Mutex))
    requires core.stack.Call? && !core.stack.top.AtWait? && !core.stack.top.InHandler?
    requires core.stack.top.i < |core.counts|
  {
    match core.stack.top
    case AtEnter(i, blocking, next) =>
      (match TryEnter(m, c)
       case Some(m') => (Goto(core, AtSetBit(i, next)), m')
       case None => if blocking then (core, m) else (Pop(core), m))
    case AtSetBit(i, next) => (Goto(core.(mask := core.mask + {i}), AtIncrement(i, next)), m)
    case AtIncrement(i, next) =>
      var counted := AddCount(core, i, 1);
      (if next.ToHandler? then Goto(counted, AtRaiseFlag(i, next.entry)) else Pop(counted), m)
    case AtExit(i, next) => (Goto(core, AtDecrement(i, next)), ExitMutex(m))
    case AtDecrement(i, next) =>
      if core.counts[i] > 0 then (Goto(AddCount(core, i, -1), AtClearBit(i, next)), m)
      else if next.ToWait? then (Goto(core, AtClearBit(i, next)), m)
      else (Pop(core), m)
    case AtClearBit(i, next) =>
      (if next.ToWait? then Goto(ClearBit(core, i), AtWait(i)) else Pop(ClearBit(core, i)), m)
    case AtRaiseFlag(i, entry) => (Goto(core.(handling := true), AtSwapState(i, entry)), m)
    case AtSwapState(i, entry) =>
      (Goto(core.(camlState := core.domainState), InHandler(i, entry, core.camlState)), m)
    case AtRestore(i, entry, saved) => (Goto(core.(camlState := saved), AtLowerFlag(i, entry)), m)
    case AtLowerFlag(i, entry) => (Goto(core.(handling := false), AtExit(i, FromHandler(entry))), m)
    case AtClean(i) =>
      if core.counts[i] > 0 then (Goto(core, AtCleanDecrement(i)), ExitMutex(m))
      else (Goto(core, AtClean(i + 1)), m)
    case AtCleanDecrement(i) =>
      if core.counts[i] > 0 then (Goto(AddCount(core, i, -1), AtClean(i)), m) else (Goto(core, AtClean(i)), m)
  }

  function SetCore(s: State, c: nat, core: Core): State
    requires c < |s.cores|
  {
    s.(cores := s.cores[c := core])
  }

  function AdvanceCore(s: State, c: nat): State
    requires c < |s.cores| && s.cores[c].stack.Call?
    requires !s.cores[c].stack.top.AtWait? && !s.cores[c].stack.top.InHandler?
    requires var i := s.cores[c].stack.top.i; i == MAX_MUTEXES || (i < |s.mutexes| && i < |s.cores[c].counts|)
  {
    var core := s.cores[c];
    var i := core.stack.top.i;
    if i == MAX_MUTEXES then SetCore(s, c, Pop(core.(mask := {})))
    else
      var (core', m') := Instruction(core, s.mutexes[i], c);
      SetCore(s.(mutexes := s.mutexes[i := m']), c, core')
  }

  /** try_handle_stw_interrupt up to the trylock of the domain lock. */
  function BeginService(s: State, c: nat, queued: bool): Core
    requires Shaped(s) && c < CORES
  {
    var core := s.cores[c];
    if core.handling || !queued || core.domainLock.None? then core
    else
      var d := core.domainLock.value;
      Push(core, AtEnter(d, false, ToHandler(Entry(core.camlState, Depth(s.mutexes[d], c)))))
  }

  function Step(s: State, c: nat, op: Op): State
    requires Enabled(s, c, op)
  {
    var core := s.cores[c];
    match op
    case CallLock(i) => SetCore(s, c, Push(core, AtEnter(i, true, ToCaller)))
    case CallTryLock(i) => SetCore(s, c, Push(core, AtEnter(i, false, ToCaller)))
    case CallUnlock(i) => SetCore(s, c, Push(core, AtExit(i, ToCaller)))
    case CallWait(i) => SetCore(s, c, Push(core, AtExit(i, ToWait)))
    case CallCleanup => SetCore(s, c, Push(core, AtClean(0)))
    case Service(queued) => SetCore(s, c, BeginService(s, c, queued))
    case SetCamlState(x) => SetCore(s, c, core.(camlState := x))
    case HandlerReturns =>
      SetCore(s, c, Goto(core, AtRestore(core.stack.top.i, core.stack.top.entry, core.stack.top.saved)))
    case GenerationChanged => SetCore(s, c, Goto(core, AtEnter(core.stack.top.i, true, ToCaller)))
    case Advance => AdvanceCore(s, c)
  }

  // The invariant

  /** How far held_counts lags behind the recursion depth while a core is between the SDK call and the update. */
  function Lag(stack: Stack, i: nat): int
  {
    if stack.Code? || stack.top.i != i then 0
    else if stack.top.AtSetBit? || stack.top.AtIncrement? then -1
    else if stack.top.AtDecrement? || stack.top.AtCleanDecrement? then 1
    else 0
  }

  /** Instants at which bit i may be ahead of the count: set before the increment, not cleared yet, or of a slot that
      the clean-up loop has reached. */
  predicate BitAhead(stack: Stack, i: nat)
  {
    && stack.Call?
    && var f := stack.top;
       ((f.AtIncrement? || f.AtClearBit?) && f.i == i) || ((f.AtClean? || f.AtCleanDecrement?) && i <= f.i)
  }

  /** The next instruction of the core is a recursive_mutex_exit. */
  predicate Exits(core: Core)
  {
    && core.stack.Call?
    && (core.stack.top.AtExit? ||
        (core.stack.top.AtClean? && core.stack.top.i < |core.counts| && core.counts[core.stack.top.i] > 0))
  }

  predicate BooksOk(mutexes: seq<Mutex>, c: nat, core: Core)
    requires |mutexes| == |core.counts| == MAX_MUTEXES
  {
    && (forall i :: 0 <= i < MAX_MUTEXES ==> core.counts[i] == Depth(mutexes[i], c) + Lag(core.stack, i))
    && (forall i :: 0 <= i < MAX_MUTEXES && core.counts[i] > 0 ==> i in core.mask)
    && (forall i :: 0 <= i < MAX_MUTEXES && i in core.mask ==> core.counts[i] > 0 || BitAhead(core.stack, i))
    && (core.stack.Call? && core.stack.top.AtIncrement? ==> core.stack.top.i in core.mask)
  }

  /** The service bookkeeping of the innermost activation. */
  predicate TopOk(f: Frame, depth: nat, core: Core)
    requires core.stack.Call?
  {
    var below := core.stack.below;
    match f
    case AtEnter(i, blocking, next) =>
      (next.ToHandler? ==> !core.handling && core.camlState == next.entry.camlState && depth == next.entry.depth) &&
      !next.ToWait? && !next.FromHandler? && (blocking ==> next.ToCaller?)
    case AtSetBit(i, next) =>
      (next.ToHandler? ==> !core.handling && core.camlState == next.entry.camlState && depth == next.entry.depth + 1) &&
      !next.ToWait? && !next.FromHandler?
    case AtIncrement(i, next) =>
      (next.ToHandler? ==> !core.handling && core.camlState == next.entry.camlState && depth == next.entry.depth + 1) &&
      !next.ToWait? && !next.FromHandler?
    case AtExit(i, next) =>
      depth > Floor(below, i) && !next.ToHandler? &&
      (next.FromHandler? ==> !core.handling && core.camlState == next.entry.camlState && depth == next.entry.depth + 1)
    case AtDecrement(i, next) =>
      !next.ToHandler? &&
      (next.FromHandler? ==> !core.handling && core.camlState == next.entry.camlState && depth == next.entry.depth)
    case AtClearBit(i, next) =>
      !next.ToHandler? &&
      (next.FromHandler? ==> !core.handling && core.camlState == next.entry.camlState && depth == next.entry.depth)
    case AtRaiseFlag(i, entry) => !core.handling && core.camlState == entry.camlState && depth == entry.depth + 1
    case AtSwapState(i, entry) => core.camlState == entry.camlState && depth == entry.depth + 1
    case AtRestore(i, entry, saved) => depth == entry.depth + 1
    case AtLowerFlag(i, entry) => core.camlState == entry.camlState && depth == entry.depth + 1
    case _ => true
  }

  /** The activations of one try_handle_stw_interrupt call. */
  predicate ServiceFrame(f: Frame)
  {
    match f
    case AtEnter(_, _, next) => next.ToHandler?
    case AtSetBit(_, next) => next.ToHandler?
    case AtIncrement(_, next) => next.ToHandler?
    case AtExit(_, next) => next.FromHandler?
    case AtDecrement(_, next) => next.FromHandler?
    case AtClearBit(_, next) => next.FromHandler?
    case AtRaiseFlag(_, _) => true
    case _ => HandlerFrame(f)
  }

  predicate FrameOk(f: Frame, domainLock: Option<nat>)
  {
    && (f.AtEnter? && f.blocking ==> f.next.ToCaller?)
    && (f.InHandler? ==> f.saved == f.entry.camlState)
    && (f.AtRestore? ==> f.saved == f.entry.camlState)
    && (ServiceFrame(f) ==> domainLock == Some(f.i))
    && InRange(f)
  }

  /** Activations below the innermost one are at a point that services interrupts, or are the handler. */
  predicate BelowOk(stack: Stack, domainLock: Option<nat>)
  {
    stack.Call? ==>
      && Spinning(stack.top) && stack.top.i < MAX_MUTEXES
      && FrameOk(stack.top, domainLock) && BelowOk(stack.below, domainLock)
  }

  predicate CleanedTo(core: Core, n: nat)
  {
    forall j :: 0 <= j < n && j < |core.counts| ==> core.counts[j] == 0
  }

  /** No handler on the stack relies on more of a mutex than the core holds. */
  predicate FloorsOk(mutexes: seq<Mutex>, c: nat, stack: Stack)
    requires |mutexes| == MAX_MUTEXES
  {
    forall i :: 0 <= i < MAX_MUTEXES ==> Depth(mutexes[i], c) >= Floor(stack, i)
  }

  predicate StackOk(mutexes: seq<Mutex>, c: nat, core: Core)
    requires |mutexes| == MAX_MUTEXES
  {
    && HandlerFrames(core.stack) == (if core.handling then 1 else 0)
    && FloorsOk(mutexes, c, core.stack)
    && (core.stack.Call? ==>
          && FrameOk(core.stack.top, core.domainLock)
          && BelowOk(core.stack.below, core.domainLock)
          && (core.stack.top.i < MAX_MUTEXES ==> TopOk(core.stack.top, Depth(mutexes[core.stack.top.i], c), core))
          && (core.stack.top.AtClean? || core.stack.top.AtCleanDecrement? ==>
                core.stack.below.Code? && CleanedTo(core, core.stack.top.i)))
  }

  predicate CoreOk(mutexes: seq<Mutex>, c: nat, core: Core)
  {
    && |mutexes| == |core.counts| == MAX_MUTEXES
    && BooksOk(mutexes, c, core) && StackOk(mutexes, c, core)
    && (core.domainLock.Some? ==> core.domainLock.value < MAX_MUTEXES)
  }

  predicate Inv(s: State)
  {
    && |s.cores| == CORES
    && CoreOk(s.mutexes, 0, s.cores[0]) && CoreOk(s.mutexes, 1, s.cores[1])
  }
}
