/** Every interleaving of the two cores keeps the mutex books, the stop-the-world flags and the clean-up right. */
module LocksProof {
  import opened Locks

  lemma {:induction false} NoHandlersNoFloor(stack: Stack, i: nat)
    requires HandlerFrames(stack) == 0
    ensures Floor(stack, i) == 0
  {
    if stack.Call? {
      NoHandlersNoFloor(stack.below, i);
    }
  }

  /** Entering a mutex, and exiting one that is one's own, never shows in the depth another core sees. */
  lemma OtherDepthUnchanged(m: Mutex, c: nat, d: nat)
    requires c != d
    ensures TryEnter(m, c).Some? ==> Depth(TryEnter(m, c).value, d) == Depth(m, d)
    ensures Depth(m, c) > 0 ==> Depth(ExitMutex(m), d) == Depth(m, d)
  {
  }

  // One instruction and the books

  lemma EnterKeepsBooks(mutexes: seq<Mutex>, c: nat, core: Core, i: nat)
    requires CoreOk(mutexes, c, core) && i < MAX_MUTEXES && core.stack.Call? && core.stack.top.i == i
    requires core.stack.top.AtEnter?
    ensures var (core', m') := Instruction(core, mutexes[i], c);
            |core'.counts| == MAX_MUTEXES && BooksOk(mutexes[i := m'], c, core')
  {
    assert core.stack.below.Call? ==> Spinning(core.stack.below.top);
    assert mutexes[i := mutexes[i]] == mutexes;
  }

  lemma IncrementKeepsBooks(mutexes: seq<Mutex>, c: nat, core: Core, i: nat)
    requires CoreOk(mutexes, c, core) && i < MAX_MUTEXES && core.stack.Call? && core.stack.top.i == i
    requires core.stack.top.AtIncrement?
    ensures var (core', m') := Instruction(core, mutexes[i], c);
            |core'.counts| == MAX_MUTEXES && BooksOk(mutexes[i := m'], c, core')
  {
    assert core.stack.below.Call? ==> Spinning(core.stack.below.top);
    assert mutexes[i := mutexes[i]] == mutexes;
  }

  lemma AcquireKeepsBooks(mutexes: seq<Mutex>, c: nat, core: Core, i: nat)
    requires CoreOk(mutexes, c, core) && i < MAX_MUTEXES && core.stack.Call? && core.stack.top.i == i
    requires core.stack.top.AtEnter? || core.stack.top.AtSetBit? || core.stack.top.AtIncrement?
    ensures var (core', m') := Instruction(core, mutexes[i], c);
            |core'.counts| == MAX_MUTEXES && BooksOk(mutexes[i := m'], c, core')
  {
    if core.stack.top.AtEnter? {
      EnterKeepsBooks(mutexes, c, core, i);
    } else if core.stack.top.AtIncrement? {
      IncrementKeepsBooks(mutexes, c, core, i);
    } else {
      assert mutexes[i := mutexes[i]] == mutexes;
    }
  }

  lemma ExitKeepsBooks(mutexes: seq<Mutex>, c: nat, core: Core, i: nat)
    requires CoreOk(mutexes, c, core) && i < MAX_MUTEXES && core.stack.Call? && core.stack.top.i == i
    requires core.stack.top.AtExit?
    ensures var (core', m') := Instruction(core, mutexes[i], c);
            |core'.counts| == MAX_MUTEXES && BooksOk(mutexes[i := m'], c, core')
  {
  }

  lemma ReleaseKeepsBooks(mutexes: seq<Mutex>, c: nat, core: Core, i: nat)
    requires CoreOk(mutexes, c, core) && i < MAX_MUTEXES && core.stack.Call? && core.stack.top.i == i
    requires core.stack.top.AtExit? || core.stack.top.AtDecrement? || core.stack.top.AtClearBit?
    ensures var (core', m') := Instruction(core, mutexes[i], c);
            |core'.counts| == MAX_MUTEXES && BooksOk(mutexes[i := m'], c, core')
  {
    if core.stack.top.AtExit? {
      ExitKeepsBooks(mutexes, c, core, i);
    } else {
      assert core.stack.below.Call? ==> Spinning(core.stack.below.top);
    }
  }

  lemma ServiceKeepsBooks(mutexes: seq<Mutex>, c: nat, core: Core, i: nat)
    requires CoreOk(mutexes, c, core) && i < MAX_MUTEXES && core.stack.Call? && core.stack.top.i == i
    requires var f := core.stack.top; f.AtRaiseFlag? || f.AtSwapState? || f.AtRestore? || f.AtLowerFlag?
    ensures var (core', m') := Instruction(core, mutexes[i], c);
            |core'.counts| == MAX_MUTEXES && BooksOk(mutexes[i := m'], c, core')
  {
    assert mutexes[i := mutexes[i]] == mutexes;
    assert forall j :: 0 <= j < MAX_MUTEXES ==> Lag(core.stack, j) == 0;
  }

  lemma CleanKeepsBooks(mutexes: seq<Mutex>, c: nat, core: Core, i: nat)
    requires CoreOk(mutexes, c, core) && i < MAX_MUTEXES && core.stack.Call? && core.stack.top.i == i
    requires core.stack.top.AtClean? || core.stack.top.AtCleanDecrement?
    ensures var (core', m') := Instruction(core, mutexes[i], c);
            |core'.counts| == MAX_MUTEXES && BooksOk(mutexes[i := m'], c, core')
  {
    var (core', m') := Instruction(core, mutexes[i], c);
    assert forall j :: 0 <= j < MAX_MUTEXES && j != i ==> Lag(core.stack, j) == 0 && core'.counts[j] == core.counts[j];
  }

  /** The guards on held_counts in unlock and cond_wait hold whenever they are evaluated. */
  lemma DecrementFindsCount(mutexes: seq<Mutex>, c: nat, core: Core)
    requires CoreOk(mutexes, c, core) && core.stack.Call?
    requires core.stack.top.AtDecrement? || core.stack.top.AtCleanDecrement?
    ensures core.stack.top.i < MAX_MUTEXES && core.counts[core.stack.top.i] > 0
  {
  }

  // One instruction and the stack

  /** Returning to the activation below, or to ordinary code, asks nothing of it beyond its frame. */
  lemma PopOk(mutexes: seq<Mutex>, c: nat, core: Core, core': Core)
    requires |mutexes| == MAX_MUTEXES && core.stack.Call? && !HandlerFrame(core.stack.top) && StackOk(mutexes, c, core)
    requires core'.stack == core.stack.below && core'.handling == core.handling && core'.domainLock == core.domainLock
    ensures StackOk(mutexes, c, core')
  {
    assert forall i :: Floor(core.stack.below, i) == Floor(core.stack, i);
  }

  /** Moving on inside the same routine. */
  lemma GotoOk(mutexes: seq<Mutex>, mutexes': seq<Mutex>, c: nat, core: Core, core': Core, f: Frame)
    requires |mutexes| == |mutexes'| == MAX_MUTEXES && core.stack.Call? && StackOk(mutexes, c, core)
    requires HandlerFrame(core.stack.top) == HandlerFrame(f) && f.i == core.stack.top.i < MAX_MUTEXES
    requires HandlerFrame(f) ==> f.entry == core.stack.top.entry
    requires core'.stack == Call(f, core.stack.below)
    requires core'.handling == core.handling && core'.domainLock == core.domainLock
    requires FrameOk(f, core.domainLock) && TopOk(f, Depth(mutexes'[f.i], c), core')
    requires !f.AtClean? && !f.AtCleanDecrement?
    requires mutexes' == mutexes[f.i := mutexes'[f.i]] && Depth(mutexes'[f.i], c) >= Floor(core.stack, f.i)
    ensures StackOk(mutexes', c, core')
  {
    assert forall i :: Floor(core'.stack, i) == Floor(core.stack, i);
    assert FloorsOk(mutexes, c, core.stack);
  }

  lemma AcquireKeepsStack(mutexes: seq<Mutex>, c: nat, core: Core, i: nat)
    requires CoreOk(mutexes, c, core) && i < MAX_MUTEXES && core.stack.Call? && core.stack.top.i == i
    requires core.stack.top.AtEnter? || core.stack.top.AtSetBit? || core.stack.top.AtIncrement?
    ensures var (core', m') := Instruction(core, mutexes[i], c); StackOk(mutexes[i := m'], c, core')
  {
    var (core', m') := Instruction(core, mutexes[i], c);
    assert mutexes[i := mutexes[i]] == mutexes;
    if core'.stack == core.stack.below {
      PopOk(mutexes, c, core, core');
    } else if core'.stack != core.stack {
      GotoOk(mutexes, mutexes[i := m'], c, core, core', core'.stack.top);
    }
  }

  lemma ReleaseKeepsStack(mutexes: seq<Mutex>, c: nat, core: Core, i: nat)
    requires CoreOk(mutexes, c, core) && i < MAX_MUTEXES && core.stack.Call? && core.stack.top.i == i
    requires core.stack.top.AtExit? || core.stack.top.AtDecrement? || core.stack.top.AtClearBit?
    ensures var (core', m') := Instruction(core, mutexes[i], c); StackOk(mutexes[i := m'], c, core')
  {
    var (core', m') := Instruction(core, mutexes[i], c);
    assert mutexes[i := mutexes[i]] == mutexes;
    if core.stack.top.AtClearBit? && !core.stack.top.next.ToWait? {
      PopOk(mutexes, c, core, core');
    } else {
      if core.stack.top.AtDecrement? {
        DecrementFindsCount(mutexes, c, core);
      }
      GotoOk(mutexes, mutexes[i := m'], c, core, core', core'.stack.top);
    }
  }

  lemma HandlerKeepsStack(mutexes: seq<Mutex>, c: nat, core: Core, i: nat)
    requires CoreOk(mutexes, c, core) && i < MAX_MUTEXES && core.stack.Call? && core.stack.top.i == i
    requires core.stack.top.AtSwapState? || core.stack.top.AtRestore?
    ensures var (core', m') := Instruction(core, mutexes[i], c); StackOk(mutexes[i := m'], c, core')
  {
    var (core', m') := Instruction(core, mutexes[i], c);
    assert mutexes[i := mutexes[i]] == mutexes;
    GotoOk(mutexes, mutexes, c, core, core', core'.stack.top);
  }

  lemma FlagKeepsStack(mutexes: seq<Mutex>, c: nat, core: Core, i: nat)
    requires CoreOk(mutexes, c, core) && i < MAX_MUTEXES && core.stack.Call? && core.stack.top.i == i
    requires core.stack.top.AtRaiseFlag? || core.stack.top.AtLowerFlag?
    ensures var (core', m') := Instruction(core, mutexes[i], c); StackOk(mutexes[i := m'], c, core')
  {
    var (core', m') := Instruction(core, mutexes[i], c);
    assert mutexes[i := mutexes[i]] == mutexes;
    assert HandlerFrames(core.stack.below) == 0;
    forall j ensures Floor(core.stack.below, j) == 0 {
      NoHandlersNoFloor(core.stack.below, j);
    }
    forall j | 0 <= j < MAX_MUTEXES ensures Depth(mutexes[j], c) >= Floor(core'.stack, j) {
      assert Floor(core'.stack, j) ==
             if core'.stack.top.AtSwapState? && j == i then core'.stack.top.entry.depth + 1 else 0;
    }
    assert FloorsOk(mutexes, c, core'.stack);
  }

  lemma CleanKeepsStack(mutexes: seq<Mutex>, c: nat, core: Core, i: nat)
    requires CoreOk(mutexes, c, core) && i < MAX_MUTEXES && core.stack.Call? && core.stack.top.i == i
    requires core.stack.top.AtClean? || core.stack.top.AtCleanDecrement?
    ensures var (core', m') := Instruction(core, mutexes[i], c); StackOk(mutexes[i := m'], c, core')
  {
    assert core.stack.below == Code;
    assert forall j :: Floor(core.stack, j) == 0;
  }

  lemma InstructionOk(mutexes: seq<Mutex>, c: nat, core: Core, i: nat)
    requires CoreOk(mutexes, c, core) && i < MAX_MUTEXES && core.stack.Call? && core.stack.top.i == i
    requires !core.stack.top.AtWait? && !core.stack.top.InHandler?
    ensures var (core', m') := Instruction(core, mutexes[i], c); CoreOk(mutexes[i := m'], c, core')
  {
    InstructionKeepsDomain(core, mutexes[i], c);
    var f := core.stack.top;
    if f.AtEnter? || f.AtSetBit? || f.AtIncrement? {
      AcquireKeepsBooks(mutexes, c, core, i);
      AcquireKeepsStack(mutexes, c, core, i);
    } else if f.AtExit? || f.AtDecrement? || f.AtClearBit? {
      ReleaseKeepsBooks(mutexes, c, core, i);
      ReleaseKeepsStack(mutexes, c, core, i);
    } else {
      if f.AtClean? || f.AtCleanDecrement? {
        CleanKeepsBooks(mutexes, c, core, i);
      } else {
        ServiceKeepsBooks(mutexes, c, core, i);
      }
      OthersKeepStack(mutexes, c, core, i);
    }
  }

  lemma OthersKeepStack(mutexes: seq<Mutex>, c: nat, core: Core, i: nat)
    requires CoreOk(mutexes, c, core) && i < MAX_MUTEXES && core.stack.Call? && core.stack.top.i == i
    requires var f := core.stack.top;
             f.AtRaiseFlag? || f.AtSwapState? || f.AtRestore? || f.AtLowerFlag? || f.AtClean? || f.AtCleanDecrement?
    ensures var (core', m') := Instruction(core, mutexes[i], c); StackOk(mutexes[i := m'], c, core')
  {
    var f := core.stack.top;
    if f.AtSwapState? || f.AtRestore? {
      HandlerKeepsStack(mutexes, c, core, i);
    } else if f.AtRaiseFlag? || f.AtLowerFlag? {
      FlagKeepsStack(mutexes, c, core, i);
    } else {
      CleanKeepsStack(mutexes, c, core, i);
    }
  }

  lemma InstructionKeepsDomain(core: Core, m: Mutex, c: nat)
    requires core.stack.Call? && core.stack.top.i < |core.counts|
    requires !core.stack.top.AtWait? && !core.stack.top.InHandler?
    ensures Instruction(core, m, c).0.domainLock == core.domainLock
  {
  }

  // Steps of the whole system

  /** A core that does not step keeps its books when the mutexes look the same to it. */
  lemma BystanderOk(mutexes: seq<Mutex>, mutexes': seq<Mutex>, c: nat, core: Core)
    requires CoreOk(mutexes, c, core) && |mutexes'| == MAX_MUTEXES
    requires forall i :: 0 <= i < MAX_MUTEXES ==> Depth(mutexes'[i], c) == Depth(mutexes[i], c)
    ensures CoreOk(mutexes', c, core)
  {
  }

  /** Core c moved, the other core saw no mutex change. */
  lemma OneCoreMoved(s: State, c: nat, core': Core, mutexes': seq<Mutex>)
    requires Inv(s) && c < CORES && CoreOk(mutexes', c, core')
    requires forall i :: 0 <= i < MAX_MUTEXES ==> Depth(mutexes'[i], 1 - c) == Depth(s.mutexes[i], 1 - c)
    ensures Inv(SetCore(s.(mutexes := mutexes'), c, core'))
  {
    BystanderOk(s.mutexes, mutexes', 1 - c, s.cores[1 - c]);
  }

  lemma CoreIsOk(s: State, c: nat)
    requires Inv(s) && c < CORES
    ensures CoreOk(s.mutexes, c, s.cores[c])
  {
  }

  /** Nobody exits a mutex it does not own. */
  lemma ExitOwns(mutexes: seq<Mutex>, c: nat, core: Core)
    requires CoreOk(mutexes, c, core) && Exits(core)
    ensures core.stack.top.i < MAX_MUTEXES && Depth(mutexes[core.stack.top.i], c) > 0
  {
  }

  lemma InstructionSparesOthers(core: Core, m: Mutex, c: nat, d: nat)
    requires core.stack.Call? && core.stack.top.i < |core.counts|
    requires !core.stack.top.AtWait? && !core.stack.top.InHandler?
    requires c != d && (Exits(core) ==> Depth(m, c) > 0)
    ensures Depth(Instruction(core, m, c).1, d) == Depth(m, d)
  {
    OtherDepthUnchanged(m, c, d);
  }

  lemma CleanUpEnds(mutexes: seq<Mutex>, c: nat, core: Core)
    requires CoreOk(mutexes, c, core) && core.stack.Call? && core.stack.top.i == MAX_MUTEXES
    ensures core.stack == Call(AtClean(MAX_MUTEXES), Code)
    ensures forall i :: 0 <= i < MAX_MUTEXES ==> core.counts[i] == 0 && Depth(mutexes[i], c) == 0
    ensures CoreOk(mutexes, c, Pop(core.(mask := {})))
  {
    assert CleanedTo(core, MAX_MUTEXES);
  }

  lemma AdvanceKeepsInv(s: State, c: nat)
    requires Inv(s) && c < CORES && s.cores[c].stack.Call?
    requires !s.cores[c].stack.top.AtWait? && !s.cores[c].stack.top.InHandler?
    requires var i := s.cores[c].stack.top.i; i == MAX_MUTEXES || (i < |s.mutexes| && i < |s.cores[c].counts|)
    ensures Inv(AdvanceCore(s, c))
  {
    var core := s.cores[c];
    CoreIsOk(s, c);
    if core.stack.top.i == MAX_MUTEXES {
      CleanUpEnds(s.mutexes, c, core);
      OneCoreMoved(s, c, Pop(core.(mask := {})), s.mutexes);
    } else {
      var i := core.stack.top.i;
      var (core', m') := Instruction(core, s.mutexes[i], c);
      InstructionOk(s.mutexes, c, core, i);
      if Exits(core) {
        ExitOwns(s.mutexes, c, core);
      }
      InstructionSparesOthers(core, s.mutexes[i], c, 1 - c);
      OneCoreMoved(s, c, core', s.mutexes[i := m']);
    }
  }

  /** Calling a routine from ordinary code, or servicing an interrupt, pushes one activation. */
  lemma PushOk(mutexes: seq<Mutex>, c: nat, core: Core, f: Frame)
    requires CoreOk(mutexes, c, core) && (core.stack.Code? || Spinning(core.stack.top)) && f.i < MAX_MUTEXES
    requires match f
             case AtEnter(i, blocking, next) =>
               next.ToCaller? || (!blocking && !core.handling && core.domainLock == Some(i) &&
                                  next == ToHandler(Entry(core.camlState, Depth(mutexes[i], c))))
             case AtExit(i, next) => (next.ToCaller? || next.ToWait?) && Depth(mutexes[i], c) > Floor(core.stack, i)
             case _ => false
    ensures CoreOk(mutexes, c, Push(core, f))
  {
    assert forall i :: Floor(Push(core, f).stack, i) == Floor(core.stack, i);
  }

  lemma ServiceOk(mutexes: seq<Mutex>, c: nat, core: Core)
    requires CoreOk(mutexes, c, core) && (core.stack.Code? || Spinning(core.stack.top))
    requires !core.handling && core.domainLock.Some?
    ensures var d := core.domainLock.value;
            CoreOk(mutexes, c, Push(core, AtEnter(d, false, ToHandler(Entry(core.camlState, Depth(mutexes[d], c))))))
  {
    var d := core.domainLock.value;
    PushOk(mutexes, c, core, AtEnter(d, false, ToHandler(Entry(core.camlState, Depth(mutexes[d], c)))));
  }

  lemma CleaningOk(mutexes: seq<Mutex>, c: nat, core: Core)
    requires CoreOk(mutexes, c, core) && core.stack.Code?
    ensures CoreOk(mutexes, c, Push(core, AtClean(0)))
  {
  }

  lemma StateSetOk(mutexes: seq<Mutex>, c: nat, core: Core, x: int)
    requires CoreOk(mutexes, c, core) && AtCode(core.stack)
    ensures CoreOk(mutexes, c, core.(camlState := x))
  {
  }

  lemma HandlerReturnsOk(mutexes: seq<Mutex>, c: nat, core: Core)
    requires CoreOk(mutexes, c, core) && core.stack.Call? && core.stack.top.InHandler?
    requires Depth(mutexes[core.stack.top.i], c) == core.stack.top.entry.depth + 1
    ensures CoreOk(mutexes, c, Goto(core, AtRestore(core.stack.top.i, core.stack.top.entry, core.stack.top.saved)))
  {
    var f := AtRestore(core.stack.top.i, core.stack.top.entry, core.stack.top.saved);
    assert mutexes == mutexes[f.i := mutexes[f.i]];
    GotoOk(mutexes, mutexes, c, core, Goto(core, f), f);
  }

  lemma WokenOk(mutexes: seq<Mutex>, c: nat, core: Core)
    requires CoreOk(mutexes, c, core) && core.stack.Call? && core.stack.top.AtWait?
    ensures CoreOk(mutexes, c, Goto(core, AtEnter(core.stack.top.i, true, ToCaller)))
  {
    var f := AtEnter(core.stack.top.i, true, ToCaller);
    assert mutexes == mutexes[f.i := mutexes[f.i]];
    GotoOk(mutexes, mutexes, c, core, Goto(core, f), f);
  }

  lemma CallKeepsCore(s: State, c: nat, op: Op)
    requires c < CORES && Enabled(s, c, op) && !op.Advance? && CoreOk(s.mutexes, c, s.cores[c])
    ensures CoreOk(s.mutexes, c, Step(s, c, op).cores[c])
  {
    var core := s.cores[c];
    match op
    case CallLock(i) => PushOk(s.mutexes, c, core, AtEnter(i, true, ToCaller));
    case CallTryLock(i) => PushOk(s.mutexes, c, core, AtEnter(i, false, ToCaller));
    case CallUnlock(i) => PushOk(s.mutexes, c, core, AtExit(i, ToCaller));
    case CallWait(i) => PushOk(s.mutexes, c, core, AtExit(i, ToWait));
    case CallCleanup => CleaningOk(s.mutexes, c, core);
    case Service(queued) =>
      if !core.handling && core.domainLock.Some? {
        ServiceOk(s.mutexes, c, core);
      }
    case SetCamlState(x) => StateSetOk(s.mutexes, c, core, x);
    case HandlerReturns => HandlerReturnsOk(s.mutexes, c, core);
    case GenerationChanged => WokenOk(s.mutexes, c, core);
  }

  lemma CallSparesOthers(s: State, c: nat, op: Op)
    requires Enabled(s, c, op) && !op.Advance?
    ensures |Step(s, c, op).cores| == CORES
    ensures Step(s, c, op) == SetCore(s, c, Step(s, c, op).cores[c])
  {
  }

  lemma StepKeepsInv(s: State, c: nat, op: Op)
    requires Inv(s) && Enabled(s, c, op)
    ensures Inv(Step(s, c, op))
  {
    if op.Advance? {
      AdvanceKeepsInv(s, c);
    } else {
      CoreIsOk(s, c);
      CallKeepsCore(s, c, op);
      CallSparesOthers(s, c, op);
      OneCoreMoved(s, c, Step(s, c, op).cores[c], s.mutexes);
    }
  }

  /** A step belongs to one core: the other keeps its books, its stack and everything it owns. */
  lemma StepSparesOtherCore(s: State, c: nat, op: Op, d: nat)
    requires Inv(s) && Enabled(s, c, op) && d < CORES && d != c
    ensures Step(s, c, op).cores[d] == s.cores[d]
    ensures forall i :: 0 <= i < MAX_MUTEXES ==> Depth(Step(s, c, op).mutexes[i], d) == Depth(s.mutexes[i], d)
  {
    if op.Advance? && s.cores[c].stack.top.i < MAX_MUTEXES {
      CoreIsOk(s, c);
      if Exits(s.cores[c]) {
        ExitOwns(s.mutexes, c, s.cores[c]);
      }
      InstructionSparesOthers(s.cores[c], s.mutexes[s.cores[c].stack.top.i], c, d);
    }
  }

  // Runs

  datatype Move = Move(c: nat, op: Op)

  ghost predicate IsRun(s: State, run: seq<Move>)
    decreases |run|
  {
    run == [] || (Enabled(s, run[0].c, run[0].op) && IsRun(Step(s, run[0].c, run[0].op), run[1..]))
  }

  ghost function After(s: State, run: seq<Move>): State
    requires IsRun(s, run)
    decreases |run|
  {
    if run == [] then s else After(Step(s, run[0].c, run[0].op), run[1..])
  }

  predicate FreshCore(core: Core)
  {
    && core.stack.Code? && !core.handling && core.mask == {} && |core.counts| == MAX_MUTEXES
    && (core.domainLock.Some? ==> core.domainLock.value < MAX_MUTEXES)
    && forall i :: 0 <= i < MAX_MUTEXES ==> core.counts[i] == 0
  }

  /** Power-on: no mutex taken, empty books, no routine active. */
  predicate Initial(s: State)
  {
    && |s.mutexes| == MAX_MUTEXES && |s.cores| == CORES
    && (forall i :: 0 <= i < MAX_MUTEXES ==> s.mutexes[i] == Free)
    && FreshCore(s.cores[0]) && FreshCore(s.cores[1])
  }

  lemma InitialInv(s: State)
    requires Initial(s)
    ensures Inv(s)
  {
  }

  lemma {:induction false} RunKeepsInv(s: State, run: seq<Move>)
    requires Inv(s) && IsRun(s, run)
    ensures Inv(After(s, run))
    decreases |run|
  {
    if run != [] {
      StepKeepsInv(s, run[0].c, run[0].op);
      RunKeepsInv(Step(s, run[0].c, run[0].op), run[1..]);
    }
  }

  // Main results

  lemma ReachableCore(s0: State, run: seq<Move>, c: nat)
    requires Initial(s0) && IsRun(s0, run) && c < CORES
    ensures |After(s0, run).cores| == CORES && CoreOk(After(s0, run).mutexes, c, After(s0, run).cores[c])
  {
    InitialInv(s0);
    RunKeepsInv(s0, run);
    CoreIsOk(After(s0, run), c);
  }

  /** The books refine ownership at instruction grain, over every interleaving: held_counts is the recursion depth
      except for exactly one unit between the SDK call and the update, and the bit of held_mutexes is set if and
      only if the count is positive except at the instants where the code itself updates it. */
  lemma BooksRefineOwnership(s0: State, run: seq<Move>, c: nat, i: nat)
    requires Initial(s0) && IsRun(s0, run) && c < CORES && i < MAX_MUTEXES
    ensures var s := After(s0, run);
            && |s.cores| == CORES && |s.mutexes| == |s.cores[c].counts| == MAX_MUTEXES
            && s.cores[c].counts[i] == Depth(s.mutexes[i], c) + Lag(s.cores[c].stack, i)
            && (s.cores[c].counts[i] > 0 ==> i in s.cores[c].mask)
            && (i in s.cores[c].mask ==> s.cores[c].counts[i] > 0 || BitAhead(s.cores[c].stack, i))
  {
    ReachableCore(s0, run, c);
  }

  /** The two cores never both record a mutex as held, except while one of them is between releasing it and
      taking it off its books. */
  lemma NeverBothCounted(s0: State, run: seq<Move>, i: nat)
    requires Initial(s0) && IsRun(s0, run) && i < MAX_MUTEXES
    ensures var s := After(s0, run);
            && |s.cores| == CORES && |s.cores[0].counts| == |s.cores[1].counts| == MAX_MUTEXES
            && (s.cores[0].counts[i] > 0 && s.cores[1].counts[i] > 0 ==>
                  Lag(s.cores[0].stack, i) == 1 || Lag(s.cores[1].stack, i) == 1)
  {
    BooksRefineOwnership(s0, run, 0, i);
    BooksRefineOwnership(s0, run, 1, i);
  }

  /** Exits are by owners: in every reachable state a core whose next instruction is a recursive_mutex_exit, in unlock,
      in pthread_cond_wait, at the end of a service call or in the clean-up of core 1, owns that mutex. */
  lemma ExitsAreByOwner(s0: State, run: seq<Move>, c: nat)
    requires Initial(s0) && IsRun(s0, run) && c < CORES
    ensures |After(s0, run).cores| == CORES
    ensures var s := After(s0, run); var core := s.cores[c];
            Exits(core) ==> core.stack.top.i < |s.mutexes| && Depth(s.mutexes[core.stack.top.i], c) > 0
  {
    ReachableCore(s0, run, c);
    if Exits(After(s0, run).cores[c]) {
      ExitOwns(After(s0, run).mutexes, c, After(s0, run).cores[c]);
    }
  }

  /** The guard "if (held_counts > 0)" of unlock and cond_wait never fails for an owner. */
  lemma DecrementGuardHolds(s0: State, run: seq<Move>, c: nat)
    requires Initial(s0) && IsRun(s0, run) && c < CORES
    ensures |After(s0, run).cores| == CORES
    ensures var core := After(s0, run).cores[c];
            core.stack.Call? && core.stack.top.AtDecrement? ==>
              core.stack.top.i < |core.counts| && core.counts[core.stack.top.i] > 0
  {
    ReachableCore(s0, run, c);
  }

  /** When the clean-up of core 1 is done, core 1 owns no mutex and its books are empty. */
  lemma CleanUpReleasesEverything(s0: State, run: seq<Move>)
    requires Initial(s0) && IsRun(s0, run) && Enabled(After(s0, run), 1, Advance)
    requires After(s0, run).cores[1].stack.top.i == MAX_MUTEXES
    ensures var s := Step(After(s0, run), 1, Advance);
            && |s.cores| == CORES && |s.mutexes| == |s.cores[1].counts| == MAX_MUTEXES
            && s.cores[1].mask == {} && s.cores[1].stack == Code
            && forall i :: 0 <= i < MAX_MUTEXES ==> s.cores[1].counts[i] == 0 && Depth(s.mutexes[i], 1) == 0
  {
    ReachableCore(s0, run, 1);
    CleanUpEnds(After(s0, run).mutexes, 1, After(s0, run).cores[1]);
  }

  /** At most one handler frame per core, present exactly while handling_stw is set, and only while the core holds
      its domain lock. */
  lemma OneHandlerUnderItsLock(s0: State, run: seq<Move>, c: nat)
    requires Initial(s0) && IsRun(s0, run) && c < CORES
    ensures |After(s0, run).cores| == CORES
    ensures var s := After(s0, run); var core := s.cores[c];
            && HandlerFrames(core.stack) == (if core.handling then 1 else 0)
            && (core.handling ==> core.domainLock.Some? && core.domainLock.value < |s.mutexes| &&
                                  Depth(s.mutexes[core.domainLock.value], c) > 0)
  {
    ReachableCore(s0, run, c);
    var core := After(s0, run).cores[c];
    if core.handling {
      HandlerReliesOnDomainLock(core.stack, core.domainLock);
    }
  }

  lemma {:induction false} HandlerReliesOnDomainLock(stack: Stack, domainLock: Option<nat>)
    requires HandlerFrames(stack) == 1 && FrameOk(stack.top, domainLock) && BelowOk(stack.below, domainLock)
    ensures domainLock.Some? && Floor(stack, domainLock.value) > 0
  {
    if !HandlerFrame(stack.top) {
      HandlerReliesOnDomainLock(stack.below, domainLock);
    }
  }

  /** The handler starts in the state of the domain whose interrupts it serves, with the interrupted state saved. */
  lemma HandlerStartsInDomainState(s: State, c: nat)
    requires Inv(s) && Enabled(s, c, Advance) && s.cores[c].stack.top.AtSwapState?
    ensures var core := s.cores[c]; var core' := Step(s, c, Advance).cores[c];
            && core.handling && core'.handling && core'.stack.top.InHandler?
            && core'.camlState == core.domainState && core'.stack.top.saved == core.camlState
  {
    CoreIsOk(s, c);
  }

  // One stop-the-world service call, from its beginning to its end

  function EntryOf(f: Frame): Entry
    requires ServiceFrame(f)
  {
    match f
    case AtEnter(_, _, next) => next.entry
    case AtSetBit(_, next) => next.entry
    case AtIncrement(_, next) => next.entry
    case AtExit(_, next) => next.entry
    case AtDecrement(_, next) => next.entry
    case AtClearBit(_, next) => next.entry
    case AtRaiseFlag(_, e) => e
    case AtSwapState(_, e) => e
    case InHandler(_, e, _) => e
    case AtRestore(_, e, _) => e
    case AtLowerFlag(_, e) => e
  }

  /** The service call that was made on top of base, for the domain lock d, is under way; whatever its handler
      called lies above it. */
  predicate Serving(stack: Stack, base: Stack, d: nat, entry: Entry)
  {
    stack.Call? &&
    ((stack.below == base && ServiceFrame(stack.top) && stack.top.i == d && EntryOf(stack.top) == entry)
     || Serving(stack.below, base, d, entry))
  }

  /** The service call has returned to base: caml_state, the reentrancy flag and the depth of the domain lock are
      what they were when it began. */
  predicate Restored(s: State, c: nat, base: Stack, d: nat, entry: Entry)
  {
    && c < |s.cores| && d < |s.mutexes| && s.cores[c].stack == base
    && !s.cores[c].handling && s.cores[c].camlState == entry.camlState
    && Depth(s.mutexes[d], c) == entry.depth
  }

  /** One instruction of a service activation moves to another activation of the same call, or returns with the
      lock depth, the flag and caml_state as the call found them. */
  lemma ServingInstruction(mutexes: seq<Mutex>, core: Core, c: nat)
    requires CoreOk(mutexes, c, core) && core.stack.Call? && ServiceFrame(core.stack.top) && !core.stack.top.InHandler?
    ensures core.stack.top.i < MAX_MUTEXES
    ensures var f := core.stack.top;
            var (core', m') := Instruction(core, mutexes[f.i], c);
            || (core'.stack.Call? && core'.stack.below == core.stack.below &&
                ServiceFrame(core'.stack.top) && core'.stack.top.i == f.i && EntryOf(core'.stack.top) == EntryOf(f))
            || (core'.stack == core.stack.below && !core'.handling &&
                core'.camlState == EntryOf(f).camlState && Depth(m', c) == EntryOf(f).depth)
  {
    var f := core.stack.top;
    assert TopOk(f, Depth(mutexes[f.i], c), core);
    assert core.counts[f.i] == Depth(mutexes[f.i], c) + Lag(core.stack, f.i);
  }

  /** Steps touch only the innermost activation: they push one on top, replace it, or return from it. */
  lemma StepTouchesTop(s: State, c: nat, op: Op)
    requires Enabled(s, c, op) && s.cores[c].stack.Call?
    ensures |Step(s, c, op).cores| == CORES
    ensures var stack := s.cores[c].stack; var stack' := Step(s, c, op).cores[c].stack;
            stack' == stack.below || (stack'.Call? && (stack'.below == stack.below || stack'.below == stack))
  {
    if op.Advance? && s.cores[c].stack.top.i < MAX_MUTEXES {
      InstructionTouchesTop(s.cores[c], s.mutexes[s.cores[c].stack.top.i], c);
    }
  }

  lemma InstructionTouchesTop(core: Core, m: Mutex, c: nat)
    requires core.stack.Call? && core.stack.top.i < |core.counts|
    requires !core.stack.top.AtWait? && !core.stack.top.InHandler?
    ensures var stack' := Instruction(core, m, c).0.stack;
            stack' == core.stack.below || (stack'.Call? && stack'.below == core.stack.below)
  {
  }

  lemma ServingAdvance(s: State, c: nat, base: Stack, d: nat, entry: Entry)
    requires c < |s.cores| && CoreOk(s.mutexes, c, s.cores[c])
    requires var stack := s.cores[c].stack;
             && stack.Call? && stack.below == base && ServiceFrame(stack.top)
             && stack.top.i == d && EntryOf(stack.top) == entry
    requires !s.cores[c].stack.top.InHandler?
    ensures var s' := AdvanceCore(s, c);
            c < |s'.cores| && (Serving(s'.cores[c].stack, base, d, entry) || Restored(s', c, base, d, entry))
  {
    ServingInstruction(s.mutexes, s.cores[c], c);
  }

  lemma ServingCall(s: State, c: nat, op: Op, base: Stack, d: nat, entry: Entry)
    requires Enabled(s, c, op) && !op.Advance?
    requires var stack := s.cores[c].stack;
             && stack.Call? && stack.below == base && ServiceFrame(stack.top)
             && stack.top.i == d && EntryOf(stack.top) == entry
    ensures |Step(s, c, op).cores| == CORES && Serving(Step(s, c, op).cores[c].stack, base, d, entry)
  {
    StepTouchesTop(s, c, op);
  }

  lemma ServingStep(s: State, b: nat, op: Op, c: nat, base: Stack, d: nat, entry: Entry)
    requires Inv(s) && c < CORES && Serving(s.cores[c].stack, base, d, entry) && Enabled(s, b, op)
    ensures var s' := Step(s, b, op);
            |s'.cores| == CORES && (Serving(s'.cores[c].stack, base, d, entry) || Restored(s', c, base, d, entry))
  {
    var stack := s.cores[c].stack;
    if b != c {
      StepSparesOtherCore(s, b, op, c);
    } else if !(stack.below == base && ServiceFrame(stack.top) && stack.top.i == d && EntryOf(stack.top) == entry) {
      StepTouchesTop(s, c, op);
    } else if op.Advance? {
      CoreIsOk(s, c);
      ServingAdvance(s, c, base, d, entry);
    } else {
      ServingCall(s, c, op, base, d, entry);
    }
  }

  /** Until its last state the run has not brought core c back to the stack base. */
  ghost predicate NotBackYet(s: State, run: seq<Move>, c: nat, base: Stack)
    requires IsRun(s, run)
    decreases |run|
  {
    run == [] ||
    (c < |s.cores| && s.cores[c].stack != base && NotBackYet(Step(s, run[0].c, run[0].op), run[1..], c, base))
  }

  /** Balanced and restoring: a service call, run against any interleaving and any handler, is still under way or
      has just returned with everything restored. */
  lemma {:induction false} ServiceRestores(s: State, run: seq<Move>, c: nat, base: Stack, d: nat, entry: Entry)
    requires Inv(s) && c < CORES && Serving(s.cores[c].stack, base, d, entry)
    requires IsRun(s, run) && NotBackYet(s, run, c, base)
    ensures var s' := After(s, run);
            |s'.cores| == CORES && (Serving(s'.cores[c].stack, base, d, entry) || Restored(s', c, base, d, entry))
    decreases |run|
  {
    if run != [] {
      var s' := Step(s, run[0].c, run[0].op);
      ServingStep(s, run[0].c, run[0].op, c, base, d, entry);
      StepKeepsInv(s, run[0].c, run[0].op);
      if Serving(s'.cores[c].stack, base, d, entry) {
        ServiceRestores(s', run[1..], c, base, d, entry);
      } else {
        assert run[1..] == [];
      }
    }
  }

  /** A service call begins by recording the state of the moment. */
  lemma ServiceBegins(s: State, c: nat)
    requires Enabled(s, c, Service(true)) && !s.cores[c].handling && s.cores[c].domainLock.Some?
    ensures var d := s.cores[c].domainLock.value;
            Serving(Step(s, c, Service(true)).cores[c].stack, s.cores[c].stack, d,
                    Entry(s.cores[c].camlState, Depth(s.mutexes[d], c)))
  {
  }

  /** A whole service call: begun in any state of the invariant by a queued interrupt, and back where it was called from
      after any run of both cores, it has left caml_state, the reentrancy flag and the depth of the domain lock as it
      found them. */
  lemma ServiceCallRestores(s: State, run: seq<Move>, c: nat)
    requires Inv(s) && c < CORES && Enabled(s, c, Service(true)) && !s.cores[c].handling && s.cores[c].domainLock.Some?
    requires var s1 := Step(s, c, Service(true));
             && IsRun(s1, run) && NotBackYet(s1, run, c, s.cores[c].stack)
             && |After(s1, run).cores| == CORES && After(s1, run).cores[c].stack == s.cores[c].stack
    ensures var s' := After(Step(s, c, Service(true)), run); var d := s.cores[c].domainLock.value;
            && d < |s'.mutexes| && d < |s.mutexes| && Depth(s'.mutexes[d], c) == Depth(s.mutexes[d], c)
            && s'.cores[c].camlState == s.cores[c].camlState && !s'.cores[c].handling
  {
    var d := s.cores[c].domainLock.value;
    var entry := Entry(s.cores[c].camlState, Depth(s.mutexes[d], c));
    ServiceBegins(s, c);
    StepKeepsInv(s, c, Service(true));
    ServiceRestores(Step(s, c, Service(true)), run, c, s.cores[c].stack, d, entry);
    NotServingItself(s.cores[c].stack, d, entry);
  }

  /** A call in progress lies above where it was made. */
  lemma {:induction false} ServingIsAbove(stack: Stack, base: Stack, d: nat, entry: Entry)
    requires Serving(stack, base, d, entry)
    ensures base < stack
  {
    if stack.below != base {
      ServingIsAbove(stack.below, base, d, entry);
    }
  }

  lemma NotServingItself(base: Stack, d: nat, entry: Entry)
    ensures !Serving(base, base, d, entry)
  {
    if Serving(base, base, d, entry) {
      ServingIsAbove(base, base, d, entry);
    }
  }
}
