/** The calls of the mutex layer from beginning to end, over any interleaving with the other core and with interrupt
    handlers: what core c finds when it is back on the stack from which it called. */
module LocksCalls {
  import opened Locks
  import opened LocksProof

  // Single steps

  /** A mutex that an enter by core c takes. */
  predicate FreeOrOwn(m: Mutex, c: nat)
  {
    m.Free? || m.core == c
  }

  predicate ExactBooks(s: State, c: nat, i: nat)
  {
    && c < |s.cores| && i < |s.mutexes| && i < |s.cores[c].counts|
    && s.cores[c].counts[i] == Depth(s.mutexes[i], c)
    && (i in s.cores[c].mask <==> Depth(s.mutexes[i], c) > 0)
  }

  /** At every point where a routine can be called, or calls the interrupt service, the books are exact. */
  lemma BooksAtRest(s: State, c: nat, i: nat)
    requires Inv(s) && c < CORES && i < MAX_MUTEXES && (s.cores[c].stack.Code? || Spinning(s.cores[c].stack.top))
    ensures ExactBooks(s, c, i)
  {
    CoreIsOk(s, c);
  }

  lemma BelowSpins(s: State, c: nat)
    requires Inv(s) && c < CORES && s.cores[c].stack.Call?
    ensures s.cores[c].stack.below.Code? || Spinning(s.cores[c].stack.below.top)
  {
    CoreIsOk(s, c);
  }

  /** Outside its spinning points a core can only execute the next instruction of its routine, and no step of the other
      core changes its record or its depths. */
  lemma QuietStep(s: State, b: nat, op: Op, c: nat)
    requires Inv(s) && c < CORES && Enabled(s, b, op) && s.cores[c].stack.Call? && !Spinning(s.cores[c].stack.top)
    ensures b == c ==> op.Advance?
    ensures b != c ==> SeesNothing(s, Step(s, b, op), c)
  {
    if b != c {
      StepSparesOtherCore(s, b, op, c);
    }
  }

  /** Core c cannot tell the two states apart. */
  predicate SeesNothing(s: State, s': State, c: nat)
  {
    && c < |s.cores| == |s'.cores| && |s.mutexes| == |s'.mutexes| == MAX_MUTEXES && s'.cores[c] == s.cores[c]
    && forall i :: 0 <= i < MAX_MUTEXES ==> Depth(s'.mutexes[i], c) == Depth(s.mutexes[i], c)
  }

  lemma OwnStep(s: State, c: nat)
    requires Inv(s) && Enabled(s, c, Advance) && s.cores[c].stack.top.i < MAX_MUTEXES
    ensures var s' := Step(s, c, Advance); var i := s.cores[c].stack.top.i;
            var (core', m') := Instruction(s.cores[c], s.mutexes[i], c);
            && |s'.cores| == CORES && s'.cores[c] == core'
            && |s'.mutexes| == MAX_MUTEXES && s'.mutexes == s.mutexes[i := m']
  {
  }

  /** An enter takes the mutex if and only if it is free or the core's own when the instruction runs; otherwise a
      blocking call stays where it is and a trylock returns, and nothing else happens. */
  lemma EnterTakesIff(s: State, c: nat)
    requires Inv(s) && Enabled(s, c, Advance) && s.cores[c].stack.top.AtEnter?
    ensures s.cores[c].stack.top.i < MAX_MUTEXES
    ensures var f := s.cores[c].stack.top; var below := s.cores[c].stack.below;
            var s' := Step(s, c, Advance);
            && |s'.cores| == CORES && |s'.mutexes| == MAX_MUTEXES
            && if FreeOrOwn(s.mutexes[f.i], c) then
                 && Depth(s'.mutexes[f.i], c) == Depth(s.mutexes[f.i], c) + 1
                 && s'.cores[c] == s.cores[c].(stack := Call(AtSetBit(f.i, f.next), below))
               else
                 && s'.mutexes == s.mutexes
                 && s'.cores[c] == if f.blocking then s.cores[c] else s.cores[c].(stack := below)
  {
    CoreIsOk(s, c);
    OwnStep(s, c);
    assert s.mutexes[s.cores[c].stack.top.i := s.mutexes[s.cores[c].stack.top.i]] == s.mutexes;
  }

  // The frame a call keeps directly on the stack it was made from

  /** Frame f lies directly on base; whatever interrupted it lies above. */
  predicate Above(stack: Stack, base: Stack, f: Frame)
  {
    stack.Call? && (stack == Call(f, base) || Above(stack.below, base, f))
  }

  lemma {:induction false} AboveIsLarger(stack: Stack, base: Stack, f: Frame)
    requires Above(stack, base, f)
    ensures base < stack && stack != base
  {
    if stack != Call(f, base) {
      AboveIsLarger(stack.below, base, f);
    }
  }

  /** What runs above a frame, and what the other core does, leaves the frame there. */
  lemma AboveStays(s: State, b: nat, op: Op, c: nat, base: Stack, f: Frame)
    requires Inv(s) && c < CORES && Enabled(s, b, op) && Above(s.cores[c].stack, base, f)
    requires b != c || s.cores[c].stack != Call(f, base) || op.Service?
    ensures |Step(s, b, op).cores| == CORES && Above(Step(s, b, op).cores[c].stack, base, f)
  {
    if b != c {
      StepSparesOtherCore(s, b, op, c);
    } else if s.cores[c].stack != Call(f, base) {
      StepTouchesTop(s, c, op);
    }
  }

  /** The innermost activation of core c was called from base. */
  predicate OnBase(s: State, c: nat, base: Stack)
  {
    c < |s.cores| && s.cores[c].stack.Call? && s.cores[c].stack.below == base
  }

  /** The run ends with core c back on base for the first time. */
  ghost predicate Returns(s: State, run: seq<Move>, c: nat, base: Stack)
  {
    && IsRun(s, run) && NotBackYet(s, run, c, base)
    && c < |After(s, run).cores| == CORES && After(s, run).cores[c].stack == base
  }

  /** A call that is not back yet has a next step; the call it leaves returns as before, and is over if that step has
      brought the core back. */
  lemma ReturnsRest(s: State, run: seq<Move>, c: nat, base: Stack, f: Frame)
    requires Returns(s, run, c, base) && c < |s.cores| && Above(s.cores[c].stack, base, f)
    ensures run != [] && Enabled(s, run[0].c, run[0].op)
    ensures var s' := Step(s, run[0].c, run[0].op);
            && Returns(s', run[1..], c, base) && After(s', run[1..]) == After(s, run)
            && (c < |s'.cores| && s'.cores[c].stack == base ==> run[1..] == [] && After(s, run) == s')
  {
    AboveIsLarger(s.cores[c].stack, base, f);
  }

  // unlock, and the release in cond_wait

  predicate Releasing(f: Frame, i: nat, next: Next)
  {
    f == AtExit(i, next) || f == AtDecrement(i, next) || f == AtClearBit(i, next)
  }

  lemma ReleaseStep(s: State, c: nat, i: nat, next: Next)
    requires Inv(s) && c < CORES && i < MAX_MUTEXES && Enabled(s, c, Advance)
    requires Releasing(s.cores[c].stack.top, i, next) && (next.ToCaller? || next.ToWait?)
    ensures var s' := Step(s, c, Advance); var f := s.cores[c].stack.top; var below := s.cores[c].stack.below;
            && |s'.cores| == CORES && |s'.mutexes| == MAX_MUTEXES
            && Depth(s'.mutexes[i], c) == Depth(s.mutexes[i], c) - (if f.AtExit? then 1 else 0)
            && s'.cores[c].stack == if f.AtExit? then Call(AtDecrement(i, next), below)
                                    else if f.AtDecrement? then Call(AtClearBit(i, next), below)
                                    else if next.ToWait? then Call(AtWait(i), below) else below
  {
    CoreIsOk(s, c);
    OwnStep(s, c);
    if s.cores[c].stack.top.AtExit? {
      ExitOwns(s.mutexes, c, s.cores[c]);
    } else if s.cores[c].stack.top.AtDecrement? {
      DecrementFindsCount(s.mutexes, c, s.cores[c]);
    }
  }

  /** How far the release still has to lower the depth. */
  function StillToExit(f: Frame): nat
  {
    if f.AtExit? then 1 else 0
  }

  lemma {:induction false} ReleaseReturns(s: State, run: seq<Move>, c: nat, base: Stack, i: nat)
    requires Inv(s) && c < CORES && i < MAX_MUTEXES && Returns(s, run, c, base)
    requires OnBase(s, c, base) && Releasing(s.cores[c].stack.top, i, ToCaller)
    ensures |After(s, run).mutexes| == MAX_MUTEXES
    ensures Depth(After(s, run).mutexes[i], c) == Depth(s.mutexes[i], c) - StillToExit(s.cores[c].stack.top)
    decreases |run|
  {
    ReturnsRest(s, run, c, base, s.cores[c].stack.top);
    var b, op := run[0].c, run[0].op;
    var s' := Step(s, b, op);
    QuietStep(s, b, op, c);
    StepKeepsInv(s, b, op);
    if b == c {
      ReleaseStep(s, c, i, ToCaller);
    }
    if s'.cores[c].stack != base {
      ReleaseReturns(s', run[1..], c, base, i);
    }
  }

  /** pthread_mutex_unlock, over any interleaving: back at the caller the depth is one lower and the books are exact. */
  lemma UnlockReturns(s: State, run: seq<Move>, c: nat, i: nat)
    requires Inv(s) && Enabled(s, c, CallUnlock(i))
    requires Returns(Step(s, c, CallUnlock(i)), run, c, s.cores[c].stack)
    ensures var s' := After(Step(s, c, CallUnlock(i)), run);
            ExactBooks(s', c, i) && Depth(s'.mutexes[i], c) == Depth(s.mutexes[i], c) - 1
  {
    var s1 := Step(s, c, CallUnlock(i));
    StepKeepsInv(s, c, CallUnlock(i));
    ReleaseReturns(s1, run, c, s.cores[c].stack, i);
    RunKeepsInv(s1, run);
    BooksAtRest(After(s1, run), c, i);
  }

  // lock and trylock

  predicate Taken(f: Frame, i: nat)
  {
    f == AtSetBit(i, ToCaller) || f == AtIncrement(i, ToCaller)
  }

  lemma TakenStep(s: State, c: nat, i: nat)
    requires Inv(s) && c < CORES && i < MAX_MUTEXES && Enabled(s, c, Advance) && Taken(s.cores[c].stack.top, i)
    ensures var s' := Step(s, c, Advance); var f := s.cores[c].stack.top; var below := s.cores[c].stack.below;
            && |s'.cores| == CORES && |s'.mutexes| == MAX_MUTEXES && s'.mutexes[i] == s.mutexes[i]
            && s'.cores[c].stack == if f.AtSetBit? then Call(AtIncrement(i, ToCaller), below) else below
  {
    OwnStep(s, c);
  }

  /** Once the mutex is entered, the call returns with the depth as it is. */
  lemma {:induction false} TakenReturns(s: State, run: seq<Move>, c: nat, base: Stack, i: nat)
    requires Inv(s) && c < CORES && i < MAX_MUTEXES && Returns(s, run, c, base)
    requires OnBase(s, c, base) && Taken(s.cores[c].stack.top, i)
    ensures |After(s, run).mutexes| == MAX_MUTEXES && Depth(After(s, run).mutexes[i], c) == Depth(s.mutexes[i], c)
    decreases |run|
  {
    ReturnsRest(s, run, c, base, s.cores[c].stack.top);
    var b, op := run[0].c, run[0].op;
    var s' := Step(s, b, op);
    QuietStep(s, b, op, c);
    StepKeepsInv(s, b, op);
    if b == c {
      TakenStep(s, c, i);
    }
    if s'.cores[c].stack != base {
      TakenReturns(s', run[1..], c, base, i);
    }
  }

  /** The run contains the enter instruction of the call made from base, and it takes the mutex. */
  ghost predicate EntersLock(s: State, run: seq<Move>, c: nat, base: Stack)
    requires IsRun(s, run)
    decreases |run|
  {
    run != [] && (EntersNow(s, run[0], c, base) || EntersLock(Step(s, run[0].c, run[0].op), run[1..], c, base))
  }

  predicate EntersNow(s: State, move: Move, c: nat, base: Stack)
  {
    && move == Move(c, Advance) && OnBase(s, c, base)
    && s.cores[c].stack.top.AtEnter? && s.cores[c].stack.top.i < |s.mutexes|
    && FreeOrOwn(s.mutexes[s.cores[c].stack.top.i], c)
  }

  lemma EntersLockUnfolds(s: State, run: seq<Move>, c: nat, base: Stack)
    requires IsRun(s, run) && run != []
    ensures var rest := EntersLock(Step(s, run[0].c, run[0].op), run[1..], c, base);
            EntersLock(s, run, c, base) <==> EntersNow(s, run[0], c, base) || rest
    ensures run[1..] == [] ==> !EntersLock(Step(s, run[0].c, run[0].op), run[1..], c, base)
  {
  }

  lemma {:induction false} TryReturns(s: State, run: seq<Move>, c: nat, base: Stack, i: nat)
    requires Inv(s) && c < CORES && i < MAX_MUTEXES && Returns(s, run, c, base)
    requires OnBase(s, c, base) && s.cores[c].stack.top == AtEnter(i, false, ToCaller)
    ensures |After(s, run).mutexes| == MAX_MUTEXES
    ensures Depth(After(s, run).mutexes[i], c) ==
            Depth(s.mutexes[i], c) + (if EntersLock(s, run, c, base) then 1 else 0)
    decreases |run|
  {
    ReturnsRest(s, run, c, base, s.cores[c].stack.top);
    EntersLockUnfolds(s, run, c, base);
    var b, op := run[0].c, run[0].op;
    QuietStep(s, b, op, c);
    StepKeepsInv(s, b, op);
    if b != c {
      TryReturns(Step(s, b, op), run[1..], c, base, i);
    } else {
      TryStep(s, run, c, base, i);
    }
  }

  lemma TryStep(s: State, run: seq<Move>, c: nat, base: Stack, i: nat)
    requires Inv(s) && c < CORES && i < MAX_MUTEXES && Returns(s, run, c, base)
    requires OnBase(s, c, base) && s.cores[c].stack.top == AtEnter(i, false, ToCaller)
    requires run != [] && run[0] == Move(c, Advance)
    ensures |After(s, run).mutexes| == MAX_MUTEXES
    ensures Depth(After(s, run).mutexes[i], c) ==
            Depth(s.mutexes[i], c) + (if EntersNow(s, run[0], c, base) then 1 else 0)
    ensures !EntersNow(s, run[0], c, base) ==> run[1..] == []
  {
    ReturnsRest(s, run, c, base, s.cores[c].stack.top);
    EnterTakesIff(s, c);
    if FreeOrOwn(s.mutexes[i], c) {
      StepKeepsInv(s, c, Advance);
      TakenReturns(Step(s, c, Advance), run[1..], c, base, i);
    }
  }

  /** pthread_mutex_trylock, over any interleaving: back at the caller with exact books, the depth is one higher if and
      only if the mutex was free or the core's own at the enter instruction, and unchanged otherwise. */
  lemma TryLockReturns(s: State, run: seq<Move>, c: nat, i: nat)
    requires Inv(s) && Enabled(s, c, CallTryLock(i))
    requires Returns(Step(s, c, CallTryLock(i)), run, c, s.cores[c].stack)
    ensures var s1 := Step(s, c, CallTryLock(i)); var s' := After(s1, run);
            && ExactBooks(s', c, i)
            && Depth(s'.mutexes[i], c) ==
               Depth(s.mutexes[i], c) + (if EntersLock(s1, run, c, s.cores[c].stack) then 1 else 0)
  {
    var s1 := Step(s, c, CallTryLock(i));
    StepKeepsInv(s, c, CallTryLock(i));
    TryReturns(s1, run, c, s.cores[c].stack, i);
    RunKeepsInv(s1, run);
    BooksAtRest(After(s1, run), c, i);
  }

  /** Whenever core c is back at the enter instruction of a blocking call, its depth on the slot is the given one: the
      handlers that interrupted the call left it as it was. */
  ghost predicate Balanced(s: State, run: seq<Move>, c: nat, base: Stack, i: nat, depth: nat)
    requires IsRun(s, run)
    decreases |run|
  {
    && c < |s.cores| && i < |s.mutexes|
    && (s.cores[c].stack == Call(AtEnter(i, true, ToCaller), base) ==> Depth(s.mutexes[i], c) == depth)
    && (run == [] || Balanced(Step(s, run[0].c, run[0].op), run[1..], c, base, i, depth))
  }

  lemma {:induction false} BlockedReturns(s: State, run: seq<Move>, c: nat, base: Stack, i: nat, depth: nat)
    requires Inv(s) && c < CORES && i < MAX_MUTEXES && Returns(s, run, c, base)
    requires Above(s.cores[c].stack, base, AtEnter(i, true, ToCaller))
    ensures |After(s, run).mutexes| == MAX_MUTEXES && Depth(After(s, run).mutexes[i], c) > 0
    ensures Balanced(s, run, c, base, i, depth) ==> Depth(After(s, run).mutexes[i], c) == depth + 1
    decreases |run|
  {
    var f := AtEnter(i, true, ToCaller);
    ReturnsRest(s, run, c, base, f);
    var b, op := run[0].c, run[0].op;
    var s' := Step(s, b, op);
    StepKeepsInv(s, b, op);
    if b == c && s.cores[c].stack == Call(f, base) && op.Advance? {
      EnterTakesIff(s, c);
      if FreeOrOwn(s.mutexes[i], c) {
        TakenReturns(s', run[1..], c, base, i);
      } else {
        BlockedReturns(s', run[1..], c, base, i, depth);
      }
    } else {
      AboveStays(s, b, op, c, base, f);
      BlockedReturns(s', run[1..], c, base, i, depth);
    }
  }

  /** pthread_mutex_lock, over any interleaving and any handlers that interrupt it: back at the caller the core owns the
      mutex with exact books, one deeper than at the call if the handlers left its depth alone. */
  lemma LockReturns(s: State, run: seq<Move>, c: nat, i: nat)
    requires Inv(s) && Enabled(s, c, CallLock(i))
    requires Returns(Step(s, c, CallLock(i)), run, c, s.cores[c].stack)
    ensures var s1 := Step(s, c, CallLock(i)); var s' := After(s1, run); var before := Depth(s.mutexes[i], c);
            && ExactBooks(s', c, i) && Depth(s'.mutexes[i], c) > 0
            && (Balanced(s1, run, c, s.cores[c].stack, i, before) ==> Depth(s'.mutexes[i], c) == before + 1)
  {
    var s1 := Step(s, c, CallLock(i));
    StepKeepsInv(s, c, CallLock(i));
    BlockedReturns(s1, run, c, s.cores[c].stack, i, Depth(s.mutexes[i], c));
    RunKeepsInv(s1, run);
    BooksAtRest(After(s1, run), c, i);
  }

  // cond_wait

  /** The wait ends by a changed generation, seen at the loop of the call made from base. */
  ghost predicate Woken(s: State, run: seq<Move>, c: nat, base: Stack, i: nat)
    requires IsRun(s, run)
    decreases |run|
  {
    run != [] &&
    ((run[0] == Move(c, GenerationChanged) && c < |s.cores| && s.cores[c].stack == Call(AtWait(i), base))
     || Woken(Step(s, run[0].c, run[0].op), run[1..], c, base, i))
  }

  /** The core comes to the loop of the call made from base with the given depth on the slot. */
  ghost predicate ComesToWait(s: State, run: seq<Move>, c: nat, base: Stack, i: nat, depth: nat)
    requires IsRun(s, run)
    decreases |run|
  {
    || (c < |s.cores| && i < |s.mutexes| && s.cores[c].stack == Call(AtWait(i), base)
        && Depth(s.mutexes[i], c) == depth)
    || (run != [] && ComesToWait(Step(s, run[0].c, run[0].op), run[1..], c, base, i, depth))
  }

  lemma {:induction false} WaitingReturns(s: State, run: seq<Move>, c: nat, base: Stack, i: nat, depth: nat)
    requires Inv(s) && c < CORES && i < MAX_MUTEXES && Returns(s, run, c, base)
    requires Above(s.cores[c].stack, base, AtWait(i))
    ensures |After(s, run).mutexes| == MAX_MUTEXES && Depth(After(s, run).mutexes[i], c) > 0
    ensures Balanced(s, run, c, base, i, depth) ==> Depth(After(s, run).mutexes[i], c) == depth + 1
    ensures Woken(s, run, c, base, i)
    decreases |run|
  {
    ReturnsRest(s, run, c, base, AtWait(i));
    var b, op := run[0].c, run[0].op;
    var s' := Step(s, b, op);
    StepKeepsInv(s, b, op);
    if b == c && s.cores[c].stack == Call(AtWait(i), base) && !op.Service? {
      assert op.GenerationChanged?;
      BlockedReturns(s', run[1..], c, base, i, depth);
    } else {
      AboveStays(s, b, op, c, base, AtWait(i));
      WaitingReturns(s', run[1..], c, base, i, depth);
    }
  }

  lemma {:induction false} ReleaseThenWait(s: State, run: seq<Move>, c: nat, base: Stack, i: nat, depth: nat)
    requires Inv(s) && c < CORES && i < MAX_MUTEXES && Returns(s, run, c, base)
    requires OnBase(s, c, base) && Releasing(s.cores[c].stack.top, i, ToWait)
    requires Depth(s.mutexes[i], c) == depth + StillToExit(s.cores[c].stack.top)
    ensures |After(s, run).mutexes| == MAX_MUTEXES && Depth(After(s, run).mutexes[i], c) > 0
    ensures Woken(s, run, c, base, i) && ComesToWait(s, run, c, base, i, depth)
    ensures Balanced(s, run, c, base, i, depth) ==> Depth(After(s, run).mutexes[i], c) == depth + 1
    decreases |run|
  {
    ReturnsRest(s, run, c, base, s.cores[c].stack.top);
    var b, op := run[0].c, run[0].op;
    var s' := Step(s, b, op);
    QuietStep(s, b, op, c);
    StepKeepsInv(s, b, op);
    if b == c {
      ReleaseStep(s, c, i, ToWait);
    }
    if s'.cores[c].stack == Call(AtWait(i), base) {
      WaitingReturns(s', run[1..], c, base, i, depth);
    } else {
      ReleaseThenWait(s', run[1..], c, base, i, depth);
    }
  }

  lemma WaitCalled(s: State, c: nat, i: nat)
    requires Inv(s) && Enabled(s, c, CallWait(i))
    ensures var s1 := Step(s, c, CallWait(i));
            && |s1.cores| == CORES && s1.mutexes == s.mutexes && Depth(s.mutexes[i], c) > 0
            && s1.cores[c].stack == Call(AtExit(i, ToWait), s.cores[c].stack)
            && Inv(s1) && c < CORES && i < MAX_MUTEXES
            && OnBase(s1, c, s.cores[c].stack) && Releasing(s1.cores[c].stack.top, i, ToWait)
            && StillToExit(s1.cores[c].stack.top) == 1
  {
    StepKeepsInv(s, c, CallWait(i));
  }

  /** pthread_cond_wait, over any interleaving and any handlers: it releases the mutex by one, comes back only after it
      has seen the generation changed, and then owns the mutex with exact books, as deeply as at the call if the
      handlers left its depth alone. */
  lemma WaitReturns(s: State, run: seq<Move>, c: nat, i: nat)
    requires Inv(s) && Enabled(s, c, CallWait(i))
    requires Returns(Step(s, c, CallWait(i)), run, c, s.cores[c].stack)
    ensures var s1 := Step(s, c, CallWait(i)); var s' := After(s1, run); var base := s.cores[c].stack;
            && Depth(s.mutexes[i], c) > 0
            && ComesToWait(s1, run, c, base, i, Depth(s.mutexes[i], c) - 1) && Woken(s1, run, c, base, i)
            && ExactBooks(s', c, i) && Depth(s'.mutexes[i], c) > 0
            && (Balanced(s1, run, c, base, i, Depth(s.mutexes[i], c) - 1) ==>
                  Depth(s'.mutexes[i], c) == Depth(s.mutexes[i], c))
  {
    var s1 := Step(s, c, CallWait(i));
    WaitCalled(s, c, i);
    ReleaseThenWait(s1, run, c, s.cores[c].stack, i, Depth(s.mutexes[i], c) - 1);
    RunKeepsInv(s1, run);
    BooksAtRest(After(s1, run), c, i);
  }

  // try_handle_stw_interrupt

  /** The interrupt handler of the service call made from base is running, in the state of its domain. */
  predicate HandlerRunning(s: State, c: nat, base: Stack)
  {
    && OnBase(s, c, base) && s.cores[c].stack.top.InHandler?
    && s.cores[c].handling && s.cores[c].camlState == s.cores[c].domainState
  }

  ghost predicate HandlerRuns(s: State, run: seq<Move>, c: nat, base: Stack)
    requires IsRun(s, run)
    decreases |run|
  {
    HandlerRunning(s, c, base) ||
    (run != [] && HandlerRuns(Step(s, run[0].c, run[0].op), run[1..], c, base))
  }

  /** The frames of a service call between its enter and the handler. */
  predicate BeforeHandler(f: Frame)
  {
    (f.AtSetBit? && f.next.ToHandler?) || (f.AtIncrement? && f.next.ToHandler?) || f.AtRaiseFlag? || f.AtSwapState?
  }

  lemma TowardsHandler(s: State, c: nat)
    requires Inv(s) && Enabled(s, c, Advance) && BeforeHandler(s.cores[c].stack.top)
    ensures var s' := Step(s, c, Advance); var below := s.cores[c].stack.below;
            && |s'.cores| == CORES && s'.cores[c].stack.Call? && s'.cores[c].stack.below == below
            && (BeforeHandler(s'.cores[c].stack.top) || HandlerRunning(s', c, below))
  {
    CoreIsOk(s, c);
    OwnStep(s, c);
  }

  lemma {:induction false} TakenRunsHandler(s: State, run: seq<Move>, c: nat, base: Stack)
    requires Inv(s) && c < CORES && Returns(s, run, c, base)
    requires OnBase(s, c, base) && BeforeHandler(s.cores[c].stack.top)
    ensures HandlerRuns(s, run, c, base)
    decreases |run|
  {
    ReturnsRest(s, run, c, base, s.cores[c].stack.top);
    var b, op := run[0].c, run[0].op;
    var s' := Step(s, b, op);
    QuietStep(s, b, op, c);
    StepKeepsInv(s, b, op);
    if b == c {
      TowardsHandler(s, c);
    }
    if !HandlerRunning(s', c, base) {
      TakenRunsHandler(s', run[1..], c, base);
    }
  }

  lemma HandlerRunsUnfolds(s: State, run: seq<Move>, c: nat, base: Stack)
    requires IsRun(s, run) && run != []
    ensures var rest := HandlerRuns(Step(s, run[0].c, run[0].op), run[1..], c, base);
            HandlerRuns(s, run, c, base) <==> HandlerRunning(s, c, base) || rest
    ensures var s' := Step(s, run[0].c, run[0].op);
            run[1..] == [] ==> (HandlerRuns(s', run[1..], c, base) <==> HandlerRunning(s', c, base))
  {
  }

  lemma {:induction false} RunsHandlerIff(s: State, run: seq<Move>, c: nat, base: Stack)
    requires Inv(s) && c < CORES && Returns(s, run, c, base)
    requires OnBase(s, c, base)
    requires var f := s.cores[c].stack.top; f.AtEnter? && !f.blocking && f.next.ToHandler?
    ensures HandlerRuns(s, run, c, base) <==> EntersLock(s, run, c, base)
    decreases |run|
  {
    ReturnsRest(s, run, c, base, s.cores[c].stack.top);
    EntersLockUnfolds(s, run, c, base);
    HandlerRunsUnfolds(s, run, c, base);
    var b, op := run[0].c, run[0].op;
    QuietStep(s, b, op, c);
    StepKeepsInv(s, b, op);
    if b != c {
      RunsHandlerIff(Step(s, b, op), run[1..], c, base);
    } else {
      ServiceEnterStep(s, run, c, base);
    }
  }

  lemma ServiceEnterStep(s: State, run: seq<Move>, c: nat, base: Stack)
    requires Inv(s) && c < CORES && Returns(s, run, c, base)
    requires OnBase(s, c, base)
    requires var f := s.cores[c].stack.top; f.AtEnter? && !f.blocking && f.next.ToHandler?
    requires run != [] && run[0] == Move(c, Advance)
    ensures HandlerRuns(Step(s, c, Advance), run[1..], c, base) <==> EntersNow(s, run[0], c, base)
    ensures !EntersNow(s, run[0], c, base) ==> run[1..] == []
  {
    ReturnsRest(s, run, c, base, s.cores[c].stack.top);
    EnterTakesIff(s, c);
    if FreeOrOwn(s.mutexes[s.cores[c].stack.top.i], c) {
      StepKeepsInv(s, c, Advance);
      TakenRunsHandler(Step(s, c, Advance), run[1..], c, base);
    } else {
      HandlerRunsUnfolds(s, run, c, base);
      NotOnItself(Step(s, c, Advance), c, base);
    }
  }

  lemma NotOnItself(s: State, c: nat, base: Stack)
    requires c < |s.cores| && s.cores[c].stack == base
    ensures !HandlerRunning(s, c, base)
  {
    if HandlerRunning(s, c, base) {
      AboveIsLarger(base, base, base.top);
    }
  }

  /** A service call serves the interrupt: on any run from a queued interrupt back to where it was called, the handler
      runs, with the flag set and in the state of its domain, if and only if the domain lock was free or the core's own
      at the trylock. */
  lemma ServiceServesIff(s: State, run: seq<Move>, c: nat)
    requires Inv(s) && Enabled(s, c, Service(true)) && !s.cores[c].handling && s.cores[c].domainLock.Some?
    requires Returns(Step(s, c, Service(true)), run, c, s.cores[c].stack)
    ensures var s1 := Step(s, c, Service(true)); var base := s.cores[c].stack;
            HandlerRuns(s1, run, c, base) <==> EntersLock(s1, run, c, base)
  {
    StepKeepsInv(s, c, Service(true));
    RunsHandlerIff(Step(s, c, Service(true)), run, c, s.cores[c].stack);
  }

  /** And it begins if and only if an interrupt is queued, no handler is running on the core and it has a domain. */
  lemma ServiceBeginsIff(s: State, c: nat, queued: bool)
    requires Enabled(s, c, Service(queued))
    ensures |Step(s, c, Service(queued)).cores| == CORES
    ensures Step(s, c, Service(queued)).cores[c].stack != s.cores[c].stack
            <==> queued && !s.cores[c].handling && s.cores[c].domainLock.Some?
    ensures !queued || s.cores[c].handling || s.cores[c].domainLock.None? ==> Step(s, c, Service(queued)) == s
  {
    assert s.cores[c := s.cores[c]] == s.cores;
    var stack' := Step(s, c, Service(queued)).cores[c].stack;
    if queued && !s.cores[c].handling && s.cores[c].domainLock.Some? {
      AboveIsLarger(stack', s.cores[c].stack, stack'.top);
    }
  }

  // Progress: the calls above do come back

  /** How many more instructions a call has at most, left alone at its waits and blocked enters. */
  function Left(f: Frame): nat
  {
    match f
    case AtEnter(_, _, next) => if next.ToHandler? then 11 else 3
    case AtSetBit(_, next) => if next.ToHandler? then 10 else 2
    case AtIncrement(_, next) => if next.ToHandler? then 9 else 1
    case AtRaiseFlag(_, _) => 8
    case AtSwapState(_, _) => 7
    case InHandler(_, _, _) => 6
    case AtRestore(_, _, _) => 5
    case AtLowerFlag(_, _) => 4
    case AtExit(_, next) => if next.ToWait? then 7 else 3
    case AtDecrement(_, next) => if next.ToWait? then 6 else 2
    case AtClearBit(_, next) => if next.ToWait? then 5 else 1
    case AtWait(_) => 4
    case AtClean(_) => 0
    case AtCleanDecrement(_) => 0
  }

  /** The core is at an enter that spins because the other core owns the mutex. */
  predicate Blocked(s: State, c: nat)
  {
    && c < |s.cores| && s.cores[c].stack.Call? && s.cores[c].stack.top.AtEnter? && s.cores[c].stack.top.blocking
    && s.cores[c].stack.top.i < |s.mutexes| && !FreeOrOwn(s.mutexes[s.cores[c].stack.top.i], c)
  }

  /** Outside the loop of cond_wait and the handler a call can always go on, and each instruction of its own brings it
      nearer to its end or ends it, unless it is blocked by the other core. */
  lemma CallsProgress(s: State, c: nat)
    requires Inv(s) && c < CORES && s.cores[c].stack.Call? && !s.cores[c].stack.top.AtWait?
    requires !s.cores[c].stack.top.InHandler?
    requires !s.cores[c].stack.top.AtClean? && !s.cores[c].stack.top.AtCleanDecrement?
    ensures Enabled(s, c, Advance) && |Step(s, c, Advance).cores| == CORES
    ensures var stack := s.cores[c].stack; var stack' := Step(s, c, Advance).cores[c].stack;
            if Blocked(s, c) then stack' == stack
            else stack' == stack.below || (OnBase(Step(s, c, Advance), c, stack.below)
                                           && Left(stack'.top) < Left(stack.top))
  {
    CoreIsOk(s, 0);
    CoreIsOk(s, 1);
    OwnStep(s, c);
    if s.cores[c].stack.top.AtEnter? {
      EnterTakesIff(s, c);
    } else {
      InstructionProgress(s.cores[c], s.mutexes[s.cores[c].stack.top.i], c);
    }
  }

  /** A waiting call goes on to reacquire its mutex when the generation has changed, and a handler that has returned
      lets its service call go on to restore the state it saved. */
  lemma WaitsEnd(s: State, c: nat)
    requires Inv(s) && c < CORES && s.cores[c].stack.Call?
    requires s.cores[c].stack.top.AtWait? || s.cores[c].stack.top.InHandler?
    ensures s.cores[c].stack.top.AtWait? ==> Enabled(s, c, GenerationChanged)
    ensures var f := s.cores[c].stack.top; var op := if f.AtWait? then GenerationChanged else HandlerReturns;
            Enabled(s, c, op) ==>
              var s' := Step(s, c, op);
              && OnBase(s', c, s.cores[c].stack.below) && s'.mutexes == s.mutexes
              && Left(s'.cores[c].stack.top) == Left(f) - 1
              && s'.cores[c].stack.top == if f.AtWait? then AtEnter(f.i, true, ToCaller)
                                          else AtRestore(f.i, f.entry, f.saved)
  {
  }

  lemma InstructionProgress(core: Core, m: Mutex, c: nat)
    requires core.stack.Call? && core.stack.top.i < |core.counts|
    requires !Spinning(core.stack.top) && !core.stack.top.AtEnter?
    requires !core.stack.top.AtClean? && !core.stack.top.AtCleanDecrement?
    ensures var stack' := Instruction(core, m, c).0.stack;
            stack' == core.stack.below ||
            (stack'.Call? && stack'.below == core.stack.below && Left(stack'.top) < Left(core.stack.top))
  {
  }
}
