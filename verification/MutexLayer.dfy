/** The mutex routines of ocaml_stubs.c over their static arrays, run without interruption. Each is proved to be a run
    of the two-core machine, so what holds in every reachable state of that machine holds between calls. */
module MutexLayer {
  import opened Locks
  import opened LocksProof

  lemma {:induction false} ExtendRun(s: State, run: seq<Move>, move: Move)
    requires IsRun(s, run) && Enabled(After(s, run), move.c, move.op)
    ensures IsRun(s, run + [move]) && After(s, run + [move]) == Step(After(s, run), move.c, move.op)
    decreases |run|
  {
    if run == [] {
      assert (run + [move])[1..] == [];
    } else {
      assert (run + [move])[1..] == run[1..] + [move];
      ExtendRun(Step(s, run[0].c, run[0].op), run[1..], move);
    }
  }

  /** One more instruction of core c, from t to t'. */
  lemma OneMore(s: State, run: seq<Move>, c: nat, t: State, t': State) returns (run': seq<Move>)
    requires IsRun(s, run) && After(s, run) == t && Enabled(t, c, Advance) && Step(t, c, Advance) == t'
    ensures IsRun(s, run') && After(s, run') == t'
  {
    ExtendRun(s, run, Move(c, Advance));
    run' := run + [Move(c, Advance)];
  }

  lemma OneCall(s: State, c: nat, op: Op) returns (run: seq<Move>)
    requires Enabled(s, c, op)
    ensures IsRun(s, run) && After(s, run) == Step(s, c, op)
  {
    ExtendRun(s, [], Move(c, op));
    run := [] + [Move(c, op)];
  }

  /** Mutex i and core c's books on it set to the given values. */
  function Updated(s: State, c: nat, i: nat, m: Mutex, count: nat, mask: set<nat>): State
    requires c < |s.cores| && i < |s.mutexes| && i < |s.cores[c].counts|
  {
    var core := s.cores[c];
    SetCore(s.(mutexes := s.mutexes[i := m]), c, core.(counts := core.counts[i := count], mask := mask))
  }

  /** The state with a routine of core c at frame f. */
  function Inside(s: State, c: nat, f: Frame): State
    requires c < |s.cores|
  {
    SetCore(s, c, Push(s.cores[c], f))
  }

  /** One instruction of a routine at frame f, on the state below it. */
  lemma OneInstruction(s: State, c: nat, f: Frame)
    requires Shaped(s) && c < CORES && f.i < MAX_MUTEXES && !f.AtWait? && !f.InHandler?
    ensures Enabled(Inside(s, c, f), c, Advance)
    ensures var (core, m) := Instruction(Push(s.cores[c], f), s.mutexes[f.i], c);
            Step(Inside(s, c, f), c, Advance) == SetCore(s.(mutexes := s.mutexes[f.i := m]), c, core)
  {
  }

  lemma TryLockRun(s: State, c: nat, i: nat) returns (run: seq<Move>)
    requires Enabled(s, c, CallTryLock(i))
    ensures IsRun(s, run)
    ensures var entered := TryEnter(s.mutexes[i], c); var core := s.cores[c];
            After(s, run) == if entered.None? then s
                             else Updated(s, c, i, entered.value, core.counts[i] + 1, core.mask + {i})
  {
    run := OneCall(s, c, CallTryLock(i));
    EnterStep(s, c, i);
    match TryEnter(s.mutexes[i], c)
    case None =>
      run := OneMore(s, run, c, Inside(s, c, AtEnter(i, false, ToCaller)), s);
    case Some(m) =>
      var entered := s.(mutexes := s.mutexes[i := m]);
      run := OneMore(s, run, c, Inside(s, c, AtEnter(i, false, ToCaller)), Inside(entered, c, AtSetBit(i, ToCaller)));
      run := CountingRun(s, run, entered, c, i);
      UpdatedInTwo(s, c, i, m);
  }

  lemma UpdatedInTwo(s: State, c: nat, i: nat, m: Mutex)
    requires Shaped(s) && c < CORES && i < MAX_MUTEXES
    ensures var core := s.cores[c];
            Counted(s.(mutexes := s.mutexes[i := m]), c, i) == Updated(s, c, i, m, core.counts[i] + 1, core.mask + {i})
  {
  }

  lemma EnterStep(s: State, c: nat, i: nat)
    requires Shaped(s) && c < CORES && i < MAX_MUTEXES
    ensures var s1 := Inside(s, c, AtEnter(i, false, ToCaller));
            && Enabled(s1, c, Advance)
            && Step(s1, c, Advance) ==
               match TryEnter(s.mutexes[i], c)
               case None => s
               case Some(m) => Inside(s.(mutexes := s.mutexes[i := m]), c, AtSetBit(i, ToCaller))
  {
    OneInstruction(s, c, AtEnter(i, false, ToCaller));
    assert s.mutexes[i := s.mutexes[i]] == s.mutexes && s.cores[c := s.cores[c]] == s.cores;
  }

  /** The books of core c after it has taken slot i. */
  function Counted(s: State, c: nat, i: nat): State
    requires c < |s.cores| && i < |s.cores[c].counts|
  {
    var core := s.cores[c];
    SetCore(s, c, core.(counts := core.counts[i := core.counts[i] + 1], mask := core.mask + {i}))
  }

  function Marked(s: State, c: nat, i: nat): State
    requires c < |s.cores|
  {
    SetCore(s, c, s.cores[c].(mask := s.cores[c].mask + {i}))
  }

  lemma CountingRun(s0: State, run: seq<Move>, s: State, c: nat, i: nat) returns (run': seq<Move>)
    requires Shaped(s) && c < CORES && i < MAX_MUTEXES
    requires IsRun(s0, run) && After(s0, run) == Inside(s, c, AtSetBit(i, ToCaller))
    ensures IsRun(s0, run') && After(s0, run') == Counted(s, c, i)
  {
    MarkStep(s, c, i);
    var marked := Inside(Marked(s, c, i), c, AtIncrement(i, ToCaller));
    run' := OneMore(s0, run, c, Inside(s, c, AtSetBit(i, ToCaller)), marked);
    MarkedThenCounted(s, c, i);
    run' := OneMore(s0, run', c, marked, Counted(s, c, i));
  }

  lemma MarkStep(s: State, c: nat, i: nat)
    requires Shaped(s) && c < CORES && i < MAX_MUTEXES
    ensures Shaped(Marked(s, c, i)) && Enabled(Inside(s, c, AtSetBit(i, ToCaller)), c, Advance)
    ensures Step(Inside(s, c, AtSetBit(i, ToCaller)), c, Advance) ==
            Inside(Marked(s, c, i), c, AtIncrement(i, ToCaller))
  {
    assert s.mutexes[i := s.mutexes[i]] == s.mutexes;
    OneInstruction(s, c, AtSetBit(i, ToCaller));
  }

  lemma MarkedThenCounted(s: State, c: nat, i: nat)
    requires Shaped(s) && c < CORES && i < MAX_MUTEXES && Shaped(Marked(s, c, i))
    ensures var marked := Inside(Marked(s, c, i), c, AtIncrement(i, ToCaller));
            Enabled(marked, c, Advance) && Step(marked, c, Advance) == Counted(s, c, i)
  {
    CountStep(Marked(s, c, i), c, i);
  }

  lemma CountStep(s: State, c: nat, i: nat)
    requires Shaped(s) && c < CORES && i < MAX_MUTEXES
    ensures Enabled(Inside(s, c, AtIncrement(i, ToCaller)), c, Advance)
    ensures var core := s.cores[c];
            Step(Inside(s, c, AtIncrement(i, ToCaller)), c, Advance) ==
              SetCore(s, c, core.(counts := core.counts[i := core.counts[i] + 1]))
  {
    assert s.mutexes[i := s.mutexes[i]] == s.mutexes;
    OneInstruction(s, c, AtIncrement(i, ToCaller));
  }

  /** What unlock leaves behind: the bit goes when the count reaches zero. */
  function Unlocked(s: State, c: nat, i: nat): State
    requires c < |s.cores| && i < |s.mutexes| && i < |s.cores[c].counts|
  {
    var core := s.cores[c];
    var n := core.counts[i];
    Updated(s, c, i, ExitMutex(s.mutexes[i]), if n > 0 then n - 1 else 0, if n == 1 then core.mask - {i} else core.mask)
  }

  lemma UnlockExit(s: State, c: nat, i: nat)
    requires Shaped(s) && c < CORES && i < MAX_MUTEXES
    ensures Enabled(Inside(s, c, AtExit(i, ToCaller)), c, Advance)
    ensures var exited := s.(mutexes := s.mutexes[i := ExitMutex(s.mutexes[i])]);
            && Shaped(exited)
            && Step(Inside(s, c, AtExit(i, ToCaller)), c, Advance) == Inside(exited, c, AtDecrement(i, ToCaller))
  {
    OneInstruction(s, c, AtExit(i, ToCaller));
  }

  function Lowered(s: State, c: nat, i: nat): State
    requires c < |s.cores| && i < |s.cores[c].counts| && s.cores[c].counts[i] > 0
  {
    SetCore(s, c, s.cores[c].(counts := s.cores[c].counts[i := s.cores[c].counts[i] - 1]))
  }

  lemma UnlockDecrement(s: State, c: nat, i: nat)
    requires Shaped(s) && c < CORES && i < MAX_MUTEXES && s.cores[c].counts[i] > 0
    ensures Shaped(Lowered(s, c, i)) && Enabled(Inside(s, c, AtDecrement(i, ToCaller)), c, Advance)
    ensures Step(Inside(s, c, AtDecrement(i, ToCaller)), c, Advance) ==
            Inside(Lowered(s, c, i), c, AtClearBit(i, ToCaller))
  {
    OneInstruction(s, c, AtDecrement(i, ToCaller));
    assert s.mutexes[i := s.mutexes[i]] == s.mutexes;
  }

  lemma UnlockClear(s: State, c: nat, i: nat)
    requires Shaped(s) && c < CORES && i < MAX_MUTEXES
    ensures var core := s.cores[c];
            && Enabled(Inside(s, c, AtClearBit(i, ToCaller)), c, Advance)
            && Step(Inside(s, c, AtClearBit(i, ToCaller)), c, Advance) ==
               SetCore(s, c, if core.counts[i] == 0 then core.(mask := core.mask - {i}) else core)
  {
    OneInstruction(s, c, AtClearBit(i, ToCaller));
    assert s.mutexes[i := s.mutexes[i]] == s.mutexes;
  }

  lemma UnlockUncounted(s: State, c: nat, i: nat)
    requires Shaped(s) && c < CORES && i < MAX_MUTEXES && s.cores[c].counts[i] == 0
    ensures Enabled(Inside(s, c, AtDecrement(i, ToCaller)), c, Advance)
    ensures Step(Inside(s, c, AtDecrement(i, ToCaller)), c, Advance) == s
  {
    OneInstruction(s, c, AtDecrement(i, ToCaller));
    assert s.mutexes[i := s.mutexes[i]] == s.mutexes;
    assert s.cores[c := s.cores[c]] == s.cores;
  }

  lemma UnlockRun(s: State, c: nat, i: nat) returns (run: seq<Move>)
    requires Enabled(s, c, CallUnlock(i))
    ensures IsRun(s, run) && After(s, run) == Unlocked(s, c, i)
  {
    var exited := s.(mutexes := s.mutexes[i := ExitMutex(s.mutexes[i])]);
    run := OneCall(s, c, CallUnlock(i));
    UnlockExit(s, c, i);
    run := OneMore(s, run, c, Inside(s, c, AtExit(i, ToCaller)), Inside(exited, c, AtDecrement(i, ToCaller)));
    run := BooksRun(s, run, exited, c, i);
    UnlockedInTwo(s, c, i);
  }

  /** unlock's update of the books. */
  function Uncounted(s: State, c: nat, i: nat): State
    requires c < |s.cores| && i < |s.cores[c].counts|
  {
    var core := s.cores[c];
    var n := core.counts[i];
    SetCore(s, c, core.(counts := core.counts[i := if n > 0 then n - 1 else 0],
                        mask := if n == 1 then core.mask - {i} else core.mask))
  }

  lemma UnlockedInTwo(s: State, c: nat, i: nat)
    requires Shaped(s) && c < CORES && i < MAX_MUTEXES
    ensures Unlocked(s, c, i) == Uncounted(s.(mutexes := s.mutexes[i := ExitMutex(s.mutexes[i])]), c, i)
  {
  }

  lemma BooksRun(s0: State, run: seq<Move>, s: State, c: nat, i: nat) returns (run': seq<Move>)
    requires Shaped(s) && c < CORES && i < MAX_MUTEXES
    requires IsRun(s0, run) && After(s0, run) == Inside(s, c, AtDecrement(i, ToCaller))
    ensures IsRun(s0, run') && After(s0, run') == Uncounted(s, c, i)
  {
    if s.cores[c].counts[i] == 0 {
      UnlockUncounted(s, c, i);
      NothingToUncount(s, c, i);
      run' := OneMore(s0, run, c, Inside(s, c, AtDecrement(i, ToCaller)), s);
    } else {
      UnlockDecrement(s, c, i);
      var lowered := Inside(Lowered(s, c, i), c, AtClearBit(i, ToCaller));
      run' := OneMore(s0, run, c, Inside(s, c, AtDecrement(i, ToCaller)), lowered);
      LoweredThenCleared(s, c, i);
      run' := OneMore(s0, run', c, lowered, Uncounted(s, c, i));
    }
  }

  lemma NothingToUncount(s: State, c: nat, i: nat)
    requires c < |s.cores| && i < |s.cores[c].counts| && s.cores[c].counts[i] == 0
    ensures Uncounted(s, c, i) == s
  {
    assert s.cores[c].counts[i := 0] == s.cores[c].counts;
    assert s.cores[c := s.cores[c]] == s.cores;
  }

  lemma LoweredThenCleared(s: State, c: nat, i: nat)
    requires Shaped(s) && c < CORES && i < MAX_MUTEXES && s.cores[c].counts[i] > 0 && Shaped(Lowered(s, c, i))
    ensures var lowered := Inside(Lowered(s, c, i), c, AtClearBit(i, ToCaller));
            Enabled(lowered, c, Advance) && Step(lowered, c, Advance) == Uncounted(s, c, i)
  {
    UnlockClear(Lowered(s, c, i), c, i);
  }

  /** One turn of the inner clean-up loop. */
  lemma CleanTurn(s: State, i: nat)
    requires Shaped(s) && i < MAX_MUTEXES && s.cores[1].counts[i] > 0
    ensures Enabled(Inside(s, 1, AtClean(i)), 1, Advance)
    ensures var s1 := Step(Inside(s, 1, AtClean(i)), 1, Advance);
            && Enabled(s1, 1, Advance) && Shaped(Turned(s, i))
            && Step(s1, 1, Advance) == Inside(Turned(s, i), 1, AtClean(i))
  {
    var exited := s.(mutexes := s.mutexes[i := ExitMutex(s.mutexes[i])]);
    OneInstruction(s, 1, AtClean(i));
    OneInstruction(exited, 1, AtCleanDecrement(i));
    assert exited.mutexes[i := exited.mutexes[i]] == exited.mutexes;
  }

  lemma CleanNext(s: State, i: nat)
    requires Shaped(s) && i < MAX_MUTEXES && s.cores[1].counts[i] == 0
    ensures Enabled(Inside(s, 1, AtClean(i)), 1, Advance)
    ensures Step(Inside(s, 1, AtClean(i)), 1, Advance) == Inside(s, 1, AtClean(i + 1))
  {
    OneInstruction(s, 1, AtClean(i));
    assert s.mutexes[i := s.mutexes[i]] == s.mutexes;
  }

  class Mutexes {
    const mutexes: array<Mutex>
    const heldCounts: seq<array<nat>>
    const heldMutexes: array<set<nat>>
    /** What these routines do not touch: the interrupt state of each core and the routines that called them. */
    ghost const background: seq<Core>

    ghost predicate Valid()
      reads this
    {
      && mutexes.Length == MAX_MUTEXES && heldMutexes.Length == CORES && |heldCounts| == CORES && |background| == CORES
      && heldCounts[0] != heldCounts[1]
      && heldCounts[0].Length == heldCounts[1].Length == MAX_MUTEXES
    }

    ghost function CoreView(c: nat): Core
      requires Valid() && c < CORES
      reads this, heldMutexes, heldCounts
    {
      background[c].(counts := heldCounts[c][..], mask := heldMutexes[c])
    }

    ghost function View(): State
      requires Valid()
      reads this, mutexes, heldMutexes, heldCounts
    {
      State(mutexes[..], [CoreView(0), CoreView(1)])
    }

    /** pthread_mutex_trylock */
    method TryLock(c: nat, i: nat) returns (ok: bool, ghost run: seq<Move>)
      requires Valid() && Enabled(View(), c, CallTryLock(i))
      modifies mutexes, heldMutexes, heldCounts[c]
      ensures IsRun(old(View()), run) && View() == After(old(View()), run)
      ensures ok <==> old(mutexes[i]).Free? || old(mutexes[i]).core == c
      ensures ok ==> Depth(mutexes[i], c) == Depth(old(mutexes[i]), c) + 1
      ensures ok ==> heldCounts[c][i] == old(heldCounts[c][i]) + 1 && i in heldMutexes[c]
      ensures !ok ==> View() == old(View())
    {
      run := TryLockRun(View(), c, i);
      var entered := TryEnter(mutexes[i], c);
      ok := entered.Some?;
      if ok {
        mutexes[i] := entered.value;
        heldMutexes[c] := heldMutexes[c] + {i};
        heldCounts[c][i] := heldCounts[c][i] + 1;
      }
    }

    /** pthread_mutex_unlock by a caller that owns the mutex. */
    method Unlock(c: nat, i: nat) returns (ghost run: seq<Move>)
      requires Valid() && Enabled(View(), c, CallUnlock(i))
      modifies mutexes, heldMutexes, heldCounts[c]
      ensures IsRun(old(View()), run) && View() == After(old(View()), run)
      ensures Depth(mutexes[i], c) == Depth(old(mutexes[i]), c) - 1
      ensures heldCounts[c][i] > 0 <==> old(heldCounts[c][i]) > 1
    {
      ghost var s := View();
      run := UnlockRun(s, c, i);
      mutexes[i] := ExitMutex(mutexes[i]);
      if heldCounts[c][i] > 0 {
        heldCounts[c][i] := heldCounts[c][i] - 1;
        if heldCounts[c][i] == 0 {
          heldMutexes[c] := heldMutexes[c] - {i};
        }
      } else {
        assert s.cores[c].counts[i := 0] == s.cores[c].counts;
      }
      assert View() == Unlocked(s, c, i);
    }

    /** The clean-up of core1_wrapper, from any state of the invariant: afterwards core 1 owns nothing and its books are
        empty; core 0's books and what core 0 owns are untouched. */
    method CleanUpCore1() returns (ghost run: seq<Move>)
      requires Valid() && Inv(View()) && Enabled(View(), 1, CallCleanup)
      modifies mutexes, heldMutexes, heldCounts[1]
      ensures IsRun(old(View()), run) && View() == After(old(View()), run)
      ensures Released(old(View()), View())
    {
      ghost var s0 := View();
      CleanUpStarts(s0);
      run := OneCall(s0, 1, CallCleanup);
      for i := 0 to MAX_MUTEXES
        modifies mutexes, heldCounts[1]
        invariant IsRun(s0, run) && After(s0, run) == Inside(View(), 1, AtClean(i)) && CleanedSoFar(s0, View(), i)
      {
        run := ReleaseSlot(s0, run, i);
        run := NextSlot(s0, run, View(), i);
      }
      run := Leave(s0, run, View());
      AllSlotsReleased(s0, View());
      ClearMask();
    }

    /** The inner loop: core 1 exits slot i as often as it is counted. */
    method ReleaseSlot(ghost s0: State, ghost run: seq<Move>, i: nat) returns (ghost run': seq<Move>)
      requires Valid() && i < MAX_MUTEXES
      requires IsRun(s0, run) && After(s0, run) == Inside(View(), 1, AtClean(i)) && CleanedSoFar(s0, View(), i)
      modifies mutexes, heldCounts[1]
      ensures IsRun(s0, run') && After(s0, run') == Inside(View(), 1, AtClean(i)) && CleanedSoFar(s0, View(), i)
      ensures heldCounts[1][i] == 0
    {
      run' := run;
      while heldCounts[1][i] > 0
        invariant IsRun(s0, run') && After(s0, run') == Inside(View(), 1, AtClean(i)) && CleanedSoFar(s0, View(), i)
        decreases heldCounts[1][i]
      {
        run' := Turn(s0, run', View(), i);
        ReleaseOnce(i);
      }
    }

    method ReleaseOnce(i: nat)
      requires Valid() && i < MAX_MUTEXES && heldCounts[1][i] > 0
      modifies mutexes, heldCounts[1]
      ensures View() == Turned(old(View()), i) && heldCounts[1][i] == old(heldCounts[1][i]) - 1
    {
      mutexes[i] := ExitMutex(mutexes[i]);
      heldCounts[1][i] := heldCounts[1][i] - 1;
    }

    method ClearMask()
      requires Valid()
      modifies heldMutexes
      ensures View() == SetCore(old(View()), 1, old(View()).cores[1].(mask := {}))
    {
      heldMutexes[1] := {};
    }
  }

  /** Core 1's counts are its depths, and zero below i; core 0's books and depths are those of s0. */
  ghost predicate CleanedSoFar(s0: State, s: State, i: nat)
  {
    && Shaped(s0) && Shaped(s) && i <= MAX_MUTEXES && s.cores[0] == s0.cores[0]
    && s.cores[1] == s0.cores[1].(counts := s.cores[1].counts)
    && (forall j :: 0 <= j < MAX_MUTEXES ==> s.cores[1].counts[j] == Depth(s.mutexes[j], 1))
    && (forall j :: 0 <= j < i ==> s.cores[1].counts[j] == 0)
    && (forall j :: 0 <= j < MAX_MUTEXES ==> Depth(s.mutexes[j], 0) == Depth(s0.mutexes[j], 0))
  }

  lemma CleanUpStarts(s: State)
    requires Inv(s) && Enabled(s, 1, CallCleanup)
    ensures CleanedSoFar(s, s, 0)
  {
    forall j | 0 <= j < MAX_MUTEXES ensures s.cores[1].counts[j] == Depth(s.mutexes[j], 1) {
      RestingBooks(s, 1, j);
    }
  }

  /** Core 1 owns nothing and its books are empty; core 0's books and all it owns are as in s0. */
  ghost predicate Released(s0: State, s: State)
  {
    && Shaped(s0) && Shaped(s) && s.cores[0] == s0.cores[0]
    && s.cores[1] == s0.cores[1].(counts := s.cores[1].counts, mask := {})
    && (forall i :: 0 <= i < MAX_MUTEXES ==> s.cores[1].counts[i] == 0 == Depth(s.mutexes[i], 1))
    && (forall i :: 0 <= i < MAX_MUTEXES ==> Depth(s.mutexes[i], 0) == Depth(s0.mutexes[i], 0))
  }

  lemma AllSlotsReleased(s0: State, s: State)
    requires CleanedSoFar(s0, s, MAX_MUTEXES)
    ensures Released(s0, SetCore(s, 1, s.cores[1].(mask := {})))
  {
  }

  function Turned(s: State, i: nat): State
    requires |s.cores| == CORES && i < |s.mutexes| && i < |s.cores[1].counts| && s.cores[1].counts[i] > 0
  {
    Updated(s, 1, i, ExitMutex(s.mutexes[i]), s.cores[1].counts[i] - 1, s.cores[1].mask)
  }

  /** The exit is by the owner: that is what keeps core 0's mutexes out of it. */
  lemma TurnKeepsBooks(s0: State, s: State, i: nat)
    requires CleanedSoFar(s0, s, i) && i < MAX_MUTEXES && s.cores[1].counts[i] > 0
    ensures CleanedSoFar(s0, Turned(s, i), i)
  {
    assert Depth(s.mutexes[i], 1) > 0;
    OtherDepthUnchanged(s.mutexes[i], 1, 0);
  }

  lemma Turn(s0: State, run: seq<Move>, s: State, i: nat) returns (run': seq<Move>)
    requires IsRun(s0, run) && CleanedSoFar(s0, s, i) && i < MAX_MUTEXES && s.cores[1].counts[i] > 0
    requires After(s0, run) == Inside(s, 1, AtClean(i))
    ensures IsRun(s0, run') && CleanedSoFar(s0, Turned(s, i), i)
    ensures After(s0, run') == Inside(Turned(s, i), 1, AtClean(i))
  {
    CleanTurn(s, i);
    TurnKeepsBooks(s0, s, i);
    var s1 := Step(Inside(s, 1, AtClean(i)), 1, Advance);
    run' := OneMore(s0, run, 1, Inside(s, 1, AtClean(i)), s1);
    run' := OneMore(s0, run', 1, s1, Inside(Turned(s, i), 1, AtClean(i)));
  }

  lemma NextSlot(s0: State, run: seq<Move>, s: State, i: nat) returns (run': seq<Move>)
    requires IsRun(s0, run) && CleanedSoFar(s0, s, i) && i < MAX_MUTEXES && s.cores[1].counts[i] == 0
    requires After(s0, run) == Inside(s, 1, AtClean(i))
    ensures IsRun(s0, run') && After(s0, run') == Inside(s, 1, AtClean(i + 1)) && CleanedSoFar(s0, s, i + 1)
  {
    CleanNext(s, i);
    run' := OneMore(s0, run, 1, Inside(s, 1, AtClean(i)), Inside(s, 1, AtClean(i + 1)));
  }

  lemma Leave(s0: State, run: seq<Move>, s: State) returns (run': seq<Move>)
    requires IsRun(s0, run) && Shaped(s)
    requires After(s0, run) == Inside(s, 1, AtClean(MAX_MUTEXES))
    ensures IsRun(s0, run') && After(s0, run') == SetCore(s, 1, s.cores[1].(mask := {}))
  {
    run' := OneMore(s0, run, 1, Inside(s, 1, AtClean(MAX_MUTEXES)), SetCore(s, 1, s.cores[1].(mask := {})));
  }

  /** Between calls the books are exact, so a core whose counts are all zero owns nothing. */
  lemma RestingBooks(s: State, c: nat, i: nat)
    requires Inv(s) && c < CORES && i < MAX_MUTEXES && s.cores[c].stack.Code?
    ensures s.cores[c].counts[i] == Depth(s.mutexes[i], c)
    ensures i in s.cores[c].mask <==> Depth(s.mutexes[i], c) > 0
  {
    CoreIsOk(s, c);
  }
}
