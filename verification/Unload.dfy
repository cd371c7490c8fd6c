/**
  Unloading a rule library while events are being pushed through it.  Threads enter
  and leave a library slot by compare-and-swap on one packed counter; the loader
  clears the used bit, waits for the counter to read zero, and unmaps the code.  One
  label is one atomic operation, so a sequence of labels is an interleaving.
 */
module Unload {
  const WORD := 0x1_0000_0000  // the counter is a 32-bit unsigned int

  /** Where a thread stands in `push_stream`. */
  datatype ThreadPc =
    | Outside
    | Entering(current: int)  // inc() has loaded the counter
    | Inside
    | Leaving(current: int)   // dec() has loaded the counter

  /** Where the loader stands with the slot. */
  datatype LoaderPc =
    | Vacant    // nothing usable in the slot
    | Serving   // the used bit is set
    | Closing   // used bit cleared, waiting for the counter
    | Drained   // the wait has ended
    | Cleaned   // the library's timers have been removed
    | Mapped    // new code mapped and the slot's fields written

  datatype State = State(counter: int, threads: map<nat, ThreadPc>, loader: LoaderPc, mapped: bool)

  datatype Label =
    | LoadInc(t: nat) | CasInc(t: nat) | LoadDec(t: nat) | CasDec(t: nat)
    | ClearUsed | PassWait | RemoveTasks(ok: bool) | Unmap(ok: bool) | Map | SetUsed

  predicate Used(counter: int) { counter % 2 == 1 }

  function IncValue(current: int): int { ((current / 2 + 1) * 2) % WORD + 1 }
  function DecValue(current: int): int { ((current / 2 - 1) * 2) % WORD + current % 2 }

  predicate Enabled(s: State, l: Label)
  {
    match l
    case LoadInc(t) => t in s.threads && s.threads[t].Outside?
    case CasInc(t) => t in s.threads && s.threads[t].Entering?
    case LoadDec(t) => t in s.threads && s.threads[t].Inside?
    case CasDec(t) => t in s.threads && s.threads[t].Leaving?
    case ClearUsed => s.loader.Serving?
    case PassWait => s.loader.Closing? && s.counter == 0
    case RemoveTasks(_) => s.loader.Drained?
    case Unmap(_) => s.loader.Cleaned?
    case Map => s.loader.Vacant?
    case SetUsed => s.loader.Mapped?
  }

  function Apply(s: State, l: Label): State
    requires Enabled(s, l)
  {
    match l
    case LoadInc(t) => s.(threads := s.threads[t := Entering(s.counter)])
    case CasInc(t) =>
      var current := s.threads[t].current;
      if !Used(current) then s.(threads := s.threads[t := Outside])
      else if s.counter == current then
        s.(counter := IncValue(current), threads := s.threads[t := Inside])
      else s.(threads := s.threads[t := Entering(s.counter)])
    case LoadDec(t) => s.(threads := s.threads[t := Leaving(s.counter)])
    case CasDec(t) =>
      var current := s.threads[t].current;
      if s.counter == current then
        s.(counter := DecValue(current), threads := s.threads[t := Outside])
      else s.(threads := s.threads[t := Leaving(s.counter)])
    case ClearUsed => s.(counter := s.counter - s.counter % 2, loader := Closing)
    case PassWait => s.(loader := Drained)
    case RemoveTasks(ok) => s.(loader := if ok then Cleaned else Vacant)
    case Unmap(ok) => if ok then s.(loader := Vacant, mapped := false) else s.(loader := Vacant)
    case Map => s.(loader := Mapped, mapped := true)
    case SetUsed => s.(counter := s.counter - s.counter % 2 + 1, loader := Serving)
  }

  /** Threads between their successful `inc` and the end of their `dec`. */
  function InLibrary(s: State): set<nat>
  {
    set t | t in s.threads && (s.threads[t].Inside? || s.threads[t].Leaving?)
  }

  predicate Initial(s: State)
  {
    && s.counter == 0 && s.loader == Vacant && !s.mapped
    && |s.threads| < WORD / 2 - 1
    && forall t :: t in s.threads ==> s.threads[t] == Outside
  }

  /** The counter is twice the number of threads in the library, plus the used bit. */
  predicate Inv(s: State)
  {
    && s.counter == 2 * |InLibrary(s)| + (if s.loader.Serving? then 1 else 0)
    && (!s.loader.Serving? && !s.loader.Closing? ==> InLibrary(s) == {})
    && (s.loader in {Serving, Closing, Drained, Cleaned, Mapped} ==> s.mapped)
    && |s.threads| < WORD / 2 - 1
  }

  lemma FewThreads(s: State)
    ensures |InLibrary(s)| <= |s.threads|
  {
    SubsetCount(InLibrary(s), s.threads.Keys);
  }

  lemma SubsetCount(a: set<nat>, b: set<nat>)
    requires a <= b
    ensures |a| <= |b|
  {
    assert b == a + (b - a);
  }

  /** Moving one thread changes the threads in the library by that thread at most. */
  lemma MoveThread(s: State, t: nat, pc: ThreadPc)
    requires t in s.threads
    ensures var s' := s.(threads := s.threads[t := pc]);
      && |s'.threads| == |s.threads|
      && InLibrary(s') == if pc.Inside? || pc.Leaving? then InLibrary(s) + {t} else InLibrary(s) - {t}
  {
    assert s.threads[t := pc].Keys == s.threads.Keys;
  }

  lemma CounterArithmetic(n: nat, bit: int)
    requires n < WORD / 2 - 1 && 0 <= bit <= 1
    ensures IncValue(2 * n + 1) == 2 * (n + 1) + 1
    ensures n > 0 ==> DecValue(2 * n + bit) == 2 * (n - 1) + bit
  {
    assert (2 * n + 1) / 2 == n && (2 * n + bit) / 2 == n;
  }

  lemma EnterStep(s: State, t: nat)
    requires Inv(s) && Enabled(s, CasInc(t))
    ensures Inv(Apply(s, CasInc(t)))
  {
    hide IncValue;
    var current := s.threads[t].current;
    assert t !in InLibrary(s);
    if Used(current) && s.counter == current {
      FewThreads(s);
      assert s.loader.Serving?;
      CounterArithmetic(|InLibrary(s)|, 0);
      MoveThread(s, t, Inside);
      assert InLibrary(Apply(s, CasInc(t))) == InLibrary(s) + {t};
    } else {
      MoveThread(s, t, if Used(current) then Entering(s.counter) else Outside);
      assert InLibrary(s) - {t} == InLibrary(s);
    }
  }

  lemma LeaveStep(s: State, t: nat)
    requires Inv(s) && Enabled(s, CasDec(t))
    ensures Inv(Apply(s, CasDec(t)))
  {
    var n := |InLibrary(s)|;
    FewThreads(s);
    assert t in InLibrary(s);
    assert |InLibrary(s) - {t}| == n - 1;
    CounterArithmetic(n, if s.loader.Serving? then 1 else 0);
    MoveThread(s, t, Apply(s, CasDec(t)).threads[t]);
    assert InLibrary(s) + {t} == InLibrary(s);
    assert InLibrary(Apply(s, CasDec(t))) ==
      InLibrary(s.(threads := s.threads[t := Apply(s, CasDec(t)).threads[t]]));
  }

  /** Every atomic operation keeps the invariant. */
  lemma StepKeepsInv(s: State, l: Label)
    requires Inv(s) && Enabled(s, l)
    ensures Inv(Apply(s, l))
  {
    hide IncValue, DecValue;
    match l
    case CasInc(t) => EnterStep(s, t);
    case CasDec(t) => LeaveStep(s, t);
    case LoadInc(t) =>
      MoveThread(s, t, Entering(s.counter));
      assert InLibrary(s) - {t} == InLibrary(s);
    case LoadDec(t) =>
      MoveThread(s, t, Leaving(s.counter));
      assert InLibrary(s) + {t} == InLibrary(s);
    case _ =>
      assert InLibrary(Apply(s, l)) == InLibrary(s);
  }

  // ------------------------------------------------------------------------ runs

  /** Every label of the interleaving is enabled when its turn comes. */
  predicate Executable(s: State, run: seq<Label>)
    decreases |run|
  {
    run == [] || (Enabled(s, run[0]) && Executable(Apply(s, run[0]), run[1..]))
  }

  function After(s: State, run: seq<Label>): State
    requires Executable(s, run)
    decreases |run|
  {
    if run == [] then s else After(Apply(s, run[0]), run[1..])
  }

  /**
    Over all interleavings: the counter counts the threads in the library, and a thread
    in the library always has its code mapped.
   */
  lemma {:induction false} UnloadSafe(s: State, run: seq<Label>)
    requires Inv(s) && Executable(s, run)
    ensures Inv(After(s, run))
    ensures InLibrary(After(s, run)) != {} ==> After(s, run).mapped
    decreases |run|
  {
    if run != [] {
      StepKeepsInv(s, run[0]);
      UnloadSafe(Apply(s, run[0]), run[1..]);
    }
  }

  lemma InitialInv(s: State)
    requires Initial(s)
    ensures Inv(s)
  {
    assert InLibrary(s) == {};
  }

  /** Without the used bit nobody enters: the threads in the library only become fewer. */
  lemma NoEntryStep(s: State, l: Label)
    requires Inv(s) && Enabled(s, l) && !s.loader.Serving?
    ensures InLibrary(Apply(s, l)) <= InLibrary(s)
  {
    assert !Used(s.counter);
  }

  /**
    Once the wait has ended, no thread is in the library, and none enters until the
    loader sets the used bit again: the code can be unmapped and the slot rewritten.
   */
  lemma {:induction false} EmptyUntilReuse(s: State, run: seq<Label>)
    requires Inv(s) && !s.loader.Serving? && !s.loader.Closing?
    requires Executable(s, run) && SetUsed !in run
    ensures InLibrary(After(s, run)) == {} && !After(s, run).loader.Serving?
    decreases |run|
  {
    if run != [] {
      StepKeepsInv(s, run[0]);
      EmptyUntilReuse(Apply(s, run[0]), run[1..]);
    }
  }

  /**
    While the loader waits, the library drains: whatever the threads do, those inside
    are among those inside when the used bit was cleared.
   */
  lemma {:induction false} DrainsWhileClosing(s: State, run: seq<Label>)
    requires Inv(s) && !s.loader.Serving? && Executable(s, run) && SetUsed !in run
    ensures InLibrary(After(s, run)) <= InLibrary(s)
    decreases |run|
  {
    if run != [] {
      StepKeepsInv(s, run[0]);
      NoEntryStep(s, run[0]);
      DrainsWhileClosing(Apply(s, run[0]), run[1..]);
    }
  }

  /**
    The wait ends exactly when the last thread has left: in `Closing` the loader's read
    of zero is possible if and only if the library is empty.
   */
  lemma WaitEndsIffEmpty(s: State)
    requires Inv(s) && s.loader.Closing?
    ensures Enabled(s, PassWait) <==> InLibrary(s) == {}
  {
    if InLibrary(s) != {} {
      var t :| t in InLibrary(s);
      assert |InLibrary(s)| == |InLibrary(s) - {t}| + 1;
    }
  }

  // ---------------------------------------------------------------------- progress

  /** The steps of one thread, with no other step between them. */
  lemma TwoSteps(s: State, a: Label, b: Label)
    requires Enabled(s, a) && Enabled(Apply(s, a), b)
    ensures Executable(s, [a, b]) && After(s, [a, b]) == Apply(Apply(s, a), b)
  {
    var s1, s2 := Apply(s, a), Apply(Apply(s, a), b);
    assert [a, b][1..] == [b] && [b][1..] == [];
    assert Executable(s2, []) && After(s2, []) == s2;
    assert Executable(s1, [b]) && After(s1, [b]) == s2;
  }

  /** While the library serves, a thread that is not held up gets in, and the counter grows by
      two; nobody else moves. */
  lemma Enters(s: State, t: nat)
    requires Inv(s) && s.loader.Serving? && t in s.threads && s.threads[t] == Outside
    ensures var run := [LoadInc(t), CasInc(t)];
      && Executable(s, run) && After(s, run) == s.(counter := s.counter + 2, threads := s.threads[t := Inside])
      && InLibrary(After(s, run)) == InLibrary(s) + {t}
  {
    var s1 := Apply(s, LoadInc(t));
    TwoSteps(s, LoadInc(t), CasInc(t));
    FewThreads(s);
    CounterArithmetic(|InLibrary(s)|, 1);
    var s2 := Apply(s1, CasInc(t));
    assert s2.threads == s.threads[t := Inside];
    assert InLibrary(s2) == InLibrary(s) + {t};
  }

  /** A thread that is not held up gets out, whatever the loader does. */
  lemma Leaves(s: State, t: nat)
    requires Inv(s) && t in s.threads && s.threads[t] == Inside
    ensures var run := [LoadDec(t), CasDec(t)];
      && Executable(s, run) && After(s, run) == s.(counter := s.counter - 2, threads := s.threads[t := Outside])
      && InLibrary(After(s, run)) == InLibrary(s) - {t}
  {
    var s1 := Apply(s, LoadDec(t));
    TwoSteps(s, LoadDec(t), CasDec(t));
    FewThreads(s);
    assert t in InLibrary(s) && |InLibrary(s)| > 0;
    CounterArithmetic(|InLibrary(s)|, if s.loader.Serving? then 1 else 0);
    var s2 := Apply(s1, CasDec(t));
    assert s2.threads == s.threads[t := Outside];
    assert InLibrary(s2) == InLibrary(s) - {t};
  }

  /** A thread that is turned away has seen the used bit clear, and one that has seen the counter
      change tries again with what it has seen. */
  lemma TurnedAway(s: State, t: nat)
    requires Enabled(s, CasInc(t))
    ensures var pc, pc' := s.threads[t], Apply(s, CasInc(t)).threads[t];
      && (pc' == Outside <==> !Used(pc.current))
      && (Used(pc.current) && s.counter != pc.current ==> pc' == Entering(s.counter))
      && (pc' != Inside ==> Apply(s, CasInc(t)).counter == s.counter)
  {
  }

  lemma LeavesLater(s: State, t: nat)
    requires Enabled(s, CasDec(t)) && s.counter != s.threads[t].current
    ensures Apply(s, CasDec(t)) == s.(threads := s.threads[t := Leaving(s.counter)])
  {
  }

  /** Unloading takes a library that no thread is in out of memory and leaves the slot vacant; if
      its timers cannot be removed or the code cannot be unmapped, it stays mapped. */
  lemma Unloads(s: State, removed: bool, unmapped: bool)
    requires Inv(s) && s.loader.Serving? && InLibrary(s) == {}
    ensures var s2 := Apply(s, ClearUsed);
      && Enabled(s, ClearUsed) && Enabled(s2, PassWait)
      && var s3 := Apply(s2, PassWait);
      && Enabled(s3, RemoveTasks(removed))
      && var s4 := Apply(s3, RemoveTasks(removed));
      && (!removed ==> s4.loader == Vacant && s4.mapped)
      && (removed ==>
            && Enabled(s4, Unmap(unmapped))
            && Apply(s4, Unmap(unmapped)) == State(0, s.threads, Vacant, !unmapped))
  {
  }

  /** Loading maps the code and then lets threads in. */
  lemma Loads(s: State)
    requires Inv(s) && s.loader.Vacant?
    ensures Executable(s, [Map, SetUsed]) && After(s, [Map, SetUsed]) == State(1, s.threads, Serving, true)
  {
    TwoSteps(s, Map, SetUsed);
  }
}
