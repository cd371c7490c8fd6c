/**
  Removing the timers of a library from every scheduler loop.  The caller queues one
  request per loop; each loop drops its matching timers, decrements a shared counter,
  and the loop that brings it to zero fulfils the shared promise.  One label is one
  atomic operation of the caller or of a loop.
 */
module NamespaceRemoval {
  datatype Task = Task(id: nat, ns: string)

  /** Where one loop stands with the request. */
  datatype LoopPc =
    | Waiting  // the caller has not reached this loop
    | Full     // the loop's queue was full: the request was not queued
    | Queued
    | Dropped  // timers dropped, counter not yet decremented
    | Last     // decremented the counter to zero, promise not yet set
    | Done

  /** `promise` lists the values it was set to; more than one call is an error. */
  datatype State = State(
    ns: string, pcs: seq<LoopPc>, tasks: seq<set<Task>>, next: nat, counter: int, promise: seq<bool>)

  /** Besides the protocol, timers are added to a loop, and end there when they have run out or
      are removed one by one. */
  datatype Label =
    | Push(ok: bool) | Drop(i: nat) | Count(i: nat) | Fulfil(i: nat)
    | Add(i: nat, task: Task) | End(i: nat, task: Task)

  predicate Enabled(s: State, l: Label)
    requires |s.pcs| == |s.tasks|
  {
    match l
    case Push(_) => s.next < |s.pcs|
    case Drop(i) => i < |s.pcs| && s.pcs[i].Queued?
    case Count(i) => i < |s.pcs| && s.pcs[i].Dropped?
    case Fulfil(i) => i < |s.pcs| && s.pcs[i].Last?
    case Add(i, _) => i < |s.pcs|
    case End(i, task) => i < |s.pcs| && task in s.tasks[i]
  }

  /** The timers of a loop that a request for `ns` leaves in place. */
  function Others(ns: string, ts: set<Task>): set<Task>
  {
    set x | x in ts && x.ns != ns
  }

  function Apply(s: State, l: Label): State
    requires |s.pcs| == |s.tasks| && Enabled(s, l)
  {
    match l
    case Push(ok) =>
      if ok then s.(pcs := s.pcs[s.next := Queued], next := s.next + 1)
      else s.(pcs := s.pcs[s.next := Full], next := s.next + 1, promise := s.promise + [false])
    case Drop(i) => s.(pcs := s.pcs[i := Dropped], tasks := s.tasks[i := Others(s.ns, s.tasks[i])])
    case Count(i) =>
      s.(pcs := s.pcs[i := if s.counter == 1 then Last else Done], counter := s.counter - 1)
    case Fulfil(i) => s.(pcs := s.pcs[i := Done], promise := s.promise + [true])
    case Add(i, task) => s.(tasks := s.tasks[i := s.tasks[i] + {task}])
    case End(i, task) => s.(tasks := s.tasks[i := s.tasks[i] - {task}])
  }

  predicate Initial(s: State)
  {
    && |s.pcs| == |s.tasks| == s.counter && s.next == 0 && s.promise == [] && s.counter > 0
    && forall i :: 0 <= i < |s.pcs| ==> s.pcs[i] == Waiting
  }

  predicate Counted(pc: LoopPc) { pc.Last? || pc.Done? }

  function NumCounted(pcs: seq<LoopPc>): nat
  {
    if pcs == [] then 0 else NumCounted(pcs[1..]) + if Counted(pcs[0]) then 1 else 0
  }

  function NumFull(pcs: seq<LoopPc>): nat
  {
    if pcs == [] then 0 else NumFull(pcs[1..]) + if pcs[0].Full? then 1 else 0
  }

  lemma {:induction false} Update(pcs: seq<LoopPc>, i: nat, pc: LoopPc)
    requires i < |pcs|
    ensures var b := (p: LoopPc) => if Counted(p) then 1 else 0;
      NumCounted(pcs[i := pc]) == NumCounted(pcs) - b(pcs[i]) + b(pc)
    ensures var b := (p: LoopPc) => if p.Full? then 1 else 0;
      NumFull(pcs[i := pc]) == NumFull(pcs) - b(pcs[i]) + b(pc)
  {
    if i > 0 {
      assert pcs[i := pc][1..] == pcs[1..][i - 1 := pc];
      Update(pcs[1..], i - 1, pc);
    } else {
      assert pcs[i := pc][1..] == pcs[1..];
    }
  }

  lemma {:induction false} AllCounted(pcs: seq<LoopPc>)
    ensures NumCounted(pcs) + NumFull(pcs) <= |pcs|
    ensures NumCounted(pcs) == |pcs| <==> forall i :: 0 <= i < |pcs| ==> Counted(pcs[i])
    ensures NumFull(pcs) == 0 <==> forall i :: 0 <= i < |pcs| ==> !pcs[i].Full?
  {
    if pcs != [] {
      AllCounted(pcs[1..]);
      assert forall i :: 0 <= i < |pcs[1..]| ==> pcs[1..][i] == pcs[i + 1];
      assert forall i :: 1 <= i < |pcs| ==> pcs[i] == pcs[1..][i - 1];
    }
  }

  function NumTrue(bs: seq<bool>): nat
  {
    if bs == [] then 0 else NumTrue(bs[..|bs| - 1]) + if bs[|bs| - 1] then 1 else 0
  }

  lemma TrueAppended(bs: seq<bool>, b: bool)
    ensures NumTrue(bs + [b]) == NumTrue(bs) + if b then 1 else 0
  {
    assert (bs + [b])[..|bs|] == bs;
  }

  predicate SomeLast(pcs: seq<LoopPc>) { exists i :: 0 <= i < |pcs| && pcs[i].Last? }

  predicate Inv(s: State)
  {
    && |s.pcs| == |s.tasks| && |s.pcs| > 0 && s.next <= |s.pcs|
    && (forall i :: 0 <= i < |s.pcs| ==> (i >= s.next <==> s.pcs[i].Waiting?))
    && s.counter == |s.pcs| - NumCounted(s.pcs)
    // the promise is set once for every full queue, and once by the last loop
    && |s.promise| == NumFull(s.pcs) + NumTrue(s.promise)
    && NumTrue(s.promise) == (if s.counter == 0 && !SomeLast(s.pcs) then 1 else 0)
    && (SomeLast(s.pcs) ==> s.counter == 0)
    && (forall i, j :: 0 <= i < j < |s.pcs| ==> !(s.pcs[i].Last? && s.pcs[j].Last?))
  }

  lemma InitialInv(s: State)
    requires Initial(s)
    ensures Inv(s)
  {
    AllWaiting(s.pcs);
  }

  lemma {:induction false} AllWaiting(pcs: seq<LoopPc>)
    requires forall i :: 0 <= i < |pcs| ==> pcs[i] == Waiting
    ensures NumCounted(pcs) == 0 && NumFull(pcs) == 0
  {
    if pcs != [] {
      AllWaiting(pcs[1..]);
    }
  }

  lemma PushStep(s: State, ok: bool)
    requires Inv(s) && Enabled(s, Push(ok))
    ensures Inv(Apply(s, Push(ok)))
  {
    var pc := if ok then Queued else Full;
    Update(s.pcs, s.next, pc);
    AllCounted(s.pcs);
    assert s.pcs[s.next].Waiting?;
    assert s.counter > 0;
    TrueAppended(s.promise, false);
  }

  lemma CountStep(s: State, i: nat)
    requires Inv(s) && Enabled(s, Count(i))
    ensures Inv(Apply(s, Count(i)))
  {
    var s' := Apply(s, Count(i));
    Update(s.pcs, i, s'.pcs[i]);
    AllCounted(s.pcs);
    AllCounted(s'.pcs);
    assert s.counter > 0;
    assert !SomeLast(s.pcs);
    if s.counter == 1 {
      assert s'.pcs[i].Last?;
      assert SomeLast(s'.pcs);
    }
  }

  lemma FulfilStep(s: State, i: nat)
    requires Inv(s) && Enabled(s, Fulfil(i))
    ensures Inv(Apply(s, Fulfil(i)))
  {
    var s' := Apply(s, Fulfil(i));
    Update(s.pcs, i, Done);
    TrueAppended(s.promise, true);
    assert s.pcs[i].Last?;
    assert forall j :: 0 <= j < |s.pcs| && s.pcs[j].Last? ==> j == i;
    assert !SomeLast(s'.pcs);
  }

  lemma StepKeepsInv(s: State, l: Label)
    requires Inv(s) && Enabled(s, l)
    ensures Inv(Apply(s, l))
  {
    match l
    case Push(ok) => PushStep(s, ok);
    case Count(i) => CountStep(s, i);
    case Fulfil(i) => FulfilStep(s, i);
    case Drop(i) =>
      Update(s.pcs, i, Dropped);
      assert forall j :: 0 <= j < |s.pcs| ==> (Apply(s, l).pcs[j].Last? <==> s.pcs[j].Last?);
    case Add(_, _) =>
    case End(_, _) =>
  }

  // ------------------------------------------------------------------------ runs

  predicate Executable(s: State, run: seq<Label>)
    requires |s.pcs| == |s.tasks|
    decreases |run|
  {
    run == [] || (Enabled(s, run[0]) && Executable(Apply(s, run[0]), run[1..]))
  }

  function After(s: State, run: seq<Label>): (r: State)
    requires |s.pcs| == |s.tasks| && Executable(s, run)
    ensures |r.pcs| == |r.tasks| == |s.pcs| && r.ns == s.ns
    decreases |run|
  {
    if run == [] then s else After(Apply(s, run[0]), run[1..])
  }

  /** A loop that has dropped its timers, with no new ones of that library since. */
  predicate Clean(s: State)
    requires |s.pcs| == |s.tasks|
  {
    forall i :: 0 <= i < |s.pcs| && (s.pcs[i].Dropped? || Counted(s.pcs[i])) ==>
      forall x :: x in s.tasks[i] ==> x.ns != s.ns
  }

  lemma {:induction false} RunKeepsInv(s: State, run: seq<Label>)
    requires Inv(s) && Executable(s, run)
    ensures Inv(After(s, run))
    decreases |run|
  {
    if run != [] {
      StepKeepsInv(s, run[0]);
      RunKeepsInv(Apply(s, run[0]), run[1..]);
    }
  }

  /**
    Over all interleavings: the promise becomes true only after every loop has dropped
    its timers of the namespace; then no queue was full and it was set exactly once.
   */
  lemma TrueMeansAllDropped(s: State, run: seq<Label>)
    requires Initial(s) && Executable(s, run)
    requires true in After(s, run).promise
    ensures forall i :: 0 <= i < |s.pcs| ==> After(s, run).pcs[i].Done?
    ensures After(s, run).promise == [true]
  {
    InitialInv(s);
    RunKeepsInv(s, run);
    var e := After(s, run);
    HasTrue(e.promise);
    AllCounted(e.pcs);
    assert e.promise[0] in e.promise;
    assert forall i :: 0 <= i < |e.pcs| ==> !e.pcs[i].Last?;
    OnlyTrue(e.promise);
  }

  lemma {:induction false} HasTrue(bs: seq<bool>)
    requires true in bs
    ensures NumTrue(bs) >= 1
  {
    var n := |bs| - 1;
    assert bs == bs[..n] + [bs[n]];
    if !bs[n] {
      HasTrue(bs[..n]);
    }
  }

  lemma OnlyTrue(bs: seq<bool>)
    requires |bs| == 1 && NumTrue(bs) == 1
    ensures bs == [true]
  {
    assert bs[..0] == [];
  }

  /** Conversely, once every queue took the request and every loop is done, it has become true. */
  lemma AllDoneMeansTrue(s: State, run: seq<Label>)
    requires Initial(s) && Executable(s, run)
    requires forall i :: 0 <= i < |s.pcs| ==> After(s, run).pcs[i].Done?
    ensures After(s, run).promise == [true]
  {
    InitialInv(s);
    RunKeepsInv(s, run);
    var e := After(s, run);
    AllCounted(e.pcs);
    OnlyTrue(e.promise);
  }

  /**
    Setting a promise twice is an error.  It happens exactly when two or more of the
    loops' queues were full.
   */
  lemma SetTwiceIffTwoFull(s: State, run: seq<Label>)
    requires Initial(s) && Executable(s, run)
    ensures |After(s, run).promise| <= 1 <==> NumFull(After(s, run).pcs) <= 1
  {
    InitialInv(s);
    RunKeepsInv(s, run);
    AllCounted(After(s, run).pcs);
  }

  /** With two loops whose queues are both full, the caller sets the promise twice. */
  lemma TwoFullQueues(s: State)
    requires Initial(s) && |s.pcs| == 2
    ensures var run := [Push(false), Push(false)]; Executable(s, run) && After(s, run).promise == [false, false]
  {
    var run := [Push(false), Push(false)];
    assert run[1..] == [Push(false)] && run[1..][1..] == [];
    var s1 := Apply(s, Push(false));
    assert Executable(Apply(s1, Push(false)), []);
    assert Executable(s1, run[1..]);
    assert After(s1, run[1..]) == Apply(s1, Push(false));
  }

  /** The timers of a loop if there were no request: those it starts with, as the run adds and
      ends them. */
  function Undisturbed(ts: set<Task>, run: seq<Label>, i: nat): set<Task>
    decreases |run|
  {
    if run == [] then ts
    else
      var l := run[0];
      Undisturbed(if l.Add? && l.i == i then ts + {l.task} else if l.End? && l.i == i then ts - {l.task} else ts,
                  run[1..], i)
  }

  /**
    A loop gives up exactly its timers of the namespace: whatever the interleaving, the
    other timers are those it would have without the request.
   */
  lemma {:induction false} OthersKept(s: State, run: seq<Label>, i: nat)
    requires |s.pcs| == |s.tasks| && Executable(s, run) && i < |s.tasks|
    ensures forall x: Task :: x.ns != s.ns ==> (x in After(s, run).tasks[i] <==> x in Undisturbed(s.tasks[i], run, i))
    ensures Others(s.ns, After(s, run).tasks[i]) == Others(s.ns, Undisturbed(s.tasks[i], run, i))
    decreases |run|
  {
    if run != [] {
      var l := run[0];
      var s' := Apply(s, l);
      OthersKept(s', run[1..], i);
      if l.Drop? && l.i == i {
        SameOthers(s.ns, s'.tasks[i], s.tasks[i], run[1..], i);
      }
    }
  }

  /** Timers are added and end one at a time, in one loop, also while a request is at work. */
  lemma TimersChange(s: State, l: Label, j: nat, x: Task)
    requires |s.pcs| == |s.tasks| && Enabled(s, l) && (l.Add? || l.End?) && j < |s.tasks|
    ensures l.Add? ==> (x in Apply(s, l).tasks[j] <==> x in s.tasks[j] || (j == l.i && x == l.task))
    ensures l.End? ==> (x in Apply(s, l).tasks[j] <==> x in s.tasks[j] && !(j == l.i && x == l.task))
    ensures Apply(s, l).(tasks := s.tasks) == s
  {
  }

  /** Dropping takes out exactly the timers of the namespace, and touches no other loop. */
  lemma DropsExactly(s: State, i: nat, j: nat, x: Task)
    requires |s.pcs| == |s.tasks| && Enabled(s, Drop(i)) && j < |s.tasks|
    ensures x in Apply(s, Drop(i)).tasks[j] <==> x in s.tasks[j] && !(j == i && x.ns == s.ns)
  {
  }

  lemma {:induction false} SameOthers(ns: string, ts: set<Task>, us: set<Task>, run: seq<Label>, i: nat)
    requires forall x: Task :: x.ns != ns ==> (x in ts <==> x in us)
    ensures forall x: Task :: x.ns != ns ==> (x in Undisturbed(ts, run, i) <==> x in Undisturbed(us, run, i))
    decreases |run|
  {
    if run != [] {
      var l := run[0];
      if l.Add? && l.i == i {
        SameOthers(ns, ts + {l.task}, us + {l.task}, run[1..], i);
      } else if l.End? && l.i == i {
        SameOthers(ns, ts - {l.task}, us - {l.task}, run[1..], i);
      } else {
        SameOthers(ns, ts, us, run[1..], i);
      }
    }
  }

  /** If nothing of the namespace is added meanwhile, a true promise means none of it is left. */
  lemma TrueMeansNoneLeft(s: State, run: seq<Label>)
    requires Initial(s) && Executable(s, run) && true in After(s, run).promise
    requires forall l :: l in run && l.Add? ==> l.task.ns != s.ns
    ensures forall i, x :: 0 <= i < |s.pcs| && x in After(s, run).tasks[i] ==> x.ns != s.ns
  {
    TrueMeansAllDropped(s, run);
    StaysClean(s, run);
  }

  lemma {:induction false} StaysClean(s: State, run: seq<Label>)
    requires |s.pcs| == |s.tasks| && Executable(s, run) && Clean(s)
    requires forall l :: l in run && l.Add? ==> l.task.ns != s.ns
    ensures Clean(After(s, run))
    decreases |run|
  {
    if run != [] {
      assert run[0] in run;
      StaysClean(Apply(s, run[0]), run[1..]);
    }
  }

  /** A loop that has the request and is not held up gives up its timers and counts down; the one
      that brings the counter to zero then makes the promise true. */
  lemma LoopAnswers(s: State, i: nat)
    requires Inv(s) && i < |s.pcs| && s.pcs[i].Queued?
    ensures Enabled(s, Drop(i))
    ensures var d := Apply(s, Drop(i));
      && |d.pcs| == |d.tasks| && Enabled(d, Count(i))
      && var c := Apply(d, Count(i));
      && c.counter == s.counter - 1 && c.promise == s.promise && c.tasks[i] == Others(s.ns, s.tasks[i])
      && (s.counter > 1 ==> c.pcs[i] == Done)
      && (s.counter == 1 ==> Enabled(c, Fulfil(i)) && Apply(c, Fulfil(i)).promise == s.promise + [true])
  {
  }

  /** The caller reaches each loop in turn: with room in its queue the loop has the request, and
      otherwise the promise is set to false. */
  lemma CallerAsks(s: State, ok: bool)
    requires Inv(s) && s.next < |s.pcs|
    ensures Enabled(s, Push(ok))
    ensures var p := Apply(s, Push(ok));
      && p.next == s.next + 1 && p.tasks == s.tasks && p.counter == s.counter
      && (ok ==> p.pcs[s.next] == Queued && p.promise == s.promise)
      && (!ok ==> p.pcs[s.next] == Full && p.promise == s.promise + [false])
      && forall j :: 0 <= j < |s.pcs| && j != s.next ==> p.pcs[j] == s.pcs[j]
  {
  }
}
