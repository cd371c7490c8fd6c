/**
  The timer queue of an event loop: tasks wait in a priority queue, the callbacks that run may
  add and remove tasks, themselves included, and the clock is read anew at every turn.
 */
module TimerQueue {
  import opened Options
  import opened Arithmetic

  /** A queued task; a zero interval means that it is not put back. */
  datatype Task = Task(ns: string, interval: nat, due: int)

  // ------------------------------------------------------------- the priority queue

  /** The tasks by their number, and the number of the one on top. */
  datatype Queue = Queue(tasks: map<nat, Task>, top: nat)

  /** The top is one of the tasks that are due first. */
  predicate Ordered(q: Queue)
  {
    q.tasks != map[] ==> q.top in q.tasks && forall id :: id in q.tasks ==> q.tasks[q.top].due <= q.tasks[id].due
  }

  /** A new task takes the top only when it is due strictly earlier. */
  function Push(q: Queue, id: nat, t: Task): (r: Queue)
    requires Ordered(q) && id !in q.tasks
    ensures Ordered(r)
    ensures q.tasks != map[] && q.tasks[q.top].due <= t.due ==> r.top == q.top
  {
    Queue(q.tasks[id := t], if q.tasks == map[] || t.due < q.tasks[q.top].due then id else q.top)
  }

  /** Any of the tasks that are then due first may come to the top. */
  method Pop(q: Queue) returns (r: Queue)
    requires q.tasks != map[] && Ordered(q)
    ensures Ordered(r) && r.tasks == q.tasks - {q.top}
  {
    var tasks := q.tasks - {q.top};
    if tasks == map[] {
      return Queue(tasks, 0);
    }
    ghost var dues := map i | i in tasks :: tasks[i].due;
    ghost var least := LeastKey(dues, dues.Keys);
    assert forall o :: o in tasks ==> o in dues.Keys;
    assert Ordered(Queue(tasks, least));
    var top :| Ordered(Queue(tasks, top));
    r := Queue(tasks, top);
  }

  function Removable(tasks: map<nat, Task>, drop: (nat, Task) -> bool): set<nat>
  {
    set id | id in tasks && drop(id, tasks[id])
  }

  /** While a queue is emptied into another: what is out, and what of that was kept. */
  predicate Moved(q: Queue, drop: (nat, Task) -> bool, left: Queue, kept: Queue)
  {
    && Ordered(left) && Ordered(kept)
    && (forall id :: id in left.tasks ==> id in q.tasks && left.tasks[id] == q.tasks[id])
    && kept.tasks == q.tasks - left.tasks.Keys - Removable(q.tasks, drop)
    && (forall i, j :: i in kept.tasks && j in left.tasks ==> q.tasks[i].due <= q.tasks[j].due)
    && (left == q || (q.top !in left.tasks && (q.top in kept.tasks ==> kept.top == q.top)))
  }

  lemma MoveStarts(q: Queue, drop: (nat, Task) -> bool)
    requires Ordered(q)
    ensures Moved(q, drop, q, Queue(map[], 0))
  {
  }

  lemma MoveDropped(q: Queue, drop: (nat, Task) -> bool, left: Queue, kept: Queue, left': Queue)
    requires Moved(q, drop, left, kept) && left.tasks != map[] && drop(left.top, left.tasks[left.top])
    requires Ordered(left') && left'.tasks == left.tasks - {left.top}
    ensures Moved(q, drop, left', kept)
  {
    assert left.top in Removable(q.tasks, drop);
  }

  lemma MoveKept(q: Queue, drop: (nat, Task) -> bool, left: Queue, kept: Queue, left': Queue)
    requires Moved(q, drop, left, kept) && left.tasks != map[] && !drop(left.top, left.tasks[left.top])
    requires Ordered(left') && left'.tasks == left.tasks - {left.top} && left.top !in kept.tasks
    ensures Moved(q, drop, left', Push(kept, left.top, left.tasks[left.top]))
  {
    hide Ordered;
    OrderedTop(left);
    var id, t := left.top, left.tasks[left.top];
    assert id !in Removable(q.tasks, drop);
    assert (q.tasks - left.tasks.Keys - Removable(q.tasks, drop))[id := t]
        == q.tasks - left'.tasks.Keys - Removable(q.tasks, drop);
    if left == q {
      assert kept.tasks == map[];
    } else if kept.tasks != map[] {
      OrderedTop(kept);
      assert kept.tasks[kept.top].due <= t.due;
    }
  }

  lemma OrderedTop(q: Queue)
    requires Ordered(q) && q.tasks != map[]
    ensures q.top in q.tasks && forall id :: id in q.tasks ==> q.tasks[q.top].due <= q.tasks[id].due
  {
  }

  /** Empty the queue, and put back what is not dropped: the top stays unless it goes. */
  method Remove(q: Queue, drop: (nat, Task) -> bool) returns (kept: Queue, removed: bool)
    requires Ordered(q)
    ensures Ordered(kept) && kept.tasks == q.tasks - Removable(q.tasks, drop)
    ensures q.top in kept.tasks ==> kept.top == q.top
    ensures !removed
  {
    hide Removable;
    var left := q;
    kept, removed := Queue(map[], 0), false;
    MoveStarts(q, drop);
    while left.tasks != map[]
      invariant Moved(q, drop, left, kept) && !removed
      decreases left.tasks.Keys
    {
      var id := left.top;
      var rest := Pop(left);
      if drop(id, left.tasks[id]) {
        removed := false;
        MoveDropped(q, drop, left, kept, rest);
      } else {
        MoveKept(q, drop, left, kept, rest);
        kept := Push(kept, id, left.tasks[id]);
      }
      left := rest;
    }
  }

  // -------------------------------------------------------------------- the history

  /** What was asked for: at clock `start`, run after `delay`, then every `interval` if it is
      not zero. */
  datatype Spec = Spec(start: int, delay: nat, interval: nat)

  /** What has happened: a task ran when the clock said `at`, or tasks were removed. */
  datatype Happening = Ran(id: nat, at: int) | Removed(ids: set<nat>)

  function LastRun(h: seq<Happening>, id: nat): Option<int>
  {
    if h == [] then None
    else if h[|h| - 1].Ran? && h[|h| - 1].id == id then Some(h[|h| - 1].at)
    else LastRun(h[..|h| - 1], id)
  }

  function RemovedIn(h: seq<Happening>): set<nat>
  {
    if h == [] then {}
    else RemovedIn(h[..|h| - 1]) + if h[|h| - 1].Removed? then h[|h| - 1].ids else {}
  }

  /** A first run is not before its delay is over, and a later one not before its interval is. */
  predicate InTime(s: Spec, last: Option<int>, at: int)
  {
    match last
    case None => s.start + s.delay <= at
    case Some(p) => s.interval > 0 && p + s.interval <= at
  }

  predicate RunOk(h: seq<Happening>, specs: seq<Spec>, id: nat, at: int)
  {
    id < |specs| && id !in RemovedIn(h) && InTime(specs[id], LastRun(h, id), at)
  }

  predicate HistoryOk(h: seq<Happening>, specs: seq<Spec>)
  {
    h != [] ==>
      var front, e := h[..|h| - 1], h[|h| - 1];
      HistoryOk(front, specs) && (e.Ran? ==> RunOk(front, specs, e.id, e.at))
  }

  lemma {:induction false} RunOkAt(h: seq<Happening>, specs: seq<Spec>, i: nat)
    requires HistoryOk(h, specs) && i < |h| && h[i].Ran?
    ensures RunOk(h[..i], specs, h[i].id, h[i].at)
  {
    if i < |h| - 1 {
      RunOkAt(h[..|h| - 1], specs, i);
      assert h[..|h| - 1][..i] == h[..i];
    }
  }

  lemma {:induction false} RemovedStays(h: seq<Happening>, i: nat, id: nat)
    requires i < |h| && h[i].Removed? && id in h[i].ids
    ensures id in RemovedIn(h)
  {
    if i < |h| - 1 {
      RemovedStays(h[..|h| - 1], i, id);
    }
  }

  /** A removed task never runs again. */
  lemma RemovedNeverRuns(h: seq<Happening>, specs: seq<Spec>, i: nat, j: nat, id: nat)
    requires HistoryOk(h, specs) && i < j < |h| && h[i].Removed? && id in h[i].ids
    ensures !(h[j].Ran? && h[j].id == id)
  {
    if h[j].Ran? {
      RunOkAt(h, specs, j);
      RemovedStays(h[..j], i, id);
    }
  }

  lemma {:induction false} LastRunIs(h: seq<Happening>, id: nat, i: nat) returns (k: nat)
    requires i < |h| && h[i].Ran? && h[i].id == id
    ensures i <= k < |h| && h[k].Ran? && h[k].id == id && LastRun(h, id) == Some(h[k].at)
  {
    var n := |h| - 1;
    if h[n].Ran? && h[n].id == id {
      k := n;
    } else {
      k := LastRunIs(h[..n], id, i);
    }
  }

  /** A task that runs twice is periodic, and its runs are at least its interval apart. */
  lemma {:induction false} RunsApart(h: seq<Happening>, specs: seq<Spec>, i: nat, j: nat)
    requires HistoryOk(h, specs) && i < j < |h| && h[i].Ran? && h[j].Ran? && h[i].id == h[j].id
    ensures h[j].id < |specs| && specs[h[j].id].interval > 0
    ensures h[i].at + specs[h[j].id].interval <= h[j].at
    decreases j
  {
    RunOkAt(h, specs, j);
    var k := LastRunIs(h[..j], h[j].id, i);
    if i < k {
      RunsApart(h, specs, i, k);
    }
  }

  /** No run is before the delay is over. */
  lemma {:induction false} NeverEarly(h: seq<Happening>, specs: seq<Spec>, j: nat)
    requires HistoryOk(h, specs) && j < |h| && h[j].Ran?
    ensures h[j].id < |specs| && specs[h[j].id].start + specs[h[j].id].delay <= h[j].at
    decreases j
  {
    RunOkAt(h, specs, j);
    match LastRun(h[..j], h[j].id)
    case None =>
    case Some(_) =>
      var i := SomeRun(h[..j], h[j].id);
      NeverEarly(h, specs, i);
      RunsApart(h, specs, i, j);
  }

  lemma {:induction false} SomeRun(h: seq<Happening>, id: nat) returns (i: nat)
    requires LastRun(h, id).Some?
    ensures i < |h| && h[i].Ran? && h[i].id == id
  {
    var n := |h| - 1;
    if h[n].Ran? && h[n].id == id {
      i := n;
    } else {
      i := SomeRun(h[..n], id);
    }
  }

  lemma {:induction false} MoreSpecs(h: seq<Happening>, specs: seq<Spec>, s: Spec)
    requires HistoryOk(h, specs)
    ensures HistoryOk(h, specs + [s])
  {
    if h != [] {
      MoreSpecs(h[..|h| - 1], specs, s);
    }
  }

  lemma Appended(h: seq<Happening>, e: Happening, id: nat)
    ensures RemovedIn(h + [e]) == RemovedIn(h) + if e.Removed? then e.ids else {}
    ensures LastRun(h + [e], id) == if e.Ran? && e.id == id then Some(e.at) else LastRun(h, id)
  {
    assert (h + [e])[..|h|] == h;
  }

  lemma HistoryAppended(h: seq<Happening>, e: Happening, specs: seq<Spec>)
    requires HistoryOk(h, specs) && (e.Ran? ==> RunOk(h, specs, e.id, e.at))
    ensures HistoryOk(h + [e], specs)
  {
    assert (h + [e])[..|h|] == h;
  }

  lemma {:induction false} NotBorn(h: seq<Happening>, specs: seq<Spec>, id: nat)
    requires HistoryOk(h, specs) && id >= |specs|
    ensures LastRun(h, id) == None
  {
    if h != [] {
      NotBorn(h[..|h| - 1], specs, id);
    }
  }

  // ---------------------------------------------------------------------- the state

  /** A queued task is due when its next run is allowed. */
  predicate Waits(t: Task, s: Spec, last: Option<int>)
  {
    && t.interval == s.interval
    && match last {
         case None => t.due == s.start + s.delay
         case Some(p) => s.interval > 0 && p + s.interval <= t.due
       }
  }

  /** The task whose callback is at work, if it is still queued, is still on top. */
  predicate RunningOk(q: Queue, specs: seq<Spec>, h: seq<Happening>, clock: int, id: nat)
  {
    id in q.tasks ==>
      && q.top == id && q.tasks[id].due <= clock && id < |specs| && q.tasks[id].interval == specs[id].interval
      && LastRun(h, id).Some? && LastRun(h, id).value <= clock
  }

  /** What is queued is waiting and was not removed; what is not queued was removed, or was to
      run once and has run. */
  predicate TaskOk(q: Queue, specs: seq<Spec>, h: seq<Happening>, running: Option<nat>, id: nat)
  {
    if id in q.tasks then
      id < |specs| && id !in RemovedIn(h) && (running == Some(id) || Waits(q.tasks[id], specs[id], LastRun(h, id)))
    else if id < |specs| then
      id in RemovedIn(h) || (specs[id].interval == 0 && LastRun(h, id).Some?)
    else
      id !in RemovedIn(h)
  }

  ghost predicate StateOk(q: Queue, specs: seq<Spec>, h: seq<Happening>, clock: int, running: Option<nat>)
  {
    && Ordered(q) && HistoryOk(h, specs)
    && (forall id: nat :: TaskOk(q, specs, h, running, id))
    && (running.Some? ==> RunningOk(q, specs, h, clock, running.value))
  }

  lemma Added(q: Queue, specs: seq<Spec>, h: seq<Happening>, clock: int, running: Option<nat>, now: int, s: Spec, t: Task)
    requires StateOk(q, specs, h, clock, running) && clock <= now == s.start
    requires t.due == s.start + s.delay && t.interval == s.interval && running != Some(|specs|)
    ensures |specs| !in q.tasks
    ensures StateOk(Push(q, |specs|, t), specs + [s], h, now, running)
  {
    hide Ordered, HistoryOk, LastRun, RemovedIn;
    var n := |specs|;
    assert TaskOk(q, specs, h, running, n);
    NotBorn(h, specs, n);
    MoreSpecs(h, specs, s);
    forall id: nat ensures TaskOk(Push(q, n, t), specs + [s], h, running, id) {
      assert TaskOk(q, specs, h, running, id);
    }
  }

  lemma Dropped(q: Queue, specs: seq<Spec>, h: seq<Happening>, clock: int, running: Option<nat>, ids: set<nat>, q': Queue)
    requires StateOk(q, specs, h, clock, running) && Ordered(q') && q'.tasks == q.tasks - ids && ids <= q.tasks.Keys
    requires q.top in q'.tasks ==> q'.top == q.top
    ensures StateOk(q', specs, h + [Removed(ids)], clock, running)
  {
    hide Ordered, HistoryOk, LastRun, RemovedIn, Waits;
    var h' := h + [Removed(ids)];
    HistoryAppended(h, Removed(ids), specs);
    forall id: nat ensures TaskOk(q', specs, h', running, id) && LastRun(h', id) == LastRun(h, id) {
      assert TaskOk(q, specs, h, running, id);
      Appended(h, Removed(ids), id);
    }
  }

  lemma Started(q: Queue, specs: seq<Spec>, h: seq<Happening>, clock: int, now: int)
    requires StateOk(q, specs, h, clock, None) && clock <= now && q.tasks != map[]
    requires q.top in q.tasks && q.tasks[q.top].due <= now
    ensures StateOk(q, specs, h + [Ran(q.top, now)], now, Some(q.top))
  {
    hide Ordered, HistoryOk, LastRun, RemovedIn;
    var e := Ran(q.top, now);
    assert TaskOk(q, specs, h, None, q.top);
    HistoryAppended(h, e, specs);
    Appended(h, e, q.top);
    forall id: nat ensures TaskOk(q, specs, h + [e], Some(q.top), id) {
      assert TaskOk(q, specs, h, None, id);
      Appended(h, e, id);
    }
  }

  /** The task was removed while its callback was at work. */
  lemma EndedGone(q: Queue, specs: seq<Spec>, h: seq<Happening>, clock: int, later: int, id: nat)
    requires StateOk(q, specs, h, clock, Some(id)) && clock <= later && id !in q.tasks
    ensures StateOk(q, specs, h, later, None)
  {
    hide Ordered, HistoryOk, LastRun, RemovedIn;
    forall o: nat ensures TaskOk(q, specs, h, None, o) {
      assert TaskOk(q, specs, h, Some(id), o);
    }
  }

  lemma EndedOnce(q: Queue, specs: seq<Spec>, h: seq<Happening>, clock: int, later: int, id: nat, q': Queue)
    requires StateOk(q, specs, h, clock, Some(id)) && clock <= later && id in q.tasks && q.tasks[id].interval == 0
    requires Ordered(q') && q'.tasks == q.tasks - {id}
    ensures StateOk(q', specs, h, later, None)
  {
    hide Ordered, HistoryOk, LastRun, RemovedIn;
    forall o: nat ensures TaskOk(q', specs, h, None, o) {
      assert TaskOk(q, specs, h, Some(id), o);
    }
  }

  lemma EndedAgain(q: Queue, specs: seq<Spec>, h: seq<Happening>, clock: int, later: int, id: nat, q': Queue)
    requires StateOk(q, specs, h, clock, Some(id)) && clock <= later && id in q.tasks && q.tasks[id].interval > 0
    requires Ordered(q') && q'.tasks == q.tasks[id := q.tasks[id].(due := later + q.tasks[id].interval)]
    ensures StateOk(q', specs, h, later, None)
  {
    hide Ordered, HistoryOk, LastRun, RemovedIn;
    forall o: nat ensures TaskOk(q', specs, h, None, o) {
      assert TaskOk(q, specs, h, Some(id), o);
    }
  }

  // ----------------------------------------------------------------------- the loop

  /** What a callback may do to the queue; `now` and `later` are readings of the clock. */
  datatype Op =
    | AddOp(ns: string, once: bool, delay: nat, now: int, later: int)
    | RemoveIdOp(id: nat)
    | RemoveNsOp(ns: string)

  /** The readings do not go back. */
  predicate Timed(ops: seq<Op>, start: int, end: int)
  {
    if ops == [] then start <= end
    else if ops[0].AddOp? then start <= ops[0].now <= ops[0].later && Timed(ops[1..], ops[0].later, end)
    else Timed(ops[1..], start, end)
  }

  /** The queued tasks after one operation, with `next` as the number of a new task. */
  function OneOp(tasks: map<nat, Task>, next: nat, op: Op): map<nat, Task>
  {
    match op
    case AddOp(ns, once, delay, now, _) => tasks[next := Task(ns, if once then 0 else delay, now + delay)]
    case RemoveIdOp(id) => tasks - {id}
    case RemoveNsOp(ns) => map id | id in tasks && tasks[id].ns != ns :: tasks[id]
  }

  /** The queued tasks and the next number after all operations of a callback. */
  function AllOps(tasks: map<nat, Task>, next: nat, ops: seq<Op>): (map<nat, Task>, nat)
  {
    if ops == [] then (tasks, next)
    else
      var (m, n) := AllOps(tasks, next, ops[..|ops| - 1]);
      var op := ops[|ops| - 1];
      (OneOp(m, n, op), if op.AddOp? then n + 1 else n)
  }

  /** The queued tasks after the task `id` has run: it goes, or is put back for later. */
  function AfterRun(tasks: map<nat, Task>, id: nat, later: int): map<nat, Task>
  {
    if id !in tasks then tasks
    else if tasks[id].interval > 0 then tasks[id := tasks[id].(due := later + tasks[id].interval)]
    else tasks - {id}
  }

  function Max(a: int, b: int): int { if a > b then a else b }

  class Loop {
    var queue: Queue
    var nextTimerId: nat
    var timer: Option<int>           // when the wake-up is set for
    ghost var clock: int             // the latest reading
    ghost var running: Option<nat>   // whose callback is at work
    ghost var specs: seq<Spec>
    ghost var history: seq<Happening>

    ghost predicate Valid()
      reads this
    {
      StateOk(queue, specs, history, clock, running) && nextTimerId == |specs|
      && (running.Some? ==> running.value < |specs|)
    }

    /** The wake-up is not after the first due time, nor in the future if that has passed. */
    ghost predicate Armed()
      reads this
    {
      queue.tasks != map[] && queue.top in queue.tasks ==>
        timer.Some? && timer.value <= Max(clock, queue.tasks[queue.top].due)
    }

    constructor (now: int)
      ensures Valid() && Armed() && running == None && specs == [] && history == [] && clock == now
    {
      queue, nextTimerId, timer, clock := Queue(map[], 0), 0, None, now;
      running, specs, history := None, [], [];
    }

    /** Set the wake-up for the top of the queue. */
    method SchedNextTask(now: int)
      requires Valid() && clock <= now
      modifies this`timer, this`clock
      ensures Valid() && Armed() && clock == now
      ensures timer == if queue.tasks == map[] then None else Some(Max(now, queue.tasks[queue.top].due))
    {
      StateLater(queue, specs, history, clock, running, now);
      clock := now;
      if queue.tasks == map[] {
        timer := None;
      } else {
        var next := if now > queue.tasks[queue.top].due then 0 else queue.tasks[queue.top].due - now;
        timer := Some(now + next);
      }
    }

    method AddTask(ns: string, once: bool, delay: nat, now: int, later: int) returns (id: nat)
      requires Valid() && clock <= now <= later
      modifies this`queue, this`nextTimerId, this`timer, this`clock, this`specs
      ensures Valid() && Armed() && clock == later
      ensures id == |old(specs)| && specs == old(specs) + [Spec(now, delay, if once then 0 else delay)]
      ensures queue.tasks == old(queue).tasks[id := Task(ns, if once then 0 else delay, now + delay)]
      ensures queue.top in queue.tasks && timer == Some(Max(later, queue.tasks[queue.top].due))
    {
      hide StateOk;
      id := nextTimerId;
      nextTimerId := nextTimerId + 1;
      var task := Task(ns, if once then 0 else delay, now + delay);
      Added(queue, specs, history, clock, running, now, Spec(now, delay, task.interval), task);
      StateOrdered(queue, specs, history, clock, running);
      queue := Push(queue, id, task);
      specs := specs + [Spec(now, delay, task.interval)];
      clock := now;
      SchedNextTask(later);
    }

    /** Remove all tasks that `drop` chooses; the answer does not tell whether there were any. */
    method RemoveTask(drop: (nat, Task) -> bool) returns (removed: bool)
      requires Valid()
      modifies this`queue, this`history
      ensures Valid() && (old(Armed()) ==> Armed())
      ensures queue.tasks == old(queue).tasks - Removable(old(queue).tasks, drop)
      ensures history == old(history) + [Removed(Removable(old(queue).tasks, drop))]
      ensures !removed
    {
      hide StateOk, Removable;
      StateOrdered(queue, specs, history, clock, running);
      var kept;
      kept, removed := Remove(queue, drop);
      RemovableKeys(queue.tasks, drop);
      Dropped(queue, specs, history, clock, running, Removable(queue.tasks, drop), kept);
      history := history + [Removed(Removable(queue.tasks, drop))];
      queue := kept;
    }

    method RunOp(op: Op)
      requires Valid() && (op.AddOp? ==> clock <= op.now <= op.later)
      modifies this`queue, this`nextTimerId, this`timer, this`clock, this`specs, this`history
      ensures Valid() && clock == if op.AddOp? then op.later else old(clock)
      ensures old(specs) <= specs && OnlyRemovals(old(history), history)
      ensures forall id :: id in old(queue).tasks ==> Survives(id, old(queue), queue, history)
      ensures queue.tasks == OneOp(old(queue).tasks, |old(specs)|, op)
      ensures |specs| == |old(specs)| + if op.AddOp? then 1 else 0
    {
      hide StateOk;
      NotRemoved(queue, specs, history, clock, running);
      if op.AddOp? {
        var _ := AddTask(op.ns, op.once, op.delay, op.now, op.later);
      } else {
        var drop := Chooses(op);
        Appended(history, Removed(Removable(queue.tasks, drop)), 0);
        DropsChosen(queue.tasks, op, |specs|);
        var _ := RemoveTask(drop);
      }
    }

    /** The callback does whatever it likes with the queue. */
    method RunCallback(ops: seq<Op>, end: int)
      requires Valid() && Timed(ops, clock, end)
      modifies this`queue, this`nextTimerId, this`timer, this`clock, this`specs, this`history
      ensures Valid() && clock <= end
      ensures old(specs) <= specs && OnlyRemovals(old(history), history)
      ensures forall id :: id in old(queue).tasks ==> Survives(id, old(queue), queue, history)
      ensures AllOps(old(queue).tasks, |old(specs)|, ops).0 == queue.tasks
      ensures AllOps(old(queue).tasks, |old(specs)|, ops).1 == |specs|
    {
      hide StateOk, RemovedIn, OneOp;
      NotRemoved(queue, specs, history, clock, running);
      var i := 0;
      while i < |ops|
        invariant 0 <= i <= |ops| && Valid() && Timed(ops[i..], clock, end)
        invariant old(specs) <= specs && OnlyRemovals(old(history), history)
        invariant forall id :: id in old(queue).tasks ==> Survives(id, old(queue), queue, history)
        invariant AllOps(old(queue).tasks, |old(specs)|, ops[..i]).0 == queue.tasks
        invariant AllOps(old(queue).tasks, |old(specs)|, ops[..i]).1 == |specs|
      {
        assert ops[..i + 1][..i] == ops[..i] && ops[..i + 1][i] == ops[i];
        assert ops[i..][0] == ops[i] && ops[i..][1..] == ops[i + 1..];
        ghost var h := history;
        RunOp(ops[i]);
        RemovedGrows(h, history);
        NotRemoved(queue, specs, history, clock, running);
        i := i + 1;
      }
      assert ops[..|ops|] == ops;
    }

    /** One turn of the timer callback: the clock is read, the top task runs if it is due, and
        is put back if it is periodic and has not been removed meanwhile. */
    method RunTop(now: int, ops: seq<Op>, later: int) returns (ran: bool)
      requires Valid() && running == None && clock <= now && Timed(ops, now, later)
      modifies this
      ensures Valid() && running == None
      ensures ran <==> old(queue).tasks != map[] && old(queue).tasks[old(queue).top].due <= now
      ensures !ran ==> queue == old(queue) && specs == old(specs) && history == old(history)
      ensures ran ==> var id := old(queue).top; var task := old(queue).tasks[id];
        && OnlyRemovals(old(history) + [Ran(id, now)], history)
        && (id in queue.tasks <==> task.interval > 0 && id !in RemovedIn(history))
        && (id in queue.tasks ==> queue.tasks[id] == task.(due := later + task.interval))
        && (forall o :: o in old(queue).tasks && o != id ==> Survives(o, old(queue), queue, history))
        && queue.tasks == AfterRun(AllOps(old(queue).tasks, |old(specs)|, ops).0, id, later)
    {
      hide StateOk, RemovedIn, AllOps;
      StateOrdered(queue, specs, history, clock, running);
      if queue.tasks == map[] {
        return false;
      }
      var id, task := queue.top, queue.tasks[queue.top];
      if task.due > now {
        StateLater(queue, specs, history, clock, running, now);
        clock := now;
        return false;
      }
      ran := true;
      NotRemoved(queue, specs, history, clock, running);
      Started(queue, specs, history, clock, now);
      history, clock, running := history + [Ran(id, now)], now, Some(id);
      RunCallback(ops, later);
      StillOnTop(queue, specs, history, clock, id);
      if queue.tasks == map[] || queue.top != id {
        EndedGone(queue, specs, history, clock, later, id);
        clock, running := later, None;
        return;
      }
      StateOrdered(queue, specs, history, clock, running);
      var rest := Pop(queue);
      if task.interval > 0 {
        var q := Push(rest, id, task.(due := later + task.interval));
        EndedAgain(queue, specs, history, clock, later, id, q);
        queue := q;
      } else {
        EndedOnce(queue, specs, history, clock, later, id, rest);
        queue := rest;
      }
      clock, running := later, None;
    }
  }

  /** The chosen tasks are those that the operation takes out. */
  lemma DropsChosen(tasks: map<nat, Task>, op: Op, next: nat)
    requires !op.AddOp?
    ensures tasks - Removable(tasks, Chooses(op)) == OneOp(tasks, next, op)
  {
  }

  /** No task is lost: one that is not queued was removed, or was to run once and has run. */
  lemma NoneLost(l: Loop, id: nat)
    requires l.Valid() && l.running == None && id < |l.specs| && id !in l.queue.tasks && id !in RemovedIn(l.history)
    ensures l.specs[id].interval == 0 && LastRun(l.history, id).Some?
  {
    assert TaskOk(l.queue, l.specs, l.history, l.running, id);
  }

  /** The task is still queued as it was, unless it was removed. */
  predicate Survives(id: nat, q: Queue, q': Queue, h: seq<Happening>)
    requires id in q.tasks
  {
    (id in q'.tasks <==> id !in RemovedIn(h)) && (id in q'.tasks ==> q'.tasks[id] == q.tasks[id])
  }

  /** When the callback is over, the top of the queue tells whether its task is still there. */
  lemma StillOnTop(q: Queue, specs: seq<Spec>, h: seq<Happening>, clock: int, id: nat)
    requires StateOk(q, specs, h, clock, Some(id))
    ensures id in q.tasks <==> q.tasks != map[] && q.top == id
  {
  }

  lemma {:induction false} RemovedGrows(h: seq<Happening>, h': seq<Happening>)
    requires h <= h'
    ensures RemovedIn(h) <= RemovedIn(h')
  {
    if |h| < |h'| {
      RemovedGrows(h, h'[..|h'| - 1]);
    } else {
      assert h == h';
    }
  }

  function Chooses(op: Op): (nat, Task) -> bool
    requires !op.AddOp?
  {
    match op
    case RemoveIdOp(id) => (i: nat, t: Task) => i == id
    case RemoveNsOp(ns) => (i: nat, t: Task) => t.ns == ns
  }

  /** Between the two histories there are only removals. */
  predicate OnlyRemovals(h: seq<Happening>, h': seq<Happening>)
  {
    h <= h' && forall i :: |h| <= i < |h'| ==> h'[i].Removed?
  }

  lemma StateLater(q: Queue, specs: seq<Spec>, h: seq<Happening>, clock: int, running: Option<nat>, now: int)
    requires StateOk(q, specs, h, clock, running) && clock <= now
    ensures StateOk(q, specs, h, now, running)
  {
    hide Ordered, HistoryOk, TaskOk, LastRun;
  }

  lemma StateOrdered(q: Queue, specs: seq<Spec>, h: seq<Happening>, clock: int, running: Option<nat>)
    requires StateOk(q, specs, h, clock, running)
    ensures Ordered(q)
  {
  }

  lemma NotRemoved(q: Queue, specs: seq<Spec>, h: seq<Happening>, clock: int, running: Option<nat>)
    requires StateOk(q, specs, h, clock, running)
    ensures forall id :: id in q.tasks ==> id < |specs| && id !in RemovedIn(h)
  {
    forall id | id in q.tasks ensures id < |specs| && id !in RemovedIn(h) {
      assert TaskOk(q, specs, h, running, id);
    }
  }

  lemma RemovableKeys(tasks: map<nat, Task>, drop: (nat, Task) -> bool)
    ensures Removable(tasks, drop) <= tasks.Keys
  {
  }
}
