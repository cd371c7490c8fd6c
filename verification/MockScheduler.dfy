/**
  The scheduler that a replay of recorded events drives: `SetTime` moves the clock forward and
  runs every task that falls due on the way, in the order of their due times.
 */
module MockScheduler {
  import opened Arithmetic

  /** What was asked for: at clock `start`, run after `delay`, then every `interval` if it is
      not zero. */
  datatype Spec = Spec(start: int, delay: int, interval: int)

  /** What a caller asks for; the numbers stand for the callbacks. */
  datatype Request = Request(id: nat, delay: int, interval: int)

  /** A task runs once, or every `delay` seconds; the period may be negative. */
  predicate PeriodOk(delay: int, interval: int) { interval == 0 || interval == delay }

  /** The callbacks are numbered in the order in which they come. */
  predicate RequestsOk(requests: seq<Request>, next: nat)
  {
    forall i :: 0 <= i < |requests| ==>
      requests[i].id == next + i && PeriodOk(requests[i].delay, requests[i].interval)
  }

  /** What the callbacks of a run of the loop up to `t` ask for, one turn after the other; the
      clock does not go past `end`. */
  predicate ScriptOk(script: seq<seq<Request>>, next: nat, end: int, t: int)
  {
    script != [] ==>
      && RequestsOk(script[0], next) && AllSettle(script[0], end, t)
      && ScriptOk(script[1..], next + |script[0]|, end, t)
  }

  /** A period is not negative, or does not lead back to `t`: otherwise the loop would not end. */
  predicate AllSettle(requests: seq<Request>, end: int, t: int)
  {
    forall i :: 0 <= i < |requests| ==> requests[i].interval >= 0 || end + requests[i].interval > t
  }

  /** What the requests ask for, at clock `now`. */
  function SpecsOf(requests: seq<Request>, now: int): seq<Spec>
  {
    seq(|requests|, i requires 0 <= i < |requests| => Spec(now, requests[i].delay, requests[i].interval))
  }

  datatype Entry = Entry(due: int, interval: int)

  datatype Firing = Firing(id: nat, at: int)

  function Count(log: seq<Firing>, id: nat): nat
  {
    if log == [] then 0
    else Count(log[..|log| - 1], id) + if log[|log| - 1].id == id then 1 else 0
  }

  /** When the run after `n` earlier ones is due. */
  function DueTime(s: Spec, n: nat): int { s.start + s.delay + n * s.interval }

  predicate SpecOk(s: Spec, now: int)
  {
    s.start <= now && PeriodOk(s.delay, s.interval)
  }

  /** A queued task that has run `n` times: its next run is due, and is not yet missed. */
  predicate Waits(e: Entry, s: Spec, n: nat, now: int)
  {
    && e.interval == s.interval && (s.interval >= 0 ==> e.due == DueTime(s, n))
    && (s.interval == 0 ==> n == 0)
    && (s.delay >= 0 ==> now <= e.due)
    && (s.interval > 0 ==> e.due - s.interval <= now)
  }

  predicate QueueOk(queue: map<nat, Entry>, specs: seq<Spec>, log: seq<Firing>, now: int)
  {
    && (forall s :: s in specs ==> SpecOk(s, now))
    && (forall id :: id in queue ==> id < |specs| && Waits(queue[id], specs[id], Count(log, id), now))
    && (forall id :: 0 <= id < |specs| && id !in queue ==> specs[id].interval == 0 && Count(log, id) == 1)
  }

  /** A run of a task that was not asked for in the past is at the very time it was due. */
  predicate OnTime(f: Firing, s: Spec, n: nat) { s.delay >= 0 ==> f.at == DueTime(s, n) }

  predicate LogOk(log: seq<Firing>, specs: seq<Spec>, now: int)
  {
    && (forall i :: 0 <= i < |log| ==>
          log[i].id < |specs| && log[i].at <= now && OnTime(log[i], specs[log[i].id], Count(log[..i], log[i].id)))
    && (forall i, j :: 0 <= i < j < |log| ==> log[i].at <= log[j].at)
  }

  /** Every periodic task is due after `now`. */
  predicate Ahead(queue: map<nat, Entry>, now: int)
  {
    forall id :: id in queue && queue[id].interval > 0 ==> queue[id].due > now
  }

  // ------------------------------------------------------------------- one more run

  /** One of the tasks that are due first. */
  predicate Least(queue: map<nat, Entry>, id: nat)
  {
    id in queue && forall o :: o in queue ==> queue[id].due <= queue[o].due
  }

  lemma CountAppended(log: seq<Firing>, f: Firing, id: nat)
    ensures Count(log + [f], id) == Count(log, id) + if f.id == id then 1 else 0
  {
    assert (log + [f])[..|log|] == log;
  }

  lemma LogAppended(log: seq<Firing>, specs: seq<Spec>, now: int, now': int, f: Firing)
    requires LogOk(log, specs, now) && now <= now' == f.at && f.id < |specs|
    requires OnTime(f, specs[f.id], Count(log, f.id))
    ensures LogOk(log + [f], specs, now')
  {
    hide OnTime, Count;
    var log' := log + [f];
    forall i | 0 <= i < |log'|
      ensures log'[i].id < |specs| && OnTime(log'[i], specs[log'[i].id], Count(log'[..i], log'[i].id)) {
      assert log'[..i] == log[..i];
    }
  }

  /** The queue after the run of `id`. */
  function Requeued(queue: map<nat, Entry>, id: nat, now: int): map<nat, Entry>
    requires id in queue
  {
    if queue[id].interval != 0 then queue[id := Entry(now + queue[id].interval, queue[id].interval)]
    else queue - {id}
  }

  function Later(a: int, b: int): int { if b > a then b else a }

  /** The task that runs is on time, and waits for its next run. */
  lemma RunsOnTime(e: Entry, s: Spec, n: nat, now: int)
    requires Waits(e, s, n, now) && SpecOk(s, now)
    ensures var now' := Later(now, e.due);
      && (s.delay >= 0 ==> now' == DueTime(s, n))
      && (s.interval != 0 ==> Waits(Entry(now' + e.interval, e.interval), s, n + 1, now'))
  {
    assert DueTime(s, n + 1) == DueTime(s, n) + s.interval;
  }

  /** What becomes of task `o` when task `id` runs. */
  lemma AfterRun(queue: map<nat, Entry>, specs: seq<Spec>, log: seq<Firing>, now: int, id: nat, o: nat)
    requires QueueOk(queue, specs, log, now) && id in queue
    requires o in queue ==> queue[id].due <= queue[o].due
    ensures var now' := Later(now, queue[id].due); var q := Requeued(queue, id, now');
      var n := Count(log + [Firing(id, now')], o);
      && (o in q ==> o < |specs| && Waits(q[o], specs[o], n, now'))
      && (o !in q && o < |specs| ==> specs[o].interval == 0 && n == 1)
  {
    hide Count, Waits;
    var now' := Later(now, queue[id].due);
    CountAppended(log, Firing(id, now'), o);
    if o == id {
      Same(queue[id], specs[id], Count(log, id), now);
      RunsOnTime(queue[id], specs[id], Count(log, id), now);
    } else if o in queue {
      StillWaits(queue[o], specs[o], Count(log, o), now, now');
    }
  }

  lemma RunKeepsQueue(queue: map<nat, Entry>, specs: seq<Spec>, log: seq<Firing>, now: int, id: nat)
    requires QueueOk(queue, specs, log, now) && Least(queue, id)
    ensures var now' := Later(now, queue[id].due);
      && OnTime(Firing(id, now'), specs[id], Count(log, id))
      && QueueOk(Requeued(queue, id, now'), specs, log + [Firing(id, now')], now')
  {
    hide Count, Waits, Requeued;
    var now' := Later(now, queue[id].due);
    RunsOnTime(queue[id], specs[id], Count(log, id), now);
    forall o: nat
      ensures var q := Requeued(queue, id, now'); var n := Count(log + [Firing(id, now')], o);
        && (o in q ==> o < |specs| && Waits(q[o], specs[o], n, now'))
        && (o !in q && o < |specs| ==> specs[o].interval == 0 && n == 1) {
      AfterRun(queue, specs, log, now, id, o);
    }
  }

  lemma Same(e: Entry, s: Spec, n: nat, now: int)
    requires Waits(e, s, n, now)
    ensures e.interval == s.interval && (s.interval == 0 ==> n == 0)
  {
  }

  lemma StillWaits(e: Entry, s: Spec, n: nat, now: int, now': int)
    requires Waits(e, s, n, now) && now <= now' && (now' <= now || now' <= e.due)
    ensures Waits(e, s, n, now')
  {
  }

  // -------------------------------------------------------- the time that is still to run

  /** How far the task is behind `t`. */
  function Left(queue: map<nat, Entry>, id: nat, t: int): nat
  {
    if id in queue && queue[id].due <= t then t - queue[id].due + 1 else 0
  }

  function Remaining(queue: map<nat, Entry>, n: nat, t: int): nat
  {
    if n == 0 then 0 else Remaining(queue, n - 1, t) + Left(queue, n - 1, t)
  }

  lemma {:induction false} RemainingChanged(q: map<nat, Entry>, q': map<nat, Entry>, id: nat, n: nat, t: int)
    requires forall o :: o != id ==> Left(q', o, t) == Left(q, o, t)
    ensures Remaining(q', n, t) == Remaining(q, n, t) + if id < n then Left(q', id, t) - Left(q, id, t) else 0
  {
    if n > 0 {
      RemainingChanged(q, q', id, n - 1, t);
    }
  }

  /** Every task that is due by `t` is taken out when it runs, or put back to where it will be
      due after `t` at the latest when the clock has reached `t`. */
  predicate Settles(queue: map<nat, Entry>, now: int, t: int)
  {
    forall id :: id in queue && queue[id].due <= t ==> queue[id].interval == 0 || Later(now, t) + queue[id].interval > t
  }

  /** Then every run brings the end of the loop nearer. */
  lemma RunGoesOn(queue: map<nat, Entry>, id: nat, n: nat, now: int, t: int)
    requires id in queue && id < n && queue[id].due <= t && Settles(queue, now, t)
    ensures var now' := Later(now, queue[id].due); var q := Requeued(queue, id, now');
      Remaining(q, n, t) < Remaining(queue, n, t) && Settles(q, now', t)
  {
    RemainingChanged(queue, Requeued(queue, id, Later(now, queue[id].due)), id, n, t);
  }

  lemma LeastExists(queue: map<nat, Entry>) returns (id: nat)
    requires queue != map[]
    ensures Least(queue, id)
  {
    var dues := map i | i in queue :: queue[i].due;
    assert forall o :: o in queue ==> o in dues.Keys;
    var any :| any in queue;
    id := LeastKey(dues, dues.Keys);
  }

  method Top(queue: map<nat, Entry>) returns (id: nat)
    requires queue != map[]
    ensures Least(queue, id)
  {
    ghost var least := LeastExists(queue);
    id :| Least(queue, id);
  }

  // ------------------------------------------------------------------- the scheduler

  class Scheduler {
    var queue: map<nat, Entry>
    var unixTime: int
    ghost var specs: seq<Spec>
    ghost var log: seq<Firing>

    ghost predicate Valid()
      reads this
    {
      QueueOk(queue, specs, log, unixTime) && LogOk(log, specs, unixTime) && Ahead(queue, unixTime)
    }

    constructor ()
      ensures Valid() && unixTime == 0 && specs == [] && log == []
    {
      queue, unixTime, specs, log := map[], 0, [], [];
    }

    /** Between two turns of the loop of `SetTime(t)`. */
    ghost predicate Between(t: int)
      reads this
    {
      && QueueOk(queue, specs, log, unixTime) && LogOk(log, specs, unixTime)
      && (unixTime <= t || Ahead(queue, unixTime))
    }

    method Add(r: Request)
      requires QueueOk(queue, specs, log, unixTime) && LogOk(log, specs, unixTime)
      requires r.id == |specs| && PeriodOk(r.delay, r.interval)
      modifies this`queue, this`specs
      ensures QueueOk(queue, specs, log, unixTime) && LogOk(log, specs, unixTime)
      ensures old(Ahead(queue, unixTime)) ==> Ahead(queue, unixTime)
      ensures forall t :: (r.interval >= 0 || Later(unixTime, t) + r.interval > t) && old(Settles(queue, unixTime, t)) ==>
                Settles(queue, unixTime, t)
      ensures specs == old(specs) + [Spec(unixTime, r.delay, r.interval)]
      ensures queue == old(queue)[r.id := Entry(unixTime + r.delay, r.interval)] && r.id !in old(queue)
    {
      hide Count;
      NeverRun(log, specs, unixTime, r.id);
      queue := queue[r.id := Entry(unixTime + r.delay, r.interval)];
      specs := specs + [Spec(unixTime, r.delay, r.interval)];
    }

    /** A period of less than a second, forward or back, is cut to zero, and then the task runs
        only once. */
    method AddPeriodicTask(id: nat, interval: real)
      requires Valid() && id == |specs|
      modifies this`queue, this`specs
      ensures Valid() && specs == old(specs) + [Spec(unixTime, Truncate(interval), Truncate(interval))]
      ensures id in queue && old(queue) == queue - {id}
    {
      var p := Truncate(interval);
      Add(Request(id, p, p));
    }

    method AddOnceTask(id: nat, dt: real)
      requires Valid() && id == |specs|
      modifies this`queue, this`specs
      ensures Valid() && specs == old(specs) + [Spec(unixTime, Truncate(dt), 0)]
      ensures id in queue && old(queue) == queue - {id}
    {
      Add(Request(id, Truncate(dt), 0));
    }

    method SetForwardTime(t: int)
      modifies this`unixTime
      ensures unixTime == Later(old(unixTime), t)
    {
      if t > unixTime {
        unixTime := t;
      }
    }

    /** Run the task `id`, which is due first: the clock moves to its due time. */
    method RunTask(id: nat)
      requires QueueOk(queue, specs, log, unixTime) && LogOk(log, specs, unixTime) && Least(queue, id)
      modifies this`queue, this`unixTime, this`log
      ensures QueueOk(queue, specs, log, unixTime) && LogOk(log, specs, unixTime)
      ensures unixTime == Later(old(unixTime), old(queue)[id].due)
      ensures log == old(log) + [Firing(id, unixTime)] && queue == Requeued(old(queue), id, unixTime)
    {
      hide QueueOk, LogOk, Count;
      Known(queue, specs, log, unixTime, id);
      RunKeepsQueue(queue, specs, log, unixTime, id);
      ghost var now := Later(unixTime, queue[id].due);
      LogAppended(log, specs, unixTime, now, Firing(id, now));
      SetForwardTime(queue[id].due);
      var interval := queue[id].interval;
      queue := queue - {id};
      log := log + [Firing(id, unixTime)];
      if interval != 0 {
        queue := queue[id := Entry(unixTime + interval, interval)];
      }
      assert queue == Requeued(old(queue), id, unixTime);
    }

    /** What a callback asks for.  The clock stands still while it runs, so it does not matter
        that its own task is queued again only afterwards. */
    method AddAll(requests: seq<Request>)
      requires QueueOk(queue, specs, log, unixTime) && LogOk(log, specs, unixTime)
      requires RequestsOk(requests, |specs|)
      modifies this`queue, this`specs
      ensures QueueOk(queue, specs, log, unixTime) && LogOk(log, specs, unixTime)
      ensures old(Ahead(queue, unixTime)) ==> Ahead(queue, unixTime)
      ensures forall t :: AllSettle(requests, Later(unixTime, t), t) && old(Settles(queue, unixTime, t)) ==>
                Settles(queue, unixTime, t)
      ensures forall id :: id in queue ==> id in old(queue) || |old(specs)| <= id < |specs|
      ensures specs == old(specs) + SpecsOf(requests, unixTime)
      ensures forall id :: id in old(queue) ==> id in queue && queue[id] == old(queue)[id]
      ensures requests == [] ==> queue == old(queue) && specs == old(specs)
    {
      hide QueueOk, LogOk;
      for i := 0 to |requests|
        invariant QueueOk(queue, specs, log, unixTime) && LogOk(log, specs, unixTime)
        invariant old(Ahead(queue, unixTime)) ==> Ahead(queue, unixTime)
        invariant forall t :: AllSettle(requests, Later(unixTime, t), t) && old(Settles(queue, unixTime, t)) ==>
                    Settles(queue, unixTime, t)
        invariant forall id :: id in queue ==> id in old(queue) || |old(specs)| <= id < |specs|
        invariant specs == old(specs) + SpecsOf(requests, unixTime)[..i]
        invariant forall id :: id in old(queue) ==> id in queue && queue[id] == old(queue)[id]
        invariant i == 0 ==> queue == old(queue) && specs == old(specs)
      {
        Add(requests[i]);
        var asked := SpecsOf(requests, unixTime);
        assert asked[..i + 1] == asked[..i] + [asked[i]];
      }
      assert SpecsOf(requests, unixTime)[..|requests|] == SpecsOf(requests, unixTime);
    }

    /** One turn of the loop: the task due first runs, if it is due by `t`, and its callback may
        ask for any further tasks. */
    method Turn(t: int, requests: seq<Request>) returns (ran: bool)
      requires Between(t) && RequestsOk(requests, |specs|)
      modifies this`queue, this`unixTime, this`log, this`specs
      ensures Between(t)
      ensures old(unixTime) <= unixTime && (unixTime <= old(unixTime) || unixTime <= t)
      ensures !ran ==> queue == old(queue) && specs == old(specs) && log == old(log)
      ensures !ran ==> forall id :: id in queue ==> queue[id].due > t
      ensures ran ==> exists id :: Least(old(queue), id) && old(queue)[id].due <= t
                                   && log == old(log) + [Firing(id, unixTime)]
      ensures ran ==> specs == old(specs) + SpecsOf(requests, unixTime)
      ensures forall id :: id in queue ==> id in old(queue) || |old(specs)| <= id < |specs|
      ensures AllSettle(requests, Later(old(unixTime), t), t) && old(Settles(queue, unixTime, t)) ==>
                Settles(queue, unixTime, t)
      ensures ran && requests == [] ==> Next(Point(old(queue), old(unixTime)), Point(queue, unixTime), t)
      ensures ran && requests == [] && old(Settles(queue, unixTime, t)) ==>
                Remaining(queue, |specs|, t) < Remaining(old(queue), |specs|, t)
    {
      hide QueueOk, LogOk, Count, Remaining, Settles;
      if queue == map[] {
        return false;
      }
      var id := Top(queue);
      if queue[id].due > t {
        return false;
      }
      Known(queue, specs, log, unixTime, id);
      if Settles(queue, unixTime, t) {
        RunGoesOn(queue, id, |specs|, unixTime, t);
      }
      AheadAfterRun(queue, specs, log, unixTime, id, t);
      ghost var p := Point(queue, unixTime);
      RunTask(id);
      assert NextBy(p, Point(queue, unixTime), id, t);
      AddAll(requests);
      ran := true;
    }

    /** With nothing left that is due by `t`, the clock goes to `t`. */
    method Finish(t: int)
      requires Between(t) && forall id :: id in queue ==> queue[id].due > t
      modifies this`unixTime
      ensures Valid() && unixTime == Later(old(unixTime), t)
    {
      ForwardKeeps(queue, specs, log, unixTime, t);
      SetForwardTime(t);
    }

    /** Move the clock, running what falls due: then nothing due by `t` is left.  The callback of
        the `k`th turn asks for `script[k]`, those after the script for nothing. */
    method SetTime(t: int, script: seq<seq<Request>>)
      requires Valid() && Settles(queue, unixTime, t) && ScriptOk(script, |specs|, Later(unixTime, t), t)
      modifies this`queue, this`unixTime, this`log, this`specs
      ensures Valid() && unixTime == Later(old(unixTime), t)
      ensures old(log) <= log && old(specs) <= specs && (script == [] ==> specs == old(specs))
      ensures forall id :: id in queue ==> queue[id].due > t && (id in old(queue) || |old(specs)| <= id < |specs|)
    {
      hide QueueOk, LogOk, Count, Remaining, Settles, RequestsOk, AllSettle;
      var again, left := true, script;
      while again
        invariant Between(t) && Settles(queue, unixTime, t) && ScriptOk(left, |specs|, Later(old(unixTime), t), t)
        invariant old(log) <= log && old(specs) <= specs && (script == [] ==> left == [] && specs == old(specs))
        invariant old(unixTime) <= unixTime && (unixTime <= old(unixTime) || unixTime <= t)
        invariant forall id :: id in queue ==> (id in old(queue) || |old(specs)| <= id < |specs|) && (again || queue[id].due > t)
        decreases |left|, Remaining(queue, |specs|, t), again
      {
        if left == [] {
          NoRequests(|specs|, Later(unixTime, t), t);
          again := Turn(t, []);
        } else {
          again := Turn(t, left[0]);
          if again {
            left := left[1..];
          }
        }
      }
      Finish(t);
    }

    /** The number of runs of a periodic task is always the number of whole periods since it
        was added. */
    lemma PeriodicRuns(id: nat)
      requires Valid() && id < |specs| && specs[id].interval > 0
      ensures Count(log, id) == (unixTime - specs[id].start) / specs[id].interval
    {
      hide Count;
      assert Waits(queue[id], specs[id], Count(log, id), unixTime);
      PeriodsSince(specs[id], Count(log, id), unixTime, queue[id].due);
    }

    /** A task with no period runs at most once, and is queued until then. */
    lemma RunsOnce(id: nat)
      requires Valid() && id < |specs| && specs[id].interval == 0
      ensures Count(log, id) == if id in queue then 0 else 1
    {
    }
  }

  lemma PeriodsSince(s: Spec, n: nat, now: int, due: int)
    requires SpecOk(s, now) && s.interval > 0 && due == DueTime(s, n) && due - s.interval <= now < due
    ensures n == (now - s.start) / s.interval
  {
    var a, p := now - s.start, s.interval;
    assert s.delay + n * p == p * n + p;
    QuotientUnique(p, n, a - p * n, a / p, a % p);
  }

  lemma Known(queue: map<nat, Entry>, specs: seq<Spec>, log: seq<Firing>, now: int, id: nat)
    requires QueueOk(queue, specs, log, now) && id in queue
    ensures id < |specs|
    ensures queue[id].interval > 0 ==> now <= queue[id].due
  {
    assert Waits(queue[id], specs[id], Count(log, id), now);
    assert SpecOk(specs[id], now);
  }

  lemma AheadAfterRun(queue: map<nat, Entry>, specs: seq<Spec>, log: seq<Firing>, now: int, id: nat, t: int)
    requires QueueOk(queue, specs, log, now) && id in queue && queue[id].due <= t
    requires now <= t || Ahead(queue, now)
    ensures var now' := Later(now, queue[id].due); now' <= t || Ahead(Requeued(queue, id, now'), now')
  {
    Known(queue, specs, log, now, id);
  }

  lemma {:induction false} NeverRun(log: seq<Firing>, specs: seq<Spec>, now: int, id: nat)
    requires LogOk(log, specs, now) && id >= |specs|
    ensures Count(log, id) == 0
  {
    if log != [] {
      var front := log[..|log| - 1];
      assert forall i :: 0 <= i < |front| ==> front[i] == log[i] && front[..i] == log[..i];
      NeverRun(front, specs, now, id);
    }
  }

  /** With nothing left that is due by `t`, the clock may go to `t`. */
  lemma ForwardKeeps(queue: map<nat, Entry>, specs: seq<Spec>, log: seq<Firing>, now: int, t: int)
    requires QueueOk(queue, specs, log, now) && LogOk(log, specs, now)
    requires forall id :: id in queue ==> queue[id].due > t
    requires now <= t || Ahead(queue, now)
    ensures var now' := Later(now, t);
      QueueOk(queue, specs, log, now') && LogOk(log, specs, now') && Ahead(queue, now')
  {
    hide Count;
  }

  lemma NoRequests(next: nat, end: int, t: int)
    ensures RequestsOk([], next) && AllSettle([], end, t)
  {
  }

  // --------------------------------------------------------------- when the loop ends

  /** The queue and the clock between two turns of the loop. */
  datatype Point = Point(queue: map<nat, Entry>, now: int)

  predicate NextBy(p: Point, p': Point, id: nat, t: int)
  {
    && Least(p.queue, id) && p.queue[id].due <= t
    && p' == Point(Requeued(p.queue, id, Later(p.now, p.queue[id].due)), Later(p.now, p.queue[id].due))
  }

  /** One turn: a task that is due first runs, and its callback asks for nothing. */
  ghost predicate Next(p: Point, p': Point, t: int)
  {
    exists id: nat :: NextBy(p, p', id, t)
  }

  ghost predicate Turns(p: Point, ps: seq<Point>, t: int)
  {
    && ps != [] && ps[0] == p
    && forall i :: 0 < i < |ps| ==> Next(ps[i - 1], ps[i], t)
  }

  /** Nothing is left to run. */
  predicate Done(p: Point, t: int) { forall id :: id in p.queue ==> p.queue[id].due > t }

  ghost predicate Ends(p: Point, ps: seq<Point>, t: int) { Turns(p, ps, t) && Done(ps[|ps| - 1], t) }

  /** Each turn keeps what decides the matter. */
  lemma TurnSettles(p: Point, p': Point, n: nat, t: int)
    requires Next(p, p', t)
    ensures Settles(p'.queue, p'.now, t) <==> Settles(p.queue, p.now, t)
    ensures (forall id :: id in p.queue ==> id < n) ==> forall id :: id in p'.queue ==> id < n
    ensures Settles(p.queue, p.now, t) && (forall id :: id in p.queue ==> id < n) ==>
              Remaining(p'.queue, n, t) < Remaining(p.queue, n, t)
  {
    hide Remaining;
    var id: nat :| NextBy(p, p', id, t);
    if Settles(p.queue, p.now, t) {
      RunGoesOn(p.queue, id, if id < n then n else id + 1, p.now, t);
    } else {
      var o :| o in p.queue && p.queue[o].due <= t && p.queue[o].interval != 0 && Later(p.now, t) + p.queue[o].interval <= t;
      assert o in p'.queue && p'.queue[o].interval == p.queue[o].interval && p'.queue[o].due <= t;
    }
  }

  lemma {:induction false} TurnsSettle(p: Point, ps: seq<Point>, n: nat, t: int)
    requires Turns(p, ps, t)
    ensures var l := ps[|ps| - 1];
      && (Settles(l.queue, l.now, t) <==> Settles(p.queue, p.now, t))
      && ((forall id :: id in p.queue ==> id < n) ==> forall id :: id in l.queue ==> id < n)
      && (Settles(p.queue, p.now, t) && (forall id :: id in p.queue ==> id < n) ==>
            |ps| - 1 <= Remaining(p.queue, n, t) - Remaining(l.queue, n, t))
  {
    hide Remaining, Settles, Next;
    if |ps| > 1 {
      var front := ps[..|ps| - 1];
      TurnsSettle(p, front, n, t);
      TurnSettles(ps[|ps| - 2], ps[|ps| - 1], n, t);
    }
  }

  lemma {:induction false} SomeEnd(p: Point, n: nat, t: int) returns (ps: seq<Point>)
    requires Settles(p.queue, p.now, t) && forall id :: id in p.queue ==> id < n
    ensures Ends(p, ps, t)
    decreases Remaining(p.queue, n, t)
  {
    hide Remaining, Settles;
    if Done(p, t) {
      ps := [p];
    } else {
      var id := LeastExists(p.queue);
      var now := Later(p.now, p.queue[id].due);
      var q := Point(Requeued(p.queue, id, now), now);
      assert NextBy(p, q, id, t);
      TurnSettles(p, q, n, t);
      var rest := SomeEnd(q, n, t);
      ps := [p] + rest;
      assert ps[|ps| - 1] == rest[|rest| - 1];
      forall i | 0 < i < |ps| ensures Next(ps[i - 1], ps[i], t) {
        assert i > 1 ==> ps[i - 1] == rest[i - 2] && ps[i] == rest[i - 1];
      }
    }
  }

  lemma {:induction false} IdsBelow(ids: set<nat>) returns (n: nat)
    ensures forall id :: id in ids ==> id < n
  {
    n := 0;
    if ids != {} {
      var id :| id in ids;
      var m := IdsBelow(ids - {id});
      n := if m <= id then id + 1 else m;
      forall o | o in ids ensures o < n {
        assert o == id || o in ids - {id};
      }
    }
  }

  /** From any queue and clock, the loop ends if and only if every task that is due settles.
      If so, whichever of the tasks due first is taken at each turn, the number of turns is
      bounded; and if not, something due is left after any number of turns. */
  lemma LoopEnds(p: Point, t: int) returns (bound: nat)
    ensures (exists ps :: Ends(p, ps, t)) <==> Settles(p.queue, p.now, t)
    ensures Settles(p.queue, p.now, t) ==> forall ps :: Turns(p, ps, t) ==> |ps| <= bound + 1
  {
    hide Remaining, Settles;
    var n := IdsBelow(p.queue.Keys);
    bound := Remaining(p.queue, n, t);
    if Settles(p.queue, p.now, t) {
      var ps := SomeEnd(p, n, t);
    }
    forall ps | Turns(p, ps, t)
      ensures Settles(p.queue, p.now, t) ==> |ps| <= bound + 1
      ensures Done(ps[|ps| - 1], t) ==> Settles(p.queue, p.now, t) {
      TurnsSettle(p, ps, n, t);
      if Done(ps[|ps| - 1], t) {
        DoneSettles(ps[|ps| - 1], t);
      }
    }
  }

  lemma DoneSettles(p: Point, t: int)
    requires Done(p, t)
    ensures Settles(p.queue, p.now, t)
  {
  }

  /** A request with another period would leave a queue from which the loop does not end. */
  lemma UnsettlingRequest(queue: map<nat, Entry>, now: int, t: int, r: Request)
    requires PeriodOk(r.delay, r.interval) && !AllSettle([r], Later(now, t), t)
    ensures !Settles(queue[r.id := Entry(now + r.delay, r.interval)], now, t)
  {
    assert [r][0].interval < 0;
    var q := queue[r.id := Entry(now + r.delay, r.interval)];
    assert r.id in q && q[r.id].due <= t;
  }

  /** With a clock that is not past `t`, that is to say that no task due by `t` has a negative
      period; with a later clock, that no period takes such a task back to `t`. */
  lemma SettlesWhen(queue: map<nat, Entry>, now: int, t: int)
    ensures now <= t ==> (Settles(queue, now, t) <==>
              forall id :: id in queue && queue[id].due <= t ==> queue[id].interval >= 0)
    ensures now > t ==> (Settles(queue, now, t) <==>
              forall id :: id in queue && queue[id].due <= t ==> queue[id].interval == 0 || now + queue[id].interval > t)
  {
  }

  /** A task that asks to run every second backwards keeps the loop going for ever. */
  lemma NeverEnds(ps: seq<Point>)
    ensures !Ends(Point(map[0 := Entry(-1, -1)], 0), ps, 0)
  {
    var p := Point(map[0 := Entry(-1, -1)], 0);
    assert 0 in p.queue && !Settles(p.queue, p.now, 0);
    var _ := LoopEnds(p, 0);
  }
}
