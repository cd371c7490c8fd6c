/** The fixed time window: accepted events are flushed one `dt`-aligned interval at a time. */
module FixedWindow {
  import opened Options
  import opened Arithmetic
  import opened Events
  import opened TimeQueue

  /** Remainder that truncates toward zero, as the operator of the implementation language does. */
  function Rem(a: int, b: int): int
    requires b > 0
  {
    if a >= 0 then a % b else -((-a) % b)
  }

  function NextInterval(start: int, dt: int): int
    requires dt > 0
  {
    start - Rem(start, dt) + dt
  }

  /** The start of the aligned interval that holds `t`. */
  function Align(t: int, dt: int): int
    requires dt > 0
  {
    t - t % dt
  }

  predicate Aligned(t: int, dt: int)
    requires dt > 0
  {
    t % dt == 0
  }

  /**
    The next interval is the one after the interval of `start` exactly when `start` is
    not negative or is itself aligned; otherwise the remainder rounds the wrong way and
    one interval is skipped.
   */
  lemma NextIntervalIsNext(start: int, dt: int)
    requires dt > 0
    ensures NextInterval(start, dt) == Align(start, dt) + dt <==> start >= 0 || Aligned(start, dt)
    ensures !(start >= 0 || Aligned(start, dt)) ==> NextInterval(start, dt) == Align(start, dt) + 2 * dt
  {
    if start < 0 {
      var m := -start;
      assert m == dt * (m / dt) + m % dt;
      if m % dt == 0 {
        ModOf(-(m / dt), 0, dt);
        assert start == dt * -(m / dt) + 0;
      } else {
        ModOf(-(m / dt) - 1, dt - m % dt, dt);
        assert start == dt * (-(m / dt) - 1) + (dt - m % dt);
      }
    }
  }

  lemma ModOf(q: int, r: int, d: int)
    requires d > 0 && 0 <= r < d
    ensures (d * q + r) % d == r
  {
    var x := d * q + r;
    QuotientUnique(d, q, r, x / d, x % d);
  }

  /** One flush: the events of the interval `[lo, hi)`. */
  datatype Flush = Flush(lo: int, hi: int, events: seq<Event>)

  function Flat(fs: seq<Flush>): seq<Event>
  {
    if fs == [] then [] else Flat(fs[..|fs| - 1]) + fs[|fs| - 1].events
  }

  predicate InInterval(e: Event, f: Flush) { f.lo <= e.time < f.hi }

  /** One flush: aligned, sorted, and within its interval. */
  predicate Proper(f: Flush, dt: int)
    requires dt > 0
  {
    && Aligned(f.lo, dt) && Aligned(f.hi, dt) && f.lo < f.hi && SortedByTime(f.events)
    && forall i :: 0 <= i < |f.events| ==> InInterval(f.events[i], f)
  }

  /** Flushes in order: one interval of length `dt` after the other, from the one that holds the
      first event.  That one ends where the implementation takes the next one to start, which is
      `dt` later too unless the first event's time is negative and not aligned. */
  predicate Ordered(fs: seq<Flush>, first: int, dt: int)
    requires dt > 0
  {
    fs != [] ==>
      var n := |fs| - 1;
      && Proper(fs[n], dt) && Ordered(fs[..n], first, dt)
      && (n > 0 ==> fs[n].lo == fs[n - 1].hi && fs[n].hi == fs[n].lo + dt)
      && (n == 0 ==> fs[0].lo == Align(first, dt) && fs[0].hi == NextInterval(first, dt))
  }

  /** What the flushes and the queue are, given the events accepted so far. */
  ghost predicate Windows(accepted: seq<Event>, fs: seq<Flush>, pq: multiset<Event>, start: int, dt: int)
    requires dt > 0
  {
    && (accepted == [] ==> fs == [])
    && (accepted != [] ==> Ordered(fs, accepted[0].time, dt))
    && (accepted != [] ==> start == if fs == [] then accepted[0].time else fs[|fs| - 1].hi)
    && (forall e :: e in pq ==> start <= e.time)
    && multiset(Flat(fs)) + pq == multiset(accepted)
  }

  lemma FlatLast(fs: seq<Flush>, f: Flush)
    ensures Flat(fs + [f]) == Flat(fs) + f.events
    ensures multiset(Flat(fs + [f])) == multiset(Flat(fs)) + multiset(f.events)
  {
    assert (fs + [f])[..|fs|] == fs;
  }

  /** Everything flushed is before the end of the last interval. */
  lemma {:induction false} BeforeEnd(fs: seq<Flush>, first: int, dt: int)
    requires dt > 0 && Ordered(fs, first, dt) && fs != []
    ensures forall i :: 0 <= i < |Flat(fs)| ==> Flat(fs)[i].time < fs[|fs| - 1].hi
    ensures forall k :: 0 <= k < |fs| - 1 ==> fs[k].hi <= fs[|fs| - 1].lo
  {
    var n := |fs| - 1;
    if n > 0 {
      var front := fs[..n];
      BeforeEnd(front, first, dt);
      assert forall k :: 0 <= k < n ==> fs[k] == front[k];
    }
  }

  /** The concatenation of all flushes is sorted by time. */
  lemma {:induction false} FlatSorted(fs: seq<Flush>, first: int, dt: int)
    requires dt > 0 && Ordered(fs, first, dt)
    ensures SortedByTime(Flat(fs))
  {
    if fs != [] {
      var front := fs[..|fs| - 1];
      FlatSorted(front, first, dt);
      if front != [] {
        BeforeEnd(front, first, dt);
      }
    }
  }

  /** An event can only be in the flush of its own interval. */
  lemma {:induction false} FlatCount(fs: seq<Flush>, first: int, dt: int, k: nat, e: Event)
    requires dt > 0 && Ordered(fs, first, dt) && k < |fs| && InInterval(e, fs[k])
    ensures multiset(Flat(fs))[e] == multiset(fs[k].events)[e] && Proper(fs[k], dt)
  {
    hide SortedByTime, Flat;
    var n := |fs| - 1;
    var front := fs[..n];
    assert fs == front + [fs[n]];
    FlatLast(front, fs[n]);
    if k < n {
      FlatCount(front, first, dt, k, e);
      BeforeEnd(fs, first, dt);
      assert e !in fs[n].events;
    } else if n > 0 {
      BeforeEnd(front, first, dt);
      assert e !in Flat(front);
    } else {
      assert Flat([]) == [] by {
        NoFlushes();
      }
    }
  }

  lemma NoFlushes()
    ensures Flat([]) == []
  {
  }

  lemma {:induction false} EachProper(fs: seq<Flush>, first: int, dt: int, k: nat)
    requires dt > 0 && Ordered(fs, first, dt) && k < |fs|
    ensures Proper(fs[k], dt) && fs[k].hi <= fs[|fs| - 1].hi
    ensures k > 0 ==> fs[k].lo == fs[k - 1].hi && fs[k].hi == fs[k].lo + dt
    ensures k == 0 ==> fs[k].lo == Align(first, dt) && fs[k].hi == NextInterval(first, dt)
  {
    if k < |fs| - 1 {
      EachProper(fs[..|fs| - 1], first, dt, k);
    }
  }

  /**
    Each flush is exactly the accepted events of its interval: every accepted event of
    the interval is in it as often as it was accepted, and is not queued any more.
   */
  lemma FlushIsInterval(accepted: seq<Event>, fs: seq<Flush>, pq: multiset<Event>, start: int, dt: int, k: nat, e: Event)
    requires dt > 0 && Windows(accepted, fs, pq, start, dt) && k < |fs|
    ensures multiset(fs[k].events)[e] == if InInterval(e, fs[k]) then multiset(accepted)[e] else 0
    ensures InInterval(e, fs[k]) ==> e !in pq
  {
    EachProper(fs, accepted[0].time, dt, k);
    if InInterval(e, fs[k]) {
      FlatCount(fs, accepted[0].time, dt, k, e);
    } else {
      assert e !in fs[k].events;
    }
  }

  /** The latest time of the events. */
  predicate IsLatest(t: int, s: seq<Event>)
  {
    && (forall i :: 0 <= i < |s| ==> s[i].time <= t)
    && exists i :: 0 <= i < |s| && s[i].time == t
  }

  lemma LatestOfOne(e: Event)
    ensures IsLatest(e.time, [e])
  {
    assert [e][0].time == e.time;
  }

  lemma LatestOfMore(t: int, s: seq<Event>, e: Event)
    requires IsLatest(t, s)
    ensures IsLatest(if e.time > t then e.time else t, s + [e])
  {
    var i :| 0 <= i < |s| && s[i].time == t;
    assert (s + [e])[i] == s[i] && (s + [e])[|s|] == e;
  }

  class FixedTimeWindow {
    var pq: multiset<Event>
    var start: int
    var max: int
    var started: bool
    const dt: int
    ghost var accepted: seq<Event>
    ghost var flushes: seq<Flush>

    ghost predicate Valid()
      reads this
    {
      && dt > 0
      && Windows(accepted, flushes, pq, start, dt)
      && (!started ==> accepted == [] && flushes == [])
      && (started ==> accepted != [] && IsLatest(max, accepted))
    }

    constructor (dt: int)
      requires dt > 0
      ensures Valid() && !started && this.dt == dt
    {
      this.dt := dt;
      pq, start, max, started := multiset{}, 0, 0, false;
      accepted, flushes := [], [];
    }

    /**
      Events without a time, and events older than the window being filled, are dropped.
      Any other event is accepted; if the latest time has reached the next interval, the
      window being filled is flushed, and handed to the fold unless it is empty.
     */
    method OnEvent(e: Event) returns (flush: Option<seq<Event>>)
      requires Valid()
      modifies this
      ensures Valid()
      ensures !e.hasTime || (old(started) && e.time < old(start)) ==> accepted == old(accepted)
      ensures e.hasTime && (!old(started) || e.time >= old(start)) ==> accepted == old(accepted) + [e]
      ensures old(started) && e.hasTime && e.time >= old(start)
              ==> max == if e.time > old(max) then e.time else old(max)
      ensures if old(started) && e.hasTime && e.time >= old(start) && max >= NextInterval(old(start), dt)
              then |flushes| == |old(flushes)| + 1 && flushes[..|old(flushes)|] == old(flushes)
                   && flushes[|old(flushes)|].lo == Align(old(start), dt)
                   && flushes[|old(flushes)|].hi == NextInterval(old(start), dt)
              else flushes == old(flushes)
      ensures flush == if |flushes| > |old(flushes)| && flushes[|flushes| - 1].events != []
                       then Some(flushes[|flushes| - 1].events) else None
    {
      hide SortedByTime, Windows, NextInterval, Align, Aligned, Popped, IsLatest;
      flush := None;
      if !e.hasTime {
        return;
      }
      if !started {
        FirstEvent(start, dt, e, pq);
        LatestOfOne(e);
        started, start, max := true, e.time, e.time;
        pq := pq + multiset{e};
        accepted := accepted + [e];
        assert accepted == [e];
        return;
      }
      if e.time < start {
        return;
      }
      Take(e);
      if max < NextInterval(start, dt) {
        return;
      }
      flush := FlushWindow();
    }

    /** Accept an event that is not too old. */
    method Take(e: Event)
      requires Valid() && started && e.time >= start
      modifies this`pq, this`max, this`accepted
      ensures Valid() && accepted == old(accepted) + [e] && max == if e.time > old(max) then e.time else old(max)
    {
      hide Windows, IsLatest;
      LatestOfMore(max, accepted, e);
      if e.time > max {
        max := e.time;
      }
      Accept(accepted, flushes, pq, start, dt, e);
      pq := pq + multiset{e};
      accepted := accepted + [e];
    }

    /** Flush the window being filled and start on the next. */
    method FlushWindow() returns (flush: Option<seq<Event>>)
      requires Valid() && started
      modifies this`pq, this`start, this`flushes
      ensures Valid() && start == NextInterval(old(start), dt)
      ensures |flushes| == |old(flushes)| + 1 && flushes[..|old(flushes)|] == old(flushes)
      ensures flushes[|old(flushes)|].lo == Align(old(start), dt)
      ensures flushes[|old(flushes)|].hi == NextInterval(old(start), dt)
      ensures flush == if flushes[|flushes| - 1].events != []
                       then Some(flushes[|flushes| - 1].events) else None
    {
      hide SortedByTime, Windows, NextInterval, Align, Aligned, Popped, IsLatest;
      var next := NextInterval(start, dt);
      var events;
      events, pq := PopBefore(pq, next);
      NewFlush(accepted, flushes, old(pq), start, dt, events, pq);
      flushes := flushes + [Flush(Align(start, dt), NextInterval(start, dt), events)];
      start := next;
      flush := if events != [] then Some(events) else None;
    }
  }

  lemma FirstEvent(start: int, dt: int, e: Event, pq: multiset<Event>)
    requires dt > 0 && Windows([], [], pq, start, dt)
    ensures Windows([e], [], pq + multiset{e}, e.time, dt)
  {
    assert Flat([]) == [];
    assert pq == multiset{};
  }

  lemma AlignFacts(t: int, dt: int)
    requires dt > 0
    ensures Align(t, dt) % dt == 0 && Align(t, dt) <= t < Align(t, dt) + dt
    ensures (Align(t, dt) + dt) % dt == 0 && (Align(t, dt) + 2 * dt) % dt == 0
  {
    ModOf(t / dt, 0, dt);
    ModOf(t / dt + 1, 0, dt);
    ModOf(t / dt + 2, 0, dt);
    assert Align(t, dt) == dt * (t / dt) + 0;
    assert Align(t, dt) + dt == dt * (t / dt + 1) + 0;
    assert Align(t, dt) + 2 * dt == dt * (t / dt + 2) + 0;
  }

  /** The next interval starts at an aligned time after `t`, and after one that starts at an
      aligned time it is `dt` later. */
  lemma NextFacts(t: int, dt: int)
    requires dt > 0
    ensures Aligned(Align(t, dt), dt) && Aligned(NextInterval(t, dt), dt)
    ensures Align(t, dt) <= t < NextInterval(t, dt)
    ensures Aligned(t, dt) ==> Align(t, dt) == t && NextInterval(t, dt) == t + dt
  {
    hide NextInterval;
    AlignFacts(t, dt);
    NextIntervalIsNext(t, dt);
  }

  /** An event that is not too old can be queued. */
  lemma Accept(accepted: seq<Event>, fs: seq<Flush>, pq: multiset<Event>, start: int, dt: int, e: Event)
    requires dt > 0 && accepted != [] && Windows(accepted, fs, pq, start, dt) && start <= e.time
    ensures Windows(accepted + [e], fs, pq + multiset{e}, start, dt)
  {
    hide Flat, Ordered;
    assert multiset(accepted + [e]) == multiset(accepted) + multiset{e};
  }

  /** Moving the events before the next interval from the queue to a new flush. */
  lemma NewFlush(accepted: seq<Event>, fs: seq<Flush>, pq: multiset<Event>, start: int, dt: int,
                 events: seq<Event>, rest: multiset<Event>)
    requires dt > 0 && Windows(accepted, fs, pq, start, dt)
    requires accepted != []
    requires Popped(pq, events, rest)
    requires forall i :: 0 <= i < |events| ==> events[i].time < NextInterval(start, dt)
    requires forall x :: x in rest ==> NextInterval(start, dt) <= x.time
    ensures Windows(accepted, fs + [Flush(Align(start, dt), NextInterval(start, dt), events)], rest, NextInterval(start, dt), dt)
  {
    hide SortedByTime, Flat, NextInterval, Align;
    NextFacts(start, dt);
    var f := Flush(Align(start, dt), NextInterval(start, dt), events);
    forall i | 0 <= i < |events| ensures InInterval(events[i], f) {
      assert events[i] in multiset(events) + rest;
    }
    assert (fs + [f])[..|fs|] == fs;
    FlatLast(fs, f);
  }
}
