/** The moving time window: events of the last `dt` seconds, by a queue popped as time advances. */
module MovingWindow {
  import opened Options
  import opened Events
  import opened TimeQueue

  /** The latest time of a history; it starts at 0. */
  function Latest(h: seq<Event>): int
  {
    if h == [] then 0
    else
      var m, t := Latest(h[..|h| - 1]), h[|h| - 1].time;
      if t > m then t else m
  }

  /** What an event must satisfy to be in the window. */
  predicate InWindow(h: seq<Event>, dt: int, e: Event)
  {
    Latest(h) < dt || e.time > Latest(h) - dt
  }

  /** `q` holds the events of the history that are in the window, as often as they came. */
  ghost predicate IsWindow(q: multiset<Event>, h: seq<Event>, dt: int)
  {
    forall e :: q[e] == if InWindow(h, dt, e) then multiset(h)[e] else 0
  }

  lemma {:induction false} LatestBounds(h: seq<Event>)
    ensures Latest(h) >= 0 && forall i :: 0 <= i < |h| ==> h[i].time <= Latest(h)
    ensures Latest(h) == 0 || exists i :: 0 <= i < |h| && h[i].time == Latest(h)
  {
    if h != [] {
      var front := h[..|h| - 1];
      LatestBounds(front);
      assert forall i :: 0 <= i < |front| ==> front[i] == h[i];
    }
  }

  /** With event times that are not negative, the window is the events later than `dt` before the latest. */
  lemma WindowOfNatural(h: seq<Event>, dt: int, e: Event)
    requires e in h && e.time >= 0
    ensures InWindow(h, dt, e) <==> e.time > Latest(h) - dt
  {
  }

  class MovingTimeWindow {
    var pq: multiset<Event>
    var max: int
    const dt: int
    ghost var history: seq<Event>

    ghost predicate Valid()
      reads this
    {
      max == Latest(history) && IsWindow(pq, history, dt)
    }

    constructor (dt: int)
      ensures Valid() && history == [] && this.dt == dt
    {
      this.dt := dt;
      pq, max, history := multiset{}, 0, [];
    }

    /** The events handed to the fold, or nothing for an event without a time. */
    method OnEvent(e: Event) returns (events: Option<seq<Event>>)
      requires Valid()
      modifies this
      ensures Valid()
      ensures history == if e.hasTime then old(history) + [e] else old(history)
      ensures events.Some? <==> e.hasTime
      ensures events.Some? ==> SortedByTime(events.value) && IsWindow(multiset(events.value), history, dt)
    {
      hide InWindow, IsWindow, Latest;
      if !e.hasTime {
        return None;
      }
      ghost var h := history + [e];
      assert h[..|h| - 1] == history;
      LatestAppended(history, e);
      if e.time > max {
        max := e.time;
      }
      pq := pq + multiset{e};
      assert pq - multiset{e} == old(pq);
      GrowWindow(pq, h, dt);
      if max >= dt {
        Expire(h);
      } else {
        KeepAll(pq, h, dt);
      }
      history := h;
      var s := Drain(pq);
      events := Some(s);
    }

    /** Pop while the earliest event is too old. */
    method Expire(ghost h: seq<Event>)
      requires max == Latest(h) && max >= dt
      requires forall x: Event :: InWindow(h, dt, x) ==> pq[x] == multiset(h)[x]
      modifies this`pq
      ensures IsWindow(pq, h, dt)
    {
      ghost var all := pq;
      while pq != multiset{}
        invariant pq <= all
        invariant forall x: Event :: x.time > max - dt ==> pq[x] == all[x]
        decreases |pq|
      {
        var top := Top(pq);
        if top.time > max - dt {
          break;
        }
        pq := pq - multiset{top};
      }
    }
  }

  lemma LatestAppended(h: seq<Event>, e: Event)
    ensures Latest(h + [e]) == if e.time > Latest(h) then e.time else Latest(h)
  {
    assert (h + [e])[..|h|] == h;
  }

  /** Before `dt` seconds have passed everything is in the window. */
  lemma KeepAll(q: multiset<Event>, h: seq<Event>, dt: int)
    requires Latest(h) < dt && forall x: Event :: InWindow(h, dt, x) ==> q[x] == multiset(h)[x]
    ensures IsWindow(q, h, dt)
  {
  }

  /** One more event can only shrink the window on what was there before. */
  lemma GrowWindow(q: multiset<Event>, h: seq<Event>, dt: int)
    requires h != [] && h[|h| - 1] in q
    requires IsWindow(q - multiset{h[|h| - 1]}, h[..|h| - 1], dt)
    ensures forall x: Event :: InWindow(h, dt, x) ==> q[x] == multiset(h)[x]
  {
    var e := h[|h| - 1];
    assert h == h[..|h| - 1] + [e];
    assert Latest(h) >= Latest(h[..|h| - 1]);
  }
}
