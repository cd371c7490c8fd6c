/**
  The priority queue of events that the time windows use: it hands out some event of
  least time.  Which one, among events of equal time, is left open.
 */
module TimeQueue {
  import opened Events

  predicate Earliest(pq: multiset<Event>, e: Event)
  {
    e in pq && forall x :: x in pq ==> e.time <= x.time
  }

  lemma {:induction false} EarliestExists(pq: multiset<Event>) returns (e: Event)
    requires pq != multiset{}
    ensures Earliest(pq, e)
    decreases |pq|
  {
    e :| e in pq;
    var rest := pq - multiset{e};
    if rest != multiset{} {
      var f := EarliestExists(rest);
      if f.time < e.time {
        e := f;
      }
    }
  }

  method Top(pq: multiset<Event>) returns (e: Event)
    requires pq != multiset{}
    ensures Earliest(pq, e)
  {
    ghost var f := EarliestExists(pq);
    e :| Earliest(pq, e);
  }

  /** Part of a queue popped into a list: nothing is lost, and the list is the earlier part. */
  predicate Popped(queue: multiset<Event>, s: seq<Event>, pq: multiset<Event>)
  {
    && multiset(s) + pq == queue && SortedByTime(s)
    && forall i, y :: 0 <= i < |s| && y in pq ==> s[i].time <= y.time
  }

  lemma PopOne(queue: multiset<Event>, s: seq<Event>, pq: multiset<Event>, e: Event)
    requires Popped(queue, s, pq) && Earliest(pq, e)
    ensures Popped(queue, s + [e], pq - multiset{e})
  {
    PopOneCount(queue, s, pq, e);
  }

  lemma PopOneCount(queue: multiset<Event>, s: seq<Event>, pq: multiset<Event>, e: Event)
    requires multiset(s) + pq == queue && e in pq
    ensures multiset(s + [e]) + (pq - multiset{e}) == queue
  {
    assert pq == pq - multiset{e} + multiset{e};
  }

  /** Popping while the earliest event is before `end`. */
  method PopBefore(queue: multiset<Event>, end: int) returns (s: seq<Event>, pq: multiset<Event>)
    ensures Popped(queue, s, pq)
    ensures forall i :: 0 <= i < |s| ==> s[i].time < end
    ensures forall x :: x in pq ==> end <= x.time
  {
    hide SortedByTime;
    s, pq := [], queue;
    assert Popped(queue, s, pq) by {
      NothingPopped(queue);
    }
    while pq != multiset{}
      invariant Popped(queue, s, pq)
      invariant forall i :: 0 <= i < |s| ==> s[i].time < end
      decreases |pq|
    {
      var e := Top(pq);
      if e.time >= end {
        break;
      }
      PopOne(queue, s, pq, e);
      s, pq := s + [e], pq - multiset{e};
    }
  }

  lemma NothingPopped(queue: multiset<Event>)
    ensures Popped(queue, [], queue)
  {
  }

  /** Popping until empty lists the events in order of time. */
  method Drain(queue: multiset<Event>) returns (s: seq<Event>)
    ensures multiset(s) == queue && SortedByTime(s)
  {
    s := [];
    var pq := queue;
    while pq != multiset{}
      invariant Popped(queue, s, pq)
      decreases |pq|
    {
      var e := Top(pq);
      PopOne(queue, s, pq, e);
      s, pq := s + [e], pq - multiset{e};
    }
  }
}
