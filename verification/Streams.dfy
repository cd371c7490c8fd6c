/**
  Streams: a stream is a list of stateful nodes; an event is pushed through it breadth
  first, all outputs of a node going to the next node before any goes further.
 */
module Streams {
  import opened Options

  /** What a node does with an event: its new state and the events it passes on. */
  type OnEvent<!S, !E> = (S, E) -> (S, seq<E>)

  /** A whole sequence of events through one node. */
  function RunNode<S, E>(f: OnEvent<S, E>, s: S, es: seq<E>): (S, seq<E>)
  {
    if es == [] then (s, [])
    else
      var (s1, o1) := f(s, es[0]);
      var (s2, o2) := RunNode(f, s1, es[1..]);
      (s2, o1 + o2)
  }

  /** A whole sequence of events through all nodes, one node after the other. */
  function Feed<S, E>(nodes: seq<OnEvent<S, E>>, states: seq<S>, es: seq<E>): (r: (seq<S>, seq<E>))
    requires |nodes| == |states|
    ensures |r.0| == |states|
  {
    if nodes == [] then ([], es)
    else
      var (s, o) := RunNode(nodes[0], states[0], es);
      var (rest, out) := Feed(nodes[1..], states[1..], o);
      ([s] + rest, out)
  }

  /** One event pushed through a stream: an empty stream passes nothing on. */
  function Push<S, E>(nodes: seq<OnEvent<S, E>>, states: seq<S>, e: E): (r: (seq<S>, seq<E>))
    requires |nodes| == |states|
    ensures |r.0| == |states|
  {
    if nodes == [] then (states, []) else Feed(nodes, states, [e])
  }

  /** Events pushed through a stream one at a time. */
  function PushAll<S, E>(nodes: seq<OnEvent<S, E>>, states: seq<S>, es: seq<E>): (r: (seq<S>, seq<E>))
    requires |nodes| == |states|
    ensures |r.0| == |states|
    decreases |es|
  {
    if es == [] then (states, [])
    else
      var (s1, o1) := Push(nodes, states, es[0]);
      var (s2, o2) := PushAll(nodes, s1, es[1..]);
      (s2, o1 + o2)
  }

  /** One event through one node is what the node does with it; with the law for concatenation
      this is all there is to a node. */
  lemma RunNodeOne<S, E>(f: OnEvent<S, E>, s: S, e: E)
    ensures RunNode(f, s, [e]).0 == f(s, e).0 && RunNode(f, s, [e]).1 == f(s, e).1
  {
    assert [e][1..] == [];
    assert f(s, e).1 + [] == f(s, e).1;
  }

  /** A stream of one node is the node. */
  lemma FeedOne<S, E>(f: OnEvent<S, E>, s: S, es: seq<E>)
    ensures Feed([f], [s], es).0 == [RunNode(f, s, es).0] && Feed([f], [s], es).1 == RunNode(f, s, es).1
  {
    assert [f][1..] == [] && [s][1..] == [];
  }

  lemma {:induction false} RunNodeConcat<S, E>(f: OnEvent<S, E>, s: S, x: seq<E>, y: seq<E>)
    ensures var (s1, o1) := RunNode(f, s, x); var (s2, o2) := RunNode(f, s1, y);
      RunNode(f, s, x + y).0 == s2 && RunNode(f, s, x + y).1 == o1 + o2
  {
    if x == [] {
      assert x + y == y;
    } else {
      assert (x + y)[1..] == x[1..] + y;
      RunNodeConcat(f, f(s, x[0]).0, x[1..], y);
    }
  }

  lemma {:induction false} FeedConcat<S, E>(nodes: seq<OnEvent<S, E>>, states: seq<S>, x: seq<E>, y: seq<E>)
    requires |nodes| == |states|
    ensures var (s1, o1) := Feed(nodes, states, x); var (s2, o2) := Feed(nodes, s1, y);
      Feed(nodes, states, x + y).0 == s2 && Feed(nodes, states, x + y).1 == o1 + o2
    decreases |nodes|
  {
    if nodes != [] {
      var f := nodes[0];
      RunNodeConcat(f, states[0], x, y);
      var (s1, o1) := RunNode(f, states[0], x);
      var (s2, o2) := RunNode(f, s1, y);
      var tail := nodes[1..];
      FeedConcat(tail, states[1..], o1, o2);
      var mid := Feed(nodes, states, x).0;
      assert mid[1..] == Feed(tail, states[1..], o1).0 && mid[0] == s1;
    }
  }

  lemma {:induction false} FeedNothing<S, E>(nodes: seq<OnEvent<S, E>>, states: seq<S>)
    requires |nodes| == |states|
    ensures Feed(nodes, states, []).0 == states && Feed(nodes, states, []).1 == []
    decreases |nodes|
  {
    if nodes != [] {
      FeedNothing(nodes[1..], states[1..]);
    }
  }

  /** Pushing events one at a time is the same as running the whole sequence node by node. */
  lemma {:induction false} PushAllIsFeed<S, E>(nodes: seq<OnEvent<S, E>>, states: seq<S>, es: seq<E>)
    requires |nodes| == |states| && nodes != []
    ensures PushAll(nodes, states, es).0 == Feed(nodes, states, es).0
    ensures PushAll(nodes, states, es).1 == Feed(nodes, states, es).1
    decreases |es|
  {
    if es == [] {
      FeedNothing(nodes, states);
    } else {
      FeedConcat(nodes, states, [es[0]], es[1..]);
      assert [es[0]] + es[1..] == es;
      PushAllIsFeed(nodes, Push(nodes, states, es[0]).0, es[1..]);
    }
  }

  lemma {:induction false} FeedJoin<S, E>(a: seq<OnEvent<S, E>>, sa: seq<S>, b: seq<OnEvent<S, E>>, sb: seq<S>, es: seq<E>)
    requires |a| == |sa| && |b| == |sb|
    ensures var (sa', oa) := Feed(a, sa, es); var (sb', ob) := Feed(b, sb, oa);
      Feed(a + b, sa + sb, es).0 == sa' + sb' && Feed(a + b, sa + sb, es).1 == ob
    decreases |a|
  {
    if a == [] {
      assert a + b == b && sa + sb == sb;
    } else {
      assert (a + b)[1..] == a[1..] + b && (sa + sb)[1..] == sa[1..] + sb;
      FeedJoin(a[1..], sa[1..], b, sb, RunNode(a[0], sa[0], es).1);
    }
  }

  /**
    Composition: pushing any sequence of events through `a >> b` gives the outputs and the
    final states of pushing it through `a`, and all of its outputs through `b`.
   */
  lemma Compose<S, E>(a: seq<OnEvent<S, E>>, sa: seq<S>, b: seq<OnEvent<S, E>>, sb: seq<S>, es: seq<E>)
    requires |a| == |sa| && |b| == |sb| && a != [] && b != []
    ensures var (sa', oa) := PushAll(a, sa, es); var (sb', ob) := PushAll(b, sb, oa);
      PushAll(a + b, sa + sb, es).0 == sa' + sb' && PushAll(a + b, sa + sb, es).1 == ob
  {
    PushAllIsFeed(a + b, sa + sb, es);
    PushAllIsFeed(a, sa, es);
    PushAllIsFeed(b, sb, Feed(a, sa, es).1);
    FeedJoin(a, sa, b, sb, es);
  }

  lemma {:induction false} PushAllEmpty<S, E>(nodes: seq<OnEvent<S, E>>, states: seq<S>, es: seq<E>)
    requires nodes == [] && states == []
    ensures PushAll(nodes, states, es).0 == [] && PushAll(nodes, states, es).1 == []
    decreases |es|
  {
    if es != [] {
      PushAllEmpty(nodes, states, es[1..]);
    }
  }

  /** The law of composition for given streams and events. */
  predicate Composes<S(==), E(==)>(a: seq<OnEvent<S, E>>, sa: seq<S>, b: seq<OnEvent<S, E>>, sb: seq<S>, es: seq<E>)
    requires |a| == |sa| && |b| == |sb|
  {
    var (sa', oa) := PushAll(a, sa, es);
    var (sb', ob) := PushAll(b, sb, oa);
    PushAll(a + b, sa + sb, es).0 == sa' + sb' && PushAll(a + b, sa + sb, es).1 == ob
  }

  /** The law for all streams of given lengths. */
  ghost predicate AlwaysComposes<S(!new), E(!new)>(m: nat, n: nat)
  {
    forall a: seq<OnEvent<S, E>>, sa: seq<S>, b: seq<OnEvent<S, E>>, sb: seq<S>, es: seq<E> ::
      |a| == |sa| == m && |b| == |sb| == n ==> Composes(a, sa, b, sb, es)
  }

  function PassOn<S, E>(s: S, e: E): (S, seq<E>) { (s, [e]) }

  /** Nodes that pass everything on. */
  lemma {:induction false} FeedPassesOn<S, E>(nodes: seq<OnEvent<S, E>>, states: seq<S>, e: E)
    requires |nodes| == |states| && forall i :: 0 <= i < |nodes| ==> nodes[i] == PassOn<S, E>
    ensures Feed(nodes, states, [e]).1 == [e]
    decreases |nodes|
  {
    if nodes != [] {
      var f := nodes[0];
      assert f(states[0], e) == PassOn(states[0], e);
      assert [e][1..] == [] && [e] + [] == [e];
      assert RunNode(f, states[0], [e]).1 == [e];
      FeedPassesOn(nodes[1..], states[1..], e);
    }
  }

  /** One event comes out of a stream of such nodes, if there are any. */
  lemma PushPassesOn<S, E>(nodes: seq<OnEvent<S, E>>, states: seq<S>, e: E)
    requires |nodes| == |states| && forall i :: 0 <= i < |nodes| ==> nodes[i] == PassOn<S, E>
    ensures PushAll(nodes, states, [e]).1 == if nodes == [] then [] else [e]
  {
    if nodes == [] {
      PushAllEmpty(nodes, states, [e]);
    } else {
      PushAllIsFeed(nodes, states, [e]);
      FeedPassesOn(nodes, states, e);
    }
  }

  /**
    An empty stream swallows every event instead of passing it on.  So the law of composition
    holds for all streams of two lengths exactly when both are empty or neither is; `s` and
    `e` only witness that there is a state and an event at all.
   */
  lemma ComposesExactly<S(!new), E(!new)>(m: nat, n: nat, s: S, e: E)
    ensures AlwaysComposes<S, E>(m, n) <==> (m == 0 <==> n == 0)
  {
    if m == 0 <==> n == 0 {
      forall a: seq<OnEvent<S, E>>, sa: seq<S>, b: seq<OnEvent<S, E>>, sb: seq<S>, es: seq<E>
        | |a| == |sa| == m && |b| == |sb| == n ensures Composes(a, sa, b, sb, es) {
        if m > 0 {
          Compose(a, sa, b, sb, es);
        } else {
          PushAllEmpty(a, sa, es);
          PushAllEmpty(b, sb, PushAll(a, sa, es).1);
          assert a + b == [] && sa + sb == [];
          PushAllEmpty(a + b, sa + sb, es);
        }
      }
    } else {
      SwallowsOne(m, n, s, e);
    }
  }

  /** The failing input: one side passes everything on, and the other is empty. */
  lemma SwallowsOne<S(!new), E(!new)>(m: nat, n: nat, s: S, e: E)
    requires (m == 0) != (n == 0)
    ensures !AlwaysComposes<S, E>(m, n)
  {
    var a: seq<OnEvent<S, E>> := seq(m, _ => PassOn);
    var b: seq<OnEvent<S, E>> := seq(n, _ => PassOn);
    var sa, sb := seq(m, _ => s), seq(n, _ => s);
    PushPassesOn(a, sa, e);
    PushPassesOn(a + b, sa + sb, e);
    if m == 0 {
      NoEventsIn(b, sb);
    } else {
      PushPassesOn(b, sb, e);
    }
    assert !Composes(a, sa, b, sb, [e]);
  }

  lemma NoEventsIn<S, E>(nodes: seq<OnEvent<S, E>>, states: seq<S>)
    requires |nodes| == |states|
    ensures PushAll(nodes, states, []) == (states, [])
  {
  }

  /** After `i` nodes, with `pending` still to go through the rest. */
  ghost predicate Reached<S, E>(nodes: seq<OnEvent<S, E>>, start: seq<S>, event: E, states: seq<S>, i: nat, pending: seq<E>)
  {
    && |nodes| == |start| == |states| && i <= |nodes| && states[i..] == start[i..]
    && var (rest, out) := Feed(nodes[i..], states[i..], pending);
    && Feed(nodes, start, [event]).0 == states[..i] + rest
    && Feed(nodes, start, [event]).1 == out
  }

  lemma ReachedStart<S, E>(nodes: seq<OnEvent<S, E>>, states: seq<S>, event: E)
    requires |nodes| == |states|
    ensures Reached(nodes, states, event, states, 0, [event])
  {
    assert nodes[0..] == nodes && states[0..] == states;
  }

  lemma ReachedNext<S, E>(nodes: seq<OnEvent<S, E>>, start: seq<S>, event: E, states: seq<S>, i: nat, pending: seq<E>)
    requires Reached(nodes, start, event, states, i, pending) && i < |nodes|
    ensures var (s, o) := RunNode(nodes[i], states[i], pending);
      Reached(nodes, start, event, states[i := s], i + 1, o)
  {
    var (s, o) := RunNode(nodes[i], states[i], pending);
    var states' := states[i := s];
    assert nodes[i..][1..] == nodes[i + 1..] && states[i..][1..] == states[i + 1..];
    assert states'[i + 1..] == states[i + 1..] == start[i + 1..];
    assert states'[..i + 1] == states[..i] + [s];
  }

  /** With nothing pending, or no nodes left, the push is complete. */
  lemma ReachedEnd<S, E>(nodes: seq<OnEvent<S, E>>, start: seq<S>, event: E, states: seq<S>, i: nat, pending: seq<E>)
    requires Reached(nodes, start, event, states, i, pending) && (i == |nodes| || pending == [])
    ensures Feed(nodes, start, [event]).0 == states && Feed(nodes, start, [event]).1 == pending
  {
    if pending == [] {
      FeedNothing(nodes[i..], states[i..]);
    }
    assert states[..i] + states[i..] == states;
  }

  /** A stream with its nodes' states. */
  class Stream<S, E> {
    const nodes: seq<OnEvent<S, E>>
    var states: seq<S>

    ghost predicate Valid() reads this { |nodes| == |states| }

    constructor (nodes: seq<OnEvent<S, E>>, states: seq<S>)
      requires |nodes| == |states|
      ensures Valid() && this.nodes == nodes && this.states == states
    {
      this.nodes, this.states := nodes, states;
    }

    /** Push one event, node by node; stop as soon as a node passes nothing on. */
    method PushEvent(event: E) returns (next: seq<E>)
      requires Valid()
      modifies this
      ensures Valid() && states == Push(nodes, old(states), event).0
      ensures next == Push(nodes, old(states), event).1
    {
      hide Reached, RunNode;
      next := [];
      var i := 0;
      assert Reached(nodes, states, event, states, 0, [event]) by {
        ReachedStart(nodes, states, event);
      }
      while i < |nodes|
        invariant 0 <= i <= |nodes| && |states| == |nodes|
        invariant if i == 0 then next == [] && states == old(states) else next != []
        invariant Reached(nodes, old(states), event, states, i, if i == 0 then [event] else next)
      {
        var pending := if next == [] then [event] else next;
        var s, o := RunOne(nodes[i], states[i], pending);
        ReachedNext(nodes, old(states), event, states, i, pending);
        states, next := states[i := s], o;
        if next == [] {
          ReachedEnd(nodes, old(states), event, states, i + 1, next);
          return;
        }
        i := i + 1;
      }
      if i > 0 {
        ReachedEnd(nodes, old(states), event, states, i, next);
      }
    }

    /** All pending events through one node. */
    static method RunOne(f: OnEvent<S, E>, s: S, es: seq<E>) returns (s': S, out: seq<E>)
      ensures s' == RunNode(f, s, es).0 && out == RunNode(f, s, es).1
    {
      s', out := s, [];
      assert es[..0] == [];
      for i := 0 to |es|
        invariant s' == RunNode(f, s, es[..i]).0 && out == RunNode(f, s, es[..i]).1
      {
        var (t, o) := f(s', es[i]);
        assert es[..i + 1] == es[..i] + [es[i]];
        RunNodeConcat(f, s, es[..i], [es[i]]);
        s', out := t, out + o;
      }
      assert es[..|es|] == es;
    }
  }

  // ---------------------------------------------------------------- initialisation

  /** A node before and after initialisation: what it was made from, and its forward stream. */
  datatype Node<T> = Node(make: T, forward: Option<seq<Node<T>>>)

  /** Every node gets the initialised rest of the stream to forward to. */
  function Initialised<T>(s: seq<Node<T>>): (r: seq<Node<T>>)
    ensures |r| == |s|
  {
    if s == [] then []
    else
      var rest := Initialised(s[1..]);
      [Node(s[0].make, Some(rest))] + rest
  }

  /** Node `i` forwards to exactly the nodes after it, and initialising those alone, or all
      of them again, changes nothing: every copy a node makes of its forward stream is alike. */
  lemma {:induction false} ForwardIsSuffix<T>(s: seq<Node<T>>, i: nat)
    requires i < |s|
    ensures Initialised(s)[i] == Node(s[i].make, Some(Initialised(s)[i + 1..]))
    ensures Initialised(s)[i + 1..] == Initialised(s[i + 1..])
    ensures Initialised(Initialised(s)[i + 1..]) == Initialised(s)[i + 1..]
  {
    var rest := Initialised(s[1..]);
    if i > 0 {
      ForwardIsSuffix(s[1..], i - 1);
      assert s[1..][i..] == s[i + 1..];
      assert Initialised(s)[i + 1..] == rest[i..];
    } else {
      assert Initialised(s)[1..] == rest;
      Idempotent(s[1..]);
    }
  }

  lemma {:induction false} Idempotent<T>(s: seq<Node<T>>)
    ensures Initialised(Initialised(s)) == Initialised(s)
  {
    if s != [] {
      Idempotent(s[1..]);
      assert Initialised(s)[1..] == Initialised(s[1..]);
    }
  }

  /** Initialise the nodes from the last to the first. */
  method InitStreams<T>(streams: array<Node<T>>)
    modifies streams
    ensures streams[..] == Initialised(old(streams[..]))
  {
    ghost var was := streams[..];
    var n := streams.Length;
    var j := 0;
    while j < n
      invariant 0 <= j <= n
      invariant streams[n - j..] == Initialised(was[n - j..])
      invariant forall k :: 0 <= k < n - j ==> streams[k] == was[k]
    {
      var i := n - 1 - j;
      var suffix := streams[n - j..];
      streams[i] := Node(streams[i].make, Some(suffix));
      assert was[i..][1..] == was[n - j..];
      assert streams[n - j..] == suffix;
      assert streams[i..] == [streams[i]] + streams[n - j..];
      j := j + 1;
    }
    assert streams[0..] == streams[..] && was[0..] == was;
  }
}
