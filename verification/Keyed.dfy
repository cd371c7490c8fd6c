/**
  `by`: one copy of a stream per key, and `changed_state`, which is built on it.
 */
module Keyed {
  import opened Events
  import opened Streams

  // ------------------------------------------------------------------------- keys

  /** The key of an event: the values of its key fields, each followed by a space. */
  function JoinKey(values: seq<string>): string
  {
    if values == [] then "" else values[0] + " " + JoinKey(values[1..])
  }

  predicate NoSpace(values: seq<string>)
  {
    forall i :: 0 <= i < |values| ==> ' ' !in values[i]
  }

  /** Different values can share a key: the fields "a b", "c" and "a", "b c" are not told apart. */
  lemma KeysCollide()
    ensures ["a b", "c"] != ["a", "b c"] && JoinKey(["a b", "c"]) == JoinKey(["a", "b c"])
  {
    assert ["a b", "c"][0] != ["a", "b c"][0];
    assert JoinKey(["a b", "c"]) == "a b" + " " + JoinKey(["c"]);
    assert JoinKey(["a", "b c"]) == "a" + " " + JoinKey(["b c"]);
    assert JoinKey(["c"]) == "c" + " " + "" && JoinKey(["b c"]) == "b c" + " " + "";
  }

  function Spaces(s: string): nat
  {
    if s == "" then 0 else (if s[0] == ' ' then 1 else 0) + Spaces(s[1..])
  }

  lemma {:induction false} SpacesConcat(s: string, t: string)
    ensures Spaces(s + t) == Spaces(s) + Spaces(t)
  {
    if s == "" {
      assert s + t == t;
    } else {
      SpacesConcat(s[1..], t);
      assert (s + t)[1..] == s[1..] + t;
    }
  }

  lemma {:induction false} NoSpaces(s: string)
    ensures Spaces(s) == 0 <==> ' ' !in s
  {
    if s != "" {
      NoSpaces(s[1..]);
    }
  }

  /** A key has one space for each of its values, and those within the values. */
  lemma {:induction false} KeySpaces(a: seq<string>)
    ensures Spaces(JoinKey(a)) >= |a|
    ensures Spaces(JoinKey(a)) == |a| <==> NoSpace(a)
  {
    if a != [] {
      KeySpaces(a[1..]);
      SpacesConcat(a[0] + " ", JoinKey(a[1..]));
      SpacesConcat(a[0], " ");
      NoSpaces(a[0]);
      assert Spaces(" ") == 1 by {
        assert " "[1..] == "";
      }
      assert NoSpace(a) <==> ' ' !in a[0] && NoSpace(a[1..]);
    }
  }

  lemma {:induction false} WordsTellApart(a: seq<string>, b: seq<string>)
    requires |a| == |b| && NoSpace(a) && NoSpace(b) && JoinKey(a) == JoinKey(b)
    ensures a == b
  {
    if a != [] {
      FirstWord(a[0], b[0], JoinKey(a[1..]), JoinKey(b[1..]));
      WordsTellApart(a[1..], b[1..]);
      assert a == [a[0]] + a[1..] && b == [b[0]] + b[1..];
    }
  }

  lemma {:induction false} JoinKeyConcat(a: seq<string>, b: seq<string>)
    ensures JoinKey(a + b) == JoinKey(a) + JoinKey(b)
  {
    if a == [] {
      assert a + b == b && "" + JoinKey(b) == JoinKey(b);
    } else {
      JoinKeyConcat(a[1..], b);
      assert (a + b)[0] == a[0] && (a + b)[1..] == a[1..] + b;
      AssocText(a[0], JoinKey(a[1..]), JoinKey(b));
    }
  }

  lemma AssocText(x: string, y: string, z: string)
    ensures x + " " + (y + z) == (x + " " + y) + z
  {
  }

  lemma JoinTwo(u: string, v: string)
    ensures JoinKey([u, v]) == u + " " + v + " "
  {
    assert [u, v][1..] == [v] && [v][1..] == [];
    assert JoinKey([v]) == v + " " + "";
  }

  /** Two neighbours whose texts can be cut at different spaces. */
  lemma NeighboursCollide(a: seq<string>, i: nat, x: string, y: string)
    requires i + 1 < |a| && x + " " + y == a[i] + " " + a[i + 1]
    ensures JoinKey(a[i := x][i + 1 := y]) == JoinKey(a)
  {
    hide JoinKey;
    var b := a[i := x][i + 1 := y];
    var pre, post := a[..i], a[i + 2..];
    assert a == pre + ([a[i], a[i + 1]] + post) && b == pre + ([x, y] + post);
    JoinKeyConcat(pre, [a[i], a[i + 1]] + post);
    JoinKeyConcat(pre, [x, y] + post);
    JoinKeyConcat([a[i], a[i + 1]], post);
    JoinKeyConcat([x, y], post);
    JoinTwo(a[i], a[i + 1]);
    JoinTwo(x, y);
  }

  /** A space in one of several values lets other values have the same key. */
  lemma SpaceCollides(a: seq<string>, i: nat) returns (b: seq<string>)
    requires i < |a| && |a| > 1 && ' ' in a[i]
    ensures |b| == |a| && b != a && JoinKey(b) == JoinKey(a)
  {
    hide JoinKey;
    var j :| 0 <= j < |a[i]| && a[i][j] == ' ';
    var u, v := a[i][..j], a[i][j + 1..];
    assert a[i] == u + " " + v;
    if i + 1 < |a| {
      var y := v + " " + a[i + 1];
      assert u + " " + y == a[i] + " " + a[i + 1];
      NeighboursCollide(a, i, u, y);
      b := a[i := u][i + 1 := y];
      assert b[i] != a[i];
    } else {
      var x := a[i - 1] + " " + u;
      assert x + " " + v == a[i - 1] + " " + a[i];
      NeighboursCollide(a, i - 1, x, v);
      b := a[i - 1 := x][i := v];
      assert b[i] != a[i];
    }
  }

  /** No other values have the key of `a`. */
  ghost predicate Distinguished(a: seq<string>)
  {
    forall b: seq<string> :: |b| == |a| && JoinKey(b) == JoinKey(a) ==> b == a
  }

  /** A key tells its values apart from all others exactly when no value holds a space, or there
      is only one value. */
  lemma KeysTellApart(a: seq<string>)
    ensures Distinguished(a) <==> NoSpace(a) || |a| <= 1
  {
    if NoSpace(a) || |a| <= 1 {
      forall b: seq<string> | |b| == |a| && JoinKey(b) == JoinKey(a) ensures b == a {
        if NoSpace(a) {
          KeySpaces(a);
          KeySpaces(b);
          WordsTellApart(a, b);
        } else {
          OneValue(a, b);
        }
      }
    } else {
      var i :| 0 <= i < |a| && ' ' in a[i];
      var b := SpaceCollides(a, i);
      assert !(|b| == |a| && JoinKey(b) == JoinKey(a) ==> b == a);
    }
  }

  lemma OneValue(a: seq<string>, b: seq<string>)
    requires |a| == |b| == 1 && JoinKey(a) == JoinKey(b)
    ensures a == b
  {
    assert a[1..] == [] && b[1..] == [];
    assert JoinKey(a) == a[0] + " " && JoinKey(b) == b[0] + " ";
    assert a[0] == JoinKey(a)[..|JoinKey(a)| - 1] && b[0] == JoinKey(b)[..|JoinKey(b)| - 1];
  }

  lemma FirstWord(u: string, v: string, x: string, y: string)
    requires ' ' !in u && ' ' !in v && u + " " + x == v + " " + y
    ensures u == v && x == y
  {
    var w := u + " " + x;
    assert w[|u|] == ' ' && w[|v|] == ' ';
    assert |u| == |v|;
    assert w[..|u|] == u && w[..|v|] == v;
    assert w[|u| + 1..] == x && w[|v| + 1..] == y;
  }

  // --------------------------------------------------------------------------- by

  /** A key field: how it is read from an event, as text. */
  type Field = Event -> string

  function Values(fields: seq<Field>, e: Event): seq<string>
  {
    seq(|fields|, i requires 0 <= i < |fields| => fields[i](e))
  }

  function KeyOf(fields: seq<Field>, e: Event): string { JoinKey(Values(fields, e)) }

  /** The subsequence of a history with one key. */
  function WithKey(h: seq<Event>, fields: seq<Field>, k: string): seq<Event>
  {
    if h == [] then []
    else
      var front := WithKey(h[..|h| - 1], fields, k);
      if KeyOf(fields, h[|h| - 1]) == k then front + [h[|h| - 1]] else front
  }

  /** The outputs produced for the events with one key, in order. */
  function OutputsFor(h: seq<Event>, outs: seq<seq<Event>>, fields: seq<Field>, k: string): seq<Event>
    requires |h| == |outs|
  {
    if h == [] then []
    else
      var n := |h| - 1;
      var front := OutputsFor(h[..n], outs[..n], fields, k);
      if KeyOf(fields, h[n]) == k then front + outs[n] else front
  }

  lemma {:induction false} PushAllAppended<S, E>(nodes: seq<OnEvent<S, E>>, states: seq<S>, es: seq<E>, e: E)
    requires |nodes| == |states|
    ensures var (s1, o1) := PushAll(nodes, states, es); var (s2, o2) := Push(nodes, s1, e);
      PushAll(nodes, states, es + [e]).0 == s2 && PushAll(nodes, states, es + [e]).1 == o1 + o2
    decreases |es|
  {
    if es == [] {
      assert es + [e] == [e];
      var p := Push(nodes, states, e);
      assert [e][1..] == [];
      assert PushAll(nodes, states, [e]) == (p.0, p.1 + []);
    } else {
      assert (es + [e])[1..] == es[1..] + [e] && (es + [e])[0] == es[0];
      PushAllAppended(nodes, Push(nodes, states, es[0]).0, es[1..], e);
    }
  }

  /** For every key, its copy and its outputs are those of a fresh stream that was given exactly
      the events with that key. */
  ghost predicate Separate<S(!new)>(byMap: map<string, seq<S>>, h: seq<Event>, outs: seq<seq<Event>>, fields: seq<Field>,
                                    nodes: seq<OnEvent<S, Event>>, initial: seq<S>)
  {
    && |nodes| == |initial| && |h| == |outs|
    && forall k :: SeparateAt(byMap, h, outs, fields, nodes, initial, k)
  }

  ghost predicate SeparateAt<S(!new)>(byMap: map<string, seq<S>>, h: seq<Event>, outs: seq<seq<Event>>, fields: seq<Field>,
                                      nodes: seq<OnEvent<S, Event>>, initial: seq<S>, k: string)
    requires |nodes| == |initial| && |h| == |outs|
  {
    var mine := WithKey(h, fields, k);
    && (k in byMap <==> mine != [])
    && (k in byMap ==> byMap[k] == PushAll(nodes, initial, mine).0)
    && OutputsFor(h, outs, fields, k) == PushAll(nodes, initial, mine).1
  }

  /** The copy of a key, before its next event. */
  function StatesOf<S>(byMap: map<string, seq<S>>, initial: seq<S>, k: string): seq<S>
  {
    if k in byMap then byMap[k] else initial
  }

  lemma OneMore<S(!new)>(byMap: map<string, seq<S>>, h: seq<Event>, outs: seq<seq<Event>>, fields: seq<Field>,
                         nodes: seq<OnEvent<S, Event>>, initial: seq<S>, e: Event)
    requires Separate(byMap, h, outs, fields, nodes, initial)
    ensures |StatesOf(byMap, initial, KeyOf(fields, e))| == |nodes|
    ensures var k := KeyOf(fields, e); var (states, out) := Push(nodes, StatesOf(byMap, initial, k), e);
      Separate(byMap[k := states], h + [e], outs + [out], fields, nodes, initial)
  {
    hide PushAll, Push, WithKey, OutputsFor, KeyOf;
    var k := KeyOf(fields, e);
    var mine := WithKey(h, fields, k);
    assert SeparateAt(byMap, h, outs, fields, nodes, initial, k);
    NoEventsIn(nodes, initial);
    assert StatesOf(byMap, initial, k) == PushAll(nodes, initial, mine).0;
    PushAllAppended(nodes, initial, mine, e);
    var (states, out) := Push(nodes, StatesOf(byMap, initial, k), e);
    var byMap', h', outs' := byMap[k := states], h + [e], outs + [out];
    forall o ensures SeparateAt(byMap', h', outs', fields, nodes, initial, o) {
      assert SeparateAt(byMap, h, outs, fields, nodes, initial, o);
      Appended(h, outs, fields, e, out, o);
      assert o != k ==> mine + [] == mine && WithKey(h', fields, o) == WithKey(h, fields, o);
    }
  }

  /** One copy of the stream `nodes` per key. */
  class By<S(!new)> {
    var byMap: map<string, seq<S>>
    const fields: seq<Field>
    const nodes: seq<OnEvent<S, Event>>
    const initial: seq<S>
    ghost var history: seq<Event>
    ghost var outputs: seq<seq<Event>>

    ghost predicate Valid()
      reads this
    {
      Separate(byMap, history, outputs, fields, nodes, initial)
    }

    constructor (fields: seq<Field>, nodes: seq<OnEvent<S, Event>>, states: seq<S>)
      requires |nodes| == |states|
      ensures Valid() && history == [] && this.fields == fields && this.nodes == nodes && initial == states
    {
      this.fields, this.nodes, this.initial := fields, nodes, states;
      byMap, history, outputs := map[], [], [];
    }

    method OnEvent(e: Event) returns (out: seq<Event>)
      requires Valid()
      modifies this
      ensures Valid()
      ensures fields == [] ==> out == [] && history == old(history) && outputs == old(outputs) && byMap == old(byMap)
      ensures fields != [] ==> history == old(history) + [e] && outputs == old(outputs) + [out]
    {
      hide Separate, Push, KeyOf;
      if fields == [] {
        return [];
      }
      var k := JoinFields(fields, e);
      OneMore(byMap, history, outputs, fields, nodes, initial, e);
      var (states, o) := Push(nodes, StatesOf(byMap, initial, k), e);
      out := o;
      byMap := byMap[k := states];
      history, outputs := history + [e], outputs + [out];
    }
  }

  /** The key is put together field by field. */
  method JoinFields(fields: seq<Field>, e: Event) returns (key: string)
    ensures key == KeyOf(fields, e)
  {
    key := "";
    var values := Values(fields, e);
    for i := 0 to |fields|
      invariant key == JoinKey(values[..i])
    {
      JoinKeyConcat(values[..i], [values[i]]);
      assert values[..i + 1] == values[..i] + [values[i]];
      assert [values[i]][1..] == [] && JoinKey([values[i]]) == values[i] + " " + "";
      key := key + (fields[i](e) + " ");
    }
    assert values[..|fields|] == values;
  }

  lemma Appended(h: seq<Event>, outs: seq<seq<Event>>, fields: seq<Field>, e: Event, out: seq<Event>, k: string)
    requires |h| == |outs|
    ensures WithKey(h + [e], fields, k) == WithKey(h, fields, k) + if KeyOf(fields, e) == k then [e] else []
    ensures OutputsFor(h + [e], outs + [out], fields, k)
         == OutputsFor(h, outs, fields, k) + if KeyOf(fields, e) == k then out else []
  {
    assert (h + [e])[..|h|] == h && (outs + [out])[..|h|] == outs;
  }

  // ---------------------------------------------------------------- changed_state

  /** `changed_state_`: pass an event on if its state is not the previous event's. */
  function ChangedState(prev: string, e: Event): (string, seq<Event>)
  {
    if prev == e.state then (prev, []) else (e.state, [e])
  }

  const CHANGED_STATE: seq<OnEvent<string, Event>> := [ChangedState]

  /** The events at which the state changes. */
  function Changes(initial: string, es: seq<Event>): seq<Event>
  {
    if es == [] then []
    else
      var n := |es| - 1;
      var prev := if n == 0 then initial else es[n - 1].state;
      Changes(initial, es[..n]) + if es[n].state != prev then [es[n]] else []
  }

  /** No two neighbours share a state, and the first differs from the initial state. */
  predicate Alternates(initial: string, es: seq<Event>)
  {
    && (es != [] ==> es[0].state != initial)
    && forall i :: 0 < i < |es| ==> es[i].state != es[i - 1].state
  }

  lemma {:induction false} ChangedStateRun(initial: string, es: seq<Event>)
    ensures var (s, out) := PushAll(CHANGED_STATE, [initial], es);
      && s == [if es == [] then initial else es[|es| - 1].state]
      && out == Changes(initial, es)
  {
    if es != [] {
      var n := |es| - 1;
      ChangedStateRun(initial, es[..n]);
      PushAllAppended(CHANGED_STATE, [initial], es[..n], es[n]);
      assert es[..n] + [es[n]] == es;
      PushOne(if n == 0 then initial else es[n - 1].state, es[n]);
    }
  }

  lemma PushOne(prev: string, e: Event)
    ensures Push(CHANGED_STATE, [prev], e).0 == [ChangedState(prev, e).0]
    ensures Push(CHANGED_STATE, [prev], e).1 == ChangedState(prev, e).1
  {
    var f := CHANGED_STATE[0];
    var (s1, o1) := f(prev, e);
    assert [e][1..] == [];
    assert RunNode(f, prev, [e]) == (s1, o1 + []);
    assert CHANGED_STATE[1..] == [] && [prev][1..] == [];
    assert Feed(CHANGED_STATE, [prev], [e]) == ([s1] + [], o1 + []);
  }

  /** The state after a history. */
  function Final(initial: string, es: seq<Event>): string
  {
    if es == [] then initial else es[|es| - 1].state
  }

  /** What is passed on alternates, and ends in the state the history ends in. */
  lemma {:induction false} ChangesAlternate(initial: string, es: seq<Event>)
    ensures Alternates(initial, Changes(initial, es))
    ensures Final(initial, Changes(initial, es)) == Final(initial, es)
  {
    if es != [] {
      var n := |es| - 1;
      ChangesAlternate(initial, es[..n]);
      assert Final(initial, es[..n]) == if n == 0 then initial else es[n - 1].state;
      if es[n].state != Final(initial, es[..n]) {
        AlternatesAppended(initial, Changes(initial, es[..n]), es[n]);
      }
    }
  }

  lemma AlternatesAppended(initial: string, es: seq<Event>, e: Event)
    requires Alternates(initial, es) && e.state != Final(initial, es)
    ensures Alternates(initial, es + [e])
  {
  }

  /** For every key of `changed_state`, what is passed on for the key alternates. */
  lemma KeyedChangesAlternate(b: By<string>, first: string, k: string)
    requires b.Valid() && b.nodes == CHANGED_STATE && b.initial == [first]
    ensures var out := OutputsFor(b.history, b.outputs, b.fields, k);
      out == Changes(first, WithKey(b.history, b.fields, k)) && Alternates(first, out)
  {
    hide PushAll;
    assert SeparateAt(b.byMap, b.history, b.outputs, b.fields, b.nodes, b.initial, k);
    ChangedStateRun(first, WithKey(b.history, b.fields, k));
    ChangesAlternate(first, WithKey(b.history, b.fields, k));
  }

  function Host(e: Event): string { e.host }
  function Service(e: Event): string { e.service }

  const HOST_AND_SERVICE: seq<Field> := [Host, Service]

  /** The events of one service on one host. */
  function OfService(h: seq<Event>, host: string, service: string): seq<Event>
  {
    if h == [] then []
    else
      var e := h[|h| - 1];
      OfService(h[..|h| - 1], host, service) + if e.host == host && e.service == service then [e] else []
  }

  lemma HostAndService(e: Event)
    ensures Values(HOST_AND_SERVICE, e) == [e.host, e.service]
    ensures KeyOf(HOST_AND_SERVICE, e) == JoinKey([e.host, e.service])
  {
    var host, service := HOST_AND_SERVICE[0], HOST_AND_SERVICE[1];
    assert host(e) == Host(e) && service(e) == Service(e);
    assert Values(HOST_AND_SERVICE, e)[0] == e.host && Values(HOST_AND_SERVICE, e)[1] == e.service;
  }

  lemma {:induction false} KeyIsService(h: seq<Event>, host: string, service: string)
    requires Distinguished([host, service])
    ensures WithKey(h, HOST_AND_SERVICE, JoinKey([host, service])) == OfService(h, host, service)
  {
    hide JoinKey;
    if h != [] {
      var e := h[|h| - 1];
      KeyIsService(h[..|h| - 1], host, service);
      HostAndService(e);
      if JoinKey([e.host, e.service]) == JoinKey([host, service]) {
        assert [e.host, e.service] == [host, service];
        assert [e.host, e.service][0] == host && [e.host, e.service][1] == service;
      }
    }
  }

  /** `changed_state`: for a host and a service without spaces, what is passed on is exactly the
      changes of state of that service on that host. */
  lemma ServiceChanges(b: By<string>, first: string, host: string, service: string)
    requires b.Valid() && b.nodes == CHANGED_STATE && b.initial == [first] && b.fields == HOST_AND_SERVICE
    requires ' ' !in host && ' ' !in service
    ensures var out := OutputsFor(b.history, b.outputs, b.fields, JoinKey([host, service]));
      out == Changes(first, OfService(b.history, host, service)) && Alternates(first, out)
  {
    hide JoinKey, Distinguished;
    KeysTellApart([host, service]);
    KeyIsService(b.history, host, service);
    KeyedChangesAlternate(b, first, JoinKey([host, service]));
  }
}
