/**
  The alarm of `stable_metric`: an event is relabelled critical or ok, and the label
  only takes effect once a run of equal labels has lasted `dt` seconds.
 */
module Hysteresis {
  import opened Events

  datatype Rule = Rule(dt: int, trigger: Event -> bool, cancel: Event -> bool) {
    predicate Clears(e: Event) { cancel(e) && !trigger(e) }
  }

  // ---------------------------------------------------------------- the reference

  /** Where the last block of events satisfying `p` begins; the length if the last does not. */
  function BlockStart(h: seq<Event>, p: Event -> bool): (b: nat)
    ensures b <= |h|
  {
    if h == [] || !p(h[|h| - 1]) then |h| else BlockStart(h[..|h| - 1], p)
  }

  predicate Lasts(start: int, dt: int, t: int) { t >= start && t >= start + dt }

  /** The last event ends a block satisfying `p` that has lasted `dt` seconds since its first event. */
  predicate LongBlock(h: seq<Event>, p: Event -> bool, dt: int)
  {
    var b, n := BlockStart(h, p), |h| - 1;
    b < n && h[n].time - h[b].time >= 0 && h[n].time - h[b].time >= dt
  }

  /** The alarm as the design promises it: raised by a long block of triggering events,
      cleared by a long block of cancelling ones. */
  predicate Raised(h: seq<Event>, r: Rule)
  {
    h != [] &&
    if Raised(h[..|h| - 1], r) then !LongBlock(h, r.Clears, r.dt)
    else LongBlock(h, r.trigger, r.dt)
  }

  /** A block is exactly a longest run of events satisfying `p` at the end. */
  lemma {:induction false} BlockIsLongest(h: seq<Event>, p: Event -> bool)
    ensures var b := BlockStart(h, p);
      && (forall i :: b <= i < |h| ==> p(h[i]))
      && (b > 0 && h != [] ==> !p(h[b - 1]))
  {
    if h != [] && p(h[|h| - 1]) {
      BlockIsLongest(h[..|h| - 1], p);
    }
  }

  // ----------------------------------------------------------- the implementation

  /** The state label, as `stable` holds it; it starts out empty. */
  datatype Label = Empty | Ok | Critical

  /** The flag, the label of the current run, and where the run began. */
  datatype Alarm = Alarm(ok: bool, mark: Label, from: nat)

  function LabelOf(r: Rule, ok: bool, e: Event): Label
  {
    if r.trigger(e) then Critical else if !ok && !r.cancel(e) then Critical else Ok
  }

  function Advance(h: seq<Event>, r: Rule, a: Alarm): Alarm
    requires h != [] && (a.mark != Empty ==> a.from < |h| - 1)
  {
    var n, e := |h| - 1, h[|h| - 1];
    var l := LabelOf(r, a.ok, e);
    if l != a.mark then Alarm(a.ok, l, n)
    else if Lasts(h[a.from].time, r.dt, e.time) then Alarm(l == Ok, l, a.from)
    else a
  }

  function AlarmAfter(h: seq<Event>, r: Rule): (a: Alarm)
    ensures h == [] <==> a.mark == Empty
    ensures h != [] ==> a.from < |h|
  {
    if h == [] then Alarm(true, Empty, 0) else Advance(h, r, AlarmAfter(h[..|h| - 1], r))
  }

  /** The current run, seen as a block: which predicate it satisfies depends on the flag. */
  predicate RunIsBlock(h: seq<Event>, r: Rule, a: Alarm)
  {
    && (a.ok && a.mark == Critical ==> a.from == BlockStart(h, r.trigger))
    && (!a.ok && a.mark == Ok ==> a.from == BlockStart(h, r.Clears))
    && (a.mark == Ok ==> BlockStart(h, r.trigger) == |h|)
    && (a.mark == Critical ==> BlockStart(h, r.Clears) == |h|)
  }

  lemma {:induction false} RunInvariant(h: seq<Event>, r: Rule)
    requires h != []
    ensures RunIsBlock(h, r, AlarmAfter(h, r))
    ensures var front := h[..|h| - 1]; var a := AlarmAfter(front, r);
      AlarmAfter(h, r).ok == if a.ok then !LongBlock(h, r.trigger, r.dt) else LongBlock(h, r.Clears, r.dt)
  {
    var front := h[..|h| - 1];
    if front != [] {
      RunInvariant(front, r);
    }
  }

  /** Over every history, the implementation's flag is the alarm of the reference. */
  lemma {:induction false} AlarmIsReference(h: seq<Event>, r: Rule)
    ensures AlarmAfter(h, r).ok <==> !Raised(h, r)
  {
    if h != [] {
      RunInvariant(h, r);
      AlarmIsReference(h[..|h| - 1], r);
    }
  }

  // ------------------------------------------------------------------ the streams

  /** The events of a run that are not older than its start. */
  function InTime(run: seq<Event>, start: int): seq<Event>
  {
    if run == [] then []
    else InTime(run[..|run| - 1], start) + if run[|run| - 1].time >= start then [run[|run| - 1]] else []
  }

  lemma InTimeAppended(run: seq<Event>, e: Event, start: int)
    ensures InTime(run + [e], start) == InTime(run, start) + if e.time >= start then [e] else []
  {
    assert (run + [e])[..|run|] == run;
  }

  lemma InTimeSingle(e: Event)
    ensures InTime([e], e.time) == [e]
  {
    assert [e][..0] == [];
  }

  /** `stable`: holds back events until their state has lasted `dt` seconds. */
  class Stable {
    var state: string
    var buffer: seq<Event>
    var start: int
    const dt: int
    ghost var run: seq<Event>      // events since the state last changed
    ghost var emitted: seq<Event>  // those of them already passed on
    ghost var changed: bool        // whether the state ever changed

    /** Within a run nothing is lost or reordered: what was passed on and what is held back
        are together the events of the run that are not older than its start. */
    ghost predicate Valid()
      reads this
    {
      && (forall i :: 0 <= i < |run| ==> run[i].state == state)
      && (changed ==> run != [] && start == run[0].time)
      && (!changed ==> state == "" && start == 0)
      && (forall i :: 0 <= i < |buffer| ==> buffer[i].state == state)
      && emitted + buffer == InTime(run, start)
    }

    constructor (dt: int)
      ensures Valid() && this.dt == dt && !changed && run == [] && emitted == []
    {
      this.dt := dt;
      state, buffer, start := "", [], 0;
      run, emitted, changed := [], [], false;
    }

    method OnEvent(e: Event) returns (flush: seq<Event>)
      requires Valid()
      modifies this
      ensures Valid() && state == e.state
      ensures forall i :: 0 <= i < |flush| ==> flush[i].state == e.state
      ensures e.state != old(state) ==> flush == [] && run == [e] && emitted == [] && changed
      ensures e.state == old(state) ==>
        && run == old(run) + [e] && changed == old(changed) && start == old(start)
        && flush == (if Lasts(start, dt, e.time) then old(buffer) + [e] else [])
        && emitted == old(emitted) + flush
    {
      hide InTime;
      flush := [];
      if state != e.state {
        start, buffer, state := e.time, [e], e.state;
        run, emitted, changed := [e], [], true;
        InTimeSingle(e);
        return;
      }
      InTimeAppended(run, e, start);
      run := run + [e];
      if e.time < start {
        return;
      }
      if start + dt > e.time {
        buffer := buffer + [e];
        return;
      }
      flush, buffer := buffer, [];
      flush := flush + [e];
      emitted := emitted + flush;
    }
  }

  function Name(l: Label): string
  {
    match l case Empty => "" case Ok => "ok" case Critical => "critical"
  }

  /** The flag, the state and the run of `stable` are those of the alarm after `h`. */
  ghost predicate Tracks(h: seq<Event>, r: Rule, ok: bool, state: string, run: seq<Event>)
  {
    var a := AlarmAfter(h, r);
    && ok == a.ok && state == Name(a.mark) && |run| == |h| - a.from
    && forall i :: 0 <= i < |run| ==> run[i] == h[a.from + i].(state := Name(a.mark))
  }

  /** One more event, relabelled to `ne`, starts a new run or continues the run. */
  lemma TracksNext(h: seq<Event>, r: Rule, ok: bool, state: string, run: seq<Event>, e: Event, ne: Event, run': seq<Event>)
    requires Tracks(h, r, ok, state, run)
    requires ne == e.(state := Name(LabelOf(r, ok, e)))
    requires run' == if ne.state != state then [ne] else run + [ne]
    ensures var flushed := ne.state == state && Lasts(run[0].time, r.dt, e.time);
      Tracks(h + [e], r, if flushed then ne.state == "ok" else ok, ne.state, run')
    ensures ne.state == state ==> run != []
  {
    var a, b := AlarmAfter(h, r), AlarmAfter(h + [e], r);
    assert (h + [e])[..|h|] == h;
    assert ne.state == state <==> LabelOf(r, ok, e) == a.mark;
    forall i | 0 <= i < |run'| ensures run'[i] == (h + [e])[b.from + i].(state := Name(b.mark)) {
      if i < |run| && ne.state == state {
        assert run'[i] == run[i];
      }
    }
  }

  /** `stable_metric`: relabels events, passes them through `stable`, and keeps the flag
      that the last event passed on has set. */
  class StableMetric {
    var stateOk: bool
    var stable: Stable
    const rule: Rule
    ghost var history: seq<Event>

    ghost predicate Valid()
      reads this, stable
    {
      && stable.Valid() && stable.dt == rule.dt && (history == [] <==> !stable.changed)
      && Tracks(history, rule, stateOk, stable.state, stable.run)
    }

    constructor (rule: Rule)
      ensures Valid() && history == [] && this.rule == rule && fresh(stable)
    {
      this.rule := rule;
      stateOk, history := true, [];
      stable := new Stable(rule.dt);
    }

    /**
      The events passed on carry the state of the alarm, and the alarm is the one of the
      reference: raised and cleared by long blocks of triggering and cancelling events.
     */
    method OnEvent(e: Event) returns (out: seq<Event>)
      requires Valid()
      modifies this, stable
      ensures Valid() && history == old(history) + [e] && stable == old(stable)
      ensures stateOk <==> !Raised(history, rule)
      ensures forall i :: 0 <= i < |out| ==> out[i].state == if Raised(history, rule) then "critical" else "ok"
      ensures stateOk != old(stateOk) ==> out != []
    {
      hide Tracks, AlarmAfter, Raised, InTime;
      var ne := e.(state := "ok");
      if rule.trigger(e) {
        ne := e.(state := "critical");
      } else if !stateOk && !rule.cancel(e) {
        ne := e.(state := "critical");
      }
      ghost var state, run := stable.state, stable.run;
      out := stable.OnEvent(ne);
      TracksNext(history, rule, stateOk, state, run, e, ne, stable.run);
      history := history + [e];
      SetState(out);
      AlarmIsReference(history, rule);
    }

    /** `set_state`: each event passed on stores whether its state is ok. */
    method SetState(events: seq<Event>)
      modifies this`stateOk
      ensures stateOk == if events == [] then old(stateOk) else events[|events| - 1].state == "ok"
    {
      for i := 0 to |events|
        invariant stateOk == if i == 0 then old(stateOk) else events[i - 1].state == "ok"
      {
        stateOk := events[i].state == "ok";
      }
    }
  }
}
