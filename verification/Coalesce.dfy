/** `coalesce`: the latest live event of every host and service, swept on every event. */
module Coalesce {
  import opened Arithmetic
  import opened Events

  const DEFAULT_TTL := 60.0

  /** Whether an event has expired at a given time. */
  predicate Expired(e: Event, now: int)
  {
    var ttl := if e.hasTtl then e.ttl else DEFAULT_TTL;
    e.state == "expired" || (now >= e.time && (now - e.time) as real > ttl)
  }

  /** What has expired stays expired. */
  lemma ExpiredStays(e: Event, now: int, later: int)
    requires Expired(e, now) && now <= later
    ensures Expired(e, later)
  {
  }

  function Key(e: Event): string { e.host + " " + e.service }

  /** An event that is not marked as expired expires with the first whole second that is more
      than its time to live, or sixty seconds, after its time, and not before its time. */
  lemma ExpiresAt(e: Event, now: int)
    requires e.state != "expired"
    ensures Expired(e, now) <==> now >= e.time + Wait(if e.hasTtl then e.ttl.Floor else 60)
  {
  }

  function Wait(ttl: int): int { if ttl < 0 then 0 else ttl + 1 }

  /** Events share a key exactly if they are of one service on one host, provided that neither
      name holds a space. */
  lemma KeysTellApart(e: Event, f: Event)
    requires ' ' !in e.host && ' ' !in e.service
    ensures Key(e) == Key(f) <==> e.host == f.host && e.service == f.service
  {
    PairTellsApart(e.host, ' ', e.service);
    assert Key(e) == Pair(e.host, ' ', e.service) && Key(f) == Pair(f.host, ' ', f.service);
  }

  /** An event, and what the clock said when it came: it is read anew for every stored event, so
      there is a reading for each key. */
  datatype Arrival = Arrival(e: Event, clock: string -> int)

  ghost predicate ClockAdvances(h: seq<Arrival>)
  {
    forall i, j, k :: 0 <= i < j < |h| ==> h[i].clock(k) <= h[j].clock(k)
  }

  /** The latest arrival with a key, or -1. */
  function Latest(h: seq<Arrival>, k: string): (i: int)
    ensures -1 <= i < |h|
    ensures i >= 0 ==> Key(h[i].e) == k
    ensures forall j :: i < j < |h| ==> Key(h[j].e) != k
  {
    if h == [] then -1
    else if Key(h[|h| - 1].e) == k then |h| - 1
    else Latest(h[..|h| - 1], k)
  }

  /** The latest reading for a key. */
  function Now(h: seq<Arrival>, k: string): int
    requires h != []
  {
    h[|h| - 1].clock(k)
  }

  /** The key's latest event has not expired. */
  predicate Live(h: seq<Arrival>, k: string)
  {
    h != [] && Latest(h, k) >= 0 && !Expired(h[Latest(h, k)].e, Now(h, k))
  }

  /** The arrival `i` is handed to the fold as expired when the last event of `h` comes: it is
      the latest of its key, it has expired, and it had not when the event before came. */
  predicate Reported(h: seq<Arrival>, i: nat)
  {
    && h != [] && i < |h| && Latest(h, Key(h[i].e)) == i && Expired(h[i].e, Now(h, Key(h[i].e)))
    && (i == |h| - 1 || !Expired(h[i].e, Now(h[..|h| - 1], Key(h[i].e))))
  }

  /** Every arrival is reported at most once in a run. */
  lemma ReportedOnce(h: seq<Arrival>, m: nat, n: nat, i: nat)
    requires ClockAdvances(h) && m <= n <= |h|
    requires Reported(h[..m], i) && Reported(h[..n], i)
    ensures m == n
  {
  }

  /** An arrival that has expired while it is the latest of its key has been reported by then. */
  lemma {:induction false} ReportedByThen(h: seq<Arrival>, n: nat, i: nat) returns (m: nat)
    requires ClockAdvances(h) && i < n <= |h|
    requires Latest(h[..n], Key(h[i].e)) == i && Expired(h[i].e, h[n - 1].clock(Key(h[i].e)))
    ensures m <= n && Reported(h[..m], i)
  {
    var k := Key(h[i].e);
    assert Now(h[..n], k) == h[n - 1].clock(k);
    if i == n - 1 || !Expired(h[i].e, h[n - 2].clock(k)) {
      m := n;
      assert i < n - 1 ==> Now(h[..n][..n - 1], k) == h[n - 2].clock(k);
    } else {
      LatestEarlier(h, n, i);
      m := ReportedByThen(h, n - 1, i);
    }
  }

  lemma LatestEarlier(h: seq<Arrival>, n: nat, i: nat)
    requires i < n - 1 && n <= |h| && Latest(h[..n], Key(h[i].e)) == i
    ensures Latest(h[..n - 1], Key(h[i].e)) == i
  {
    assert h[..n][..n - 1] == h[..n - 1];
  }

  // ------------------------------------------------------------------- the operator

  /** `s` lists the values of `m`, each once. */
  ghost predicate Lists(s: seq<Event>, m: map<string, Event>)
  {
    && (forall i :: 0 <= i < |s| ==> Key(s[i]) in m && m[Key(s[i])] == s[i])
    && (forall i, j :: 0 <= i < j < |s| ==> Key(s[i]) != Key(s[j]))
    && (forall k :: k in m ==> Key(m[k]) == k && m[k] in s)
  }

  lemma ListsMore(s: seq<Event>, m: map<string, Event>, e: Event)
    requires Lists(s, m) && Key(e) !in m
    ensures Lists(s + [e], m[Key(e) := e])
  {
  }

  function Keys(h: seq<Arrival>): set<string> { set i | 0 <= i < |h| :: Key(h[i].e) }

  /** The latest events that have not expired. */
  function LiveEvents(h: seq<Arrival>): map<string, Event>
  {
    map k | k in Keys(h) && Live(h, k) :: h[Latest(h, k)].e
  }

  /** The events that are reported when the last event of `h` comes. */
  function ReportedEvents(h: seq<Arrival>): map<string, Event>
  {
    map k | k in Keys(h) && Latest(h, k) >= 0 && Reported(h, Latest(h, k)) :: h[Latest(h, k)].e
  }

  function Survivors(m: map<string, Event>, clock: string -> int): map<string, Event>
  {
    map k | k in m && !Expired(m[k], clock(k)) :: m[k]
  }

  function Expirations(m: map<string, Event>, clock: string -> int): map<string, Event>
  {
    map k | k in m && Expired(m[k], clock(k)) :: m[k]
  }

  lemma KeysHaveLatest(h: seq<Arrival>, k: string)
    ensures k in Keys(h) <==> Latest(h, k) >= 0
  {
    var i := Latest(h, k);
    if i >= 0 {
      assert Key(h[i].e) in Keys(h);
    }
  }

  /** One key through the arrival of an event and the sweep that follows. */
  lemma OneKey(h: seq<Arrival>, e: Event, clock: string -> int, k: string)
    requires h != [] ==> Now(h, k) <= clock(k)
    ensures var h' := h + [Arrival(e, clock)]; var all := LiveEvents(h)[Key(e) := e];
      && (k in Survivors(all, clock) <==> k in LiveEvents(h'))
      && (k in Survivors(all, clock) ==> all[k] == LiveEvents(h')[k])
      && (k in Expirations(all, clock) <==> k in ReportedEvents(h'))
      && (k in Expirations(all, clock) ==> all[k] == ReportedEvents(h')[k])
  {
    hide Expired, Keys;
    var h' := h + [Arrival(e, clock)];
    assert h'[..|h|] == h;
    KeysHaveLatest(h', k);
    if k != Key(e) {
      KeysHaveLatest(h, k);
      var i := Latest(h', k);
      assert i == Latest(h, k);
      if i >= 0 {
        assert h'[i] == h[i];
        assert h'[|h| - 1] == h[|h| - 1];
        if Expired(h[i].e, Now(h, k)) {
          ExpiredStays(h[i].e, Now(h, k), clock(k));
        }
      }
    }
  }

  /** The sweep leaves the live events and takes out the reported ones. */
  lemma SweepCorrect(h: seq<Arrival>, e: Event, clock: string -> int)
    requires forall k :: h != [] ==> Now(h, k) <= clock(k)
    ensures var h' := h + [Arrival(e, clock)]; var all := LiveEvents(h)[Key(e) := e];
      Survivors(all, clock) == LiveEvents(h') && Expirations(all, clock) == ReportedEvents(h')
  {
    var h' := h + [Arrival(e, clock)];
    var all := LiveEvents(h)[Key(e) := e];
    forall k {
      OneKey(h, e, clock, k);
    }
    hide LiveEvents, ReportedEvents, Expired, Live, Reported, Latest;
  }

  class CoalesceEvents {
    var events: map<string, Event>
    ghost var history: seq<Arrival>

    /** The map holds precisely the latest event of every key, unless it has expired. */
    ghost predicate Valid()
      reads this
    {
      ClockAdvances(history) && events == LiveEvents(history)
    }

    constructor ()
      ensures Valid() && history == []
    {
      events, history := map[], [];
    }

    /** The lists handed to the fold: what expires at this event, and what is live after it. */
    method OnEvent(e: Event, clock: string -> int) returns (expired: seq<Event>, live: seq<Event>)
      requires Valid() && forall i, k :: 0 <= i < |history| ==> history[i].clock(k) <= clock(k)
      modifies this
      ensures Valid() && history == old(history) + [Arrival(e, clock)]
      ensures Lists(expired, ReportedEvents(history)) && Lists(live, LiveEvents(history))
    {
      SweepCorrect(history, e, clock);
      KeysMatch(history);
      var all := events[Key(e) := e];
      expired, live, events := Sweep(all, clock);
      history := history + [Arrival(e, clock)];
    }
  }

  lemma KeysMatch(h: seq<Arrival>)
    ensures forall k :: k in LiveEvents(h) ==> Key(LiveEvents(h)[k]) == k
  {
  }

  lemma ExpireOne(done: map<string, Event>, clock: string -> int, e: Event)
    requires Key(e) !in done
    ensures var done' := done[Key(e) := e];
      && Survivors(done', clock) == (if Expired(e, clock(Key(e))) then Survivors(done, clock) else Survivors(done, clock)[Key(e) := e])
      && Expirations(done', clock) == (if Expired(e, clock(Key(e))) then Expirations(done, clock)[Key(e) := e] else Expirations(done, clock))
  {
    hide Expired;
  }

  /** One pass over the map: expired events are taken out, the others stay. */
  method Sweep(all: map<string, Event>, clock: string -> int)
    returns (expired: seq<Event>, live: seq<Event>, kept: map<string, Event>)
    requires forall k :: k in all ==> Key(all[k]) == k
    ensures kept == Survivors(all, clock)
    ensures Lists(live, Survivors(all, clock)) && Lists(expired, Expirations(all, clock))
  {
    hide Expired, Lists, Survivors, Expirations;
    expired, live, kept := [], [], all;
    var todo := all.Keys;
    ghost var done: map<string, Event> := map[];
    NothingSwept(all, clock);
    while todo != {}
      invariant todo <= all.Keys
      invariant done == all - todo
      invariant Lists(live, Survivors(done, clock)) && Lists(expired, Expirations(done, clock))
      invariant kept == all - Expirations(done, clock).Keys
      decreases todo
    {
      var k :| k in todo;
      ExpireOne(done, clock, all[k]);
      if Expired(all[k], clock(k)) {
        NotYet(done, clock, all[k]);
        ListsMore(expired, Expirations(done, clock), all[k]);
        expired := expired + [all[k]];
        kept := kept - {k};
      } else {
        NotYet(done, clock, all[k]);
        ListsMore(live, Survivors(done, clock), all[k]);
        live := live + [all[k]];
      }
      done := done[k := all[k]];
      todo := todo - {k};
      assert done == all - todo;
    }
    assert done == all;
    Complement(all, clock);
  }

  lemma NothingSwept(all: map<string, Event>, clock: string -> int)
    ensures Lists([], Survivors(map[], clock)) && Lists([], Expirations(map[], clock))
    ensures all == all - Expirations(map[], clock).Keys && all - all.Keys == map[]
  {
  }

  lemma NotYet(done: map<string, Event>, clock: string -> int, e: Event)
    requires Key(e) !in done
    ensures Key(e) !in Survivors(done, clock) && Key(e) !in Expirations(done, clock)
  {
  }

  lemma Complement(all: map<string, Event>, clock: string -> int)
    ensures all - Expirations(all, clock).Keys == Survivors(all, clock)
  {
  }
}
