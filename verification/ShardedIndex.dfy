/**
  The index: events by host and service, in shards with a lock each, swept for expired
  events by a thread of its own.  Each method that changes state is one atomic step, so
  calls in any order are an interleaving of adding threads, the timer and the sweeper.
 */
module ShardedIndex {
  import opened Options
  import opened Arithmetic
  import opened Events

  function Key(e: Event): string { e.host + "-" + e.service }

  predicate Expired(e: Event, now: int) { e.time + Truncate(e.ttl) < now }

  /** An event expires when more than its time to live has passed, up to a fraction of a second
      that is cut off: this is exact unless the time to live is negative and not whole. */
  lemma ExpiredExactly(e: Event)
    ensures (forall now :: Expired(e, now) <==> (now - e.time) as real > e.ttl)
       <==> e.ttl >= 0.0 || e.ttl == e.ttl.Floor as real
  {
    hide Truncate;
    forall now ensures e.ttl >= 0.0 || e.ttl == e.ttl.Floor as real ==>
                         (Expired(e, now) <==> (now - e.time) as real > e.ttl) {
      TruncateCompares(now - e.time, e.ttl);
    }
    if !(e.ttl >= 0.0 || e.ttl == e.ttl.Floor as real) {
      var now := e.time + Truncate(e.ttl);
      TruncateCompares(now - e.time, e.ttl);
      assert !Expired(e, now) && (now - e.time) as real > e.ttl;
    }
  }

  /** Events share a key exactly if they are of one service on one host, provided that neither
      name holds a hyphen. */
  lemma KeysTellApart(e: Event, f: Event)
    requires '-' !in e.host && '-' !in e.service
    ensures Key(e) == Key(f) <==> e.host == f.host && e.service == f.service
  {
    PairTellsApart(e.host, '-', e.service);
    assert Key(e) == Pair(e.host, '-', e.service) && Key(f) == Pair(f.host, '-', f.service);
  }

  // ------------------------------------------------------------------ the reference

  /** What happened to the index, in order: an event was added, or a shard swept. */
  datatype Op = Put(e: Event) | Sweep(shard: nat, now: int)

  /** The keys that a sweep removes from a map. */
  function Swept(m: map<string, Event>, hash: string -> nat, shard: nat, now: int): set<string>
  {
    set k | k in m && hash(k) == shard && Expired(m[k], now)
  }

  /** The same operations on one map. */
  function Replay(ops: seq<Op>, hash: string -> nat): map<string, Event>
  {
    if ops == [] then map[]
    else
      var m := Replay(ops[..|ops| - 1], hash);
      match ops[|ops| - 1]
      case Put(e) => m[Key(e) := e]
      case Sweep(shard, now) => m - Swept(m, hash, shard, now)
  }

  /** The events that were added, as often as they were. */
  function Puts(ops: seq<Op>): multiset<Event>
  {
    if ops == [] then multiset{}
    else Puts(ops[..|ops| - 1]) + if ops[|ops| - 1].Put? then multiset{ops[|ops| - 1].e} else multiset{}
  }

  lemma PutsAppended(ops: seq<Op>, op: Op)
    ensures Puts(ops + [op]) == Puts(ops) + if op.Put? then multiset{op.e} else multiset{}
  {
    assert (ops + [op])[..|ops|] == ops;
  }

  /** Every added event is published, or its thread is about to. */
  predicate Announces(announced: seq<Event>, adding: multiset<Event>, ops: seq<Op>)
  {
    multiset(announced) + adding == Puts(ops)
  }

  lemma AnnounceLater(announced: seq<Event>, adding: multiset<Event>, ops: seq<Op>, op: Op)
    requires Announces(announced, adding, ops)
    ensures Announces(announced, adding + if op.Put? then multiset{op.e} else multiset{}, ops + [op])
  {
    PutsAppended(ops, op);
  }

  lemma AnnounceNow(announced: seq<Event>, adding: multiset<Event>, ops: seq<Op>, e: Event)
    requires Announces(announced, adding, ops) && e in adding
    ensures Announces(announced + [e], adding - multiset{e}, ops)
  {
    assert multiset(announced + [e]) == multiset(announced) + multiset{e};
  }

  /** The operation leaves the event `e` stored for `k` in place. */
  predicate Keeps(op: Op, hash: string -> nat, k: string, e: Event)
  {
    match op
    case Put(f) => Key(f) != k
    case Sweep(shard, now) => !(hash(k) == shard && Expired(e, now))
  }

  /** The operation at `j` added the event for `k`, and nothing after it added another one or
      swept it away. */
  predicate LastWrite(ops: seq<Op>, hash: string -> nat, k: string, j: int)
  {
    && 0 <= j < |ops| && ops[j].Put? && Key(ops[j].e) == k
    && forall i :: j < i < |ops| ==> Keeps(ops[i], hash, k, ops[j].e)
  }

  lemma LastWriteFront(ops: seq<Op>, hash: string -> nat, k: string, j: int)
    requires 0 <= j < |ops| - 1 && ops[j].Put?
    ensures LastWrite(ops, hash, k, j) <==>
            LastWrite(ops[..|ops| - 1], hash, k, j) && Keeps(ops[|ops| - 1], hash, k, ops[j].e)
  {
    hide Keeps;
    var front := ops[..|ops| - 1];
    assert forall i :: 0 <= i < |front| ==> front[i] == ops[i];
  }

  /** The one map holds, for every key, its last write unless a sweep has removed it. */
  lemma {:induction false} LastWriteWins(ops: seq<Op>, hash: string -> nat, k: string)
    ensures k in Replay(ops, hash) <==> exists j :: LastWrite(ops, hash, k, j)
    ensures forall j :: LastWrite(ops, hash, k, j) ==>
              k in Replay(ops, hash) && Replay(ops, hash)[k] == ops[j].e
  {
    hide LastWrite, Expired;
    if ops == [] {
      NoWrites(hash, k);
    } else {
      var n := |ops| - 1;
      var front := ops[..n];
      LastWriteWins(front, hash, k);
      forall j ensures LastWrite(ops, hash, k, j) ==> 0 <= j <= n && ops[j].Put?
               ensures LastWrite(front, hash, k, j) ==> 0 <= j < n && ops[j].Put? {
        WriteInRange(ops, hash, k, j);
        WriteInRange(front, hash, k, j);
      }
      forall j | 0 <= j < n && ops[j].Put?
        ensures LastWrite(ops, hash, k, j) <==>
                LastWrite(front, hash, k, j) && Keeps(ops[n], hash, k, ops[j].e) {
        LastWriteFront(ops, hash, k, j);
      }
      LastIsWrite(ops, hash, k);
    }
  }

  lemma NoWrites(hash: string -> nat, k: string)
    ensures forall j :: !LastWrite([], hash, k, j)
  {
  }

  lemma WriteInRange(ops: seq<Op>, hash: string -> nat, k: string, j: int)
    ensures LastWrite(ops, hash, k, j) ==> 0 <= j < |ops| && ops[j].Put?
  {
  }

  lemma LastIsWrite(ops: seq<Op>, hash: string -> nat, k: string)
    requires ops != []
    ensures var n := |ops| - 1; LastWrite(ops, hash, k, n) <==> ops[n].Put? && Key(ops[n].e) == k
  {
  }

  // --------------------------------------------------------------------- the shards

  /** Every key lives only in its own shard, and the shards together are one map. */
  ghost predicate Together(shards: seq<map<string, Event>>, hash: string -> nat, m: map<string, Event>)
  {
    && (forall i, k :: 0 <= i < |shards| && k in shards[i] ==> hash(k) == i && k in m && m[k] == shards[i][k])
    && (forall k :: k in m ==> hash(k) < |shards| && k in shards[hash(k)] && Key(m[k]) == k)
  }

  function ExpiredKeys(m: map<string, Event>, now: int): set<string>
  {
    set k | k in m && Expired(m[k], now)
  }

  /** `s` lists the values of the keys `ks` of `m`, each once. */
  ghost predicate Lists(s: seq<Event>, m: map<string, Event>, ks: set<string>)
  {
    && (forall i :: 0 <= i < |s| ==> Key(s[i]) in ks && Key(s[i]) in m && m[Key(s[i])] == s[i])
    && (forall i, j :: 0 <= i < j < |s| ==> Key(s[i]) != Key(s[j]))
    && (forall k :: k in ks ==> k in m && m[k] in s)
  }

  lemma ListsMore(s: seq<Event>, m: map<string, Event>, ks: set<string>, k: string)
    requires Lists(s, m, ks) && k !in ks && k in m && Key(m[k]) == k
    ensures Lists(s + [m[k]], m, ks + {k})
  {
  }

  /** Sweeping a shard is sweeping the one map for the keys of that shard. */
  lemma SweepTogether(shards: seq<map<string, Event>>, hash: string -> nat, m: map<string, Event>, i: nat, now: int)
    requires Together(shards, hash, m) && i < |shards|
    ensures ExpiredKeys(shards[i], now) == Swept(m, hash, i, now)
    ensures Together(shards[i := shards[i] - ExpiredKeys(shards[i], now)], hash, m - Swept(m, hash, i, now))
  {
    hide Expired;
  }

  lemma PutTogether(shards: seq<map<string, Event>>, hash: string -> nat, m: map<string, Event>, e: Event)
    requires Together(shards, hash, m) && hash(Key(e)) < |shards|
    ensures var i := hash(Key(e)); Together(shards[i := shards[i][Key(e) := e]], hash, m[Key(e) := e])
  {
  }

  /** The expired keys among those a pass has already seen. */
  function Gone(m: map<string, Event>, todo: set<string>, now: int): set<string>
  {
    set k | k in m && k !in todo && Expired(m[k], now)
  }

  lemma GoneStep(m: map<string, Event>, todo: set<string>, now: int, k: string)
    requires k in m && k in todo
    ensures Gone(m, todo - {k}, now) == Gone(m, todo, now) + if Expired(m[k], now) then {k} else {}
    ensures k !in Gone(m, todo, now)
  {
  }

  lemma GoneEnds(m: map<string, Event>, now: int)
    ensures Gone(m, m.Keys, now) == {} && Gone(m, {}, now) == ExpiredKeys(m, now)
  {
  }

  /** One pass over a shard: expired events are taken out and listed. */
  method SweepMap(shard: map<string, Event>, now: int) returns (kept: map<string, Event>, gone: seq<Event>)
    requires forall k :: k in shard ==> Key(shard[k]) == k
    ensures kept == shard - ExpiredKeys(shard, now)
    ensures Lists(gone, shard, ExpiredKeys(shard, now)) && |gone| <= |shard|
  {
    hide Expired, Lists, Gone, ExpiredKeys, Key;
    kept, gone := shard, [];
    var todo := shard.Keys;
    ghost var out: set<string> := {};
    ListsNothing(shard);
    GoneEnds(shard, now);
    while todo != {}
      invariant todo <= shard.Keys && out == Gone(shard, todo, now)
      invariant Lists(gone, shard, out) && kept == shard - out
      decreases todo
    {
      var k :| k in todo;
      GoneStep(shard, todo, now, k);
      if Expired(shard[k], now) {
        ListsMore(gone, shard, out, k);
        DropOne(shard, out, k);
        gone, kept, out := gone + [shard[k]], kept - {k}, out + {k};
      }
      todo := todo - {k};
    }
    ListsFew(gone, shard, out);
  }

  lemma DropOne(m: map<string, Event>, out: set<string>, k: string)
    ensures m - out - {k} == m - (out + {k})
  {
  }

  lemma {:induction false} FewKeys(s: seq<Event>, m: map<string, Event>)
    requires forall i :: 0 <= i < |s| ==> Key(s[i]) in m
    requires forall i, j :: 0 <= i < j < |s| ==> Key(s[i]) != Key(s[j])
    ensures |s| <= |m|
  {
    hide Key;
    if s != [] {
      var k := Key(s[0]);
      assert |m - {k}| == |m| - 1 by {
        assert (m - {k}).Keys == m.Keys - {k};
      }
      FewKeys(s[1..], m - {k});
    }
  }

  lemma ListsFew(s: seq<Event>, m: map<string, Event>, ks: set<string>)
    requires Lists(s, m, ks)
    ensures |s| <= |m|
  {
    FewKeys(s, m);
  }

  lemma ListsNothing(m: map<string, Event>)
    ensures Lists([], m, {})
  {
  }

  /** Where the sweeping thread stands. */
  datatype Sweeper =
    | Idle
    | Spawned
    | Sweeping(next: nat, now: int, size: int, expired: seq<Event>)
    | Publishing(pending: seq<Event>)

  class RealIndex {
    const hash: string -> nat
    var shards: seq<map<string, Event>>
    var expiring: bool
    var sweeper: Sweeper
    var adding: multiset<Event>      // stored, and not yet published by the thread that added it
    var preGauge: int
    var postGauge: int
    ghost var ops: seq<Op>
    ghost var announced: seq<Event>  // everything ever published as added, in order
    ghost var removed: seq<Event>    // everything ever swept away, in order
    ghost var published: seq<Event>  // everything ever published as expired, in order

    function Pending(): seq<Event>
      reads this
    {
      match sweeper
      case Sweeping(_, _, _, expired) => expired
      case Publishing(pending) => pending
      case _ => []
    }

    ghost predicate Valid()
      reads this
    {
      && |shards| > 0 && (forall k :: hash(k) < |shards|)
      && Together(shards, hash, Replay(ops, hash))
      && (expiring <==> sweeper != Idle)
      && published + Pending() == removed && Announces(announced, adding, ops)
      && (sweeper.Sweeping? ==> sweeper.next <= |shards| && |sweeper.expired| <= sweeper.size)
      && postGauge >= 0
    }

    constructor (hash: string -> nat, n: nat)
      requires n > 0 && forall k :: hash(k) < n
      ensures Valid() && ops == [] && sweeper == Idle && preGauge == postGauge == 0
    {
      this.hash := hash;
      shards := seq(n, _ => map[]);
      expiring, sweeper, preGauge, postGauge, adding := false, Idle, 0, 0, multiset{};
      ops, removed, published, announced := [], [], [], [];
    }

    /** Add an event, under the lock of its shard. */
    method AddEvent(e: Event)
      requires Valid()
      modifies this`shards, this`ops, this`adding
      ensures Valid() && ops == old(ops) + [Put(e)] && adding == old(adding) + multiset{e}
    {
      hide Together, Replay, Announces, Key;
      var k := Key(e);
      PutTogether(shards, hash, Replay(ops, hash), e);
      ReplayPut(ops, hash, e);
      AnnounceLater(announced, adding, ops, Put(e));
      ops, adding := ops + [Put(e)], adding + multiset{e};
      shards := shards[hash(k) := shards[hash(k)][k := e]];
    }

    /** After the lock is given back, the added event is published. */
    method PublishAdded(e: Event)
      requires Valid() && e in adding
      modifies this`adding, this`announced
      ensures Valid() && adding == old(adding) - multiset{e} && announced == old(announced) + [e]
    {
      hide Together, Replay, Announces;
      AnnounceNow(announced, adding, ops, e);
      adding, announced := adding - multiset{e}, announced + [e];
    }

    /** The timer: spawn a sweeper unless one is at work. */
    method TimerCb() returns (spawned: bool)
      requires Valid()
      modifies this`expiring, this`sweeper
      ensures Valid() && expiring && spawned == !old(expiring)
      ensures sweeper == if spawned then Spawned else old(sweeper)
    {
      spawned := !expiring;
      expiring := true;
      if spawned {
        sweeper := Spawned;
      }
    }

    method StartSweep(now: int)
      requires Valid() && sweeper == Spawned
      modifies this`sweeper
      ensures Valid() && sweeper == Sweeping(0, now, 0, [])
    {
      sweeper := Sweeping(0, now, 0, []);
    }

    /** Sweep the next shard, under its lock. */
    method SweepShard()
      requires Valid() && sweeper.Sweeping? && sweeper.next < |shards|
      modifies this`shards, this`sweeper, this`ops, this`removed
      ensures Valid() && ops == old(ops) + [Sweep(old(sweeper).next, old(sweeper).now)]
      ensures sweeper.Sweeping? && sweeper.next == old(sweeper).next + 1 && sweeper.now == old(sweeper).now
      ensures sweeper.size == old(sweeper).size + |old(shards)[old(sweeper).next]|
      ensures old(removed) <= removed
      ensures var m := Replay(old(ops), hash);
        Lists(removed[|old(removed)|..], m, Swept(m, hash, old(sweeper).next, old(sweeper).now))
    {
      hide Together, Expired, Lists, Replay, Announces;
      var Sweeping(i, now, size, expired) := sweeper;
      ghost var m := Replay(ops, hash);
      ShardKeys(shards, hash, m, i);
      var kept, gone := SweepMap(shards[i], now);
      SweepTogether(shards, hash, m, i, now);
      ShardLists(shards, hash, m, i, gone, Swept(m, hash, i, now));
      ops := ops + [Sweep(i, now)];
      ReplaySweep(old(ops), hash, i, now);
      AnnounceLater(announced, adding, old(ops), Sweep(i, now));
      assert adding + multiset{} == adding;
      sweeper := Sweeping(i + 1, now, size + |shards[i]|, expired + gone);
      shards := shards[i := kept];
      removed := removed + gone;
      assert published + (expired + gone) == (published + expired) + gone;
      assert removed[|old(removed)|..] == gone;
    }

    /** All shards swept: set the gauges. */
    method EndSweep()
      requires Valid() && sweeper.Sweeping? && sweeper.next == |shards|
      modifies this`sweeper, this`preGauge, this`postGauge
      ensures Valid() && sweeper == Publishing(old(sweeper).expired)
      ensures preGauge == old(sweeper).size && postGauge == preGauge - |old(sweeper).expired| >= 0
    {
      preGauge, postGauge := sweeper.size, sweeper.size - |sweeper.expired|;
      sweeper := Publishing(sweeper.expired);
    }

    /** Publish the next expired event, or finish. */
    method PublishNext() returns (e: Option<Event>)
      requires Valid() && sweeper.Publishing?
      modifies this`sweeper, this`published, this`expiring
      ensures Valid()
      ensures if old(sweeper).pending == [] then e == None && sweeper == Idle && published == old(published)
              else e == Some(old(sweeper).pending[0].(state := "expired"))
                   && published == old(published) + [old(sweeper).pending[0]]
    {
      hide Together, Replay, Announces;
      var pending := sweeper.pending;
      if pending == [] {
        sweeper, expiring := Idle, false;
        return None;
      }
      published := published + [pending[0]];
      sweeper := Publishing(pending[1..]);
      e := Some(pending[0].(state := "expired"));
      assert pending == [pending[0]] + pending[1..];
      assert (old(published) + [pending[0]]) + pending[1..] == old(published) + pending;
    }
  }

  lemma ReplayPut(ops: seq<Op>, hash: string -> nat, e: Event)
    ensures Replay(ops + [Put(e)], hash) == Replay(ops, hash)[Key(e) := e]
  {
    assert (ops + [Put(e)])[..|ops|] == ops;
  }

  lemma ReplaySweep(ops: seq<Op>, hash: string -> nat, i: nat, now: int)
    ensures var m := Replay(ops, hash); Replay(ops + [Sweep(i, now)], hash) == m - Swept(m, hash, i, now)
  {
    assert (ops + [Sweep(i, now)])[..|ops|] == ops;
  }

  lemma ShardKeys(shards: seq<map<string, Event>>, hash: string -> nat, m: map<string, Event>, i: nat)
    requires Together(shards, hash, m) && i < |shards|
    ensures forall k :: k in shards[i] ==> Key(shards[i][k]) == k
  {
    forall k | k in shards[i] ensures Key(shards[i][k]) == k {
      assert m[k] == shards[i][k];
    }
  }

  lemma ShardLists(shards: seq<map<string, Event>>, hash: string -> nat, m: map<string, Event>, i: nat,
                   s: seq<Event>, ks: set<string>)
    requires Together(shards, hash, m) && i < |shards| && Lists(s, shards[i], ks)
    ensures Lists(s, m, ks)
  {
  }

  // ---------------------------------------------------------------------- the query

  /** `e` is a matching event of the shard. */
  predicate Hit(shard: map<string, Event>, wanted: Event -> bool, e: Event)
  {
    Key(e) in shard && shard[Key(e)] == e && wanted(e)
  }

  /** The pass over one shard; `found` events came from the shards before it. */
  method QueryShard(shard: map<string, Event>, wanted: Event -> bool, found: nat, max: nat)
    returns (r: seq<Event>, full: bool)
    requires forall k :: k in shard ==> Key(shard[k]) == k
    requires max != 0 ==> found < max
    ensures forall e :: e in r ==> Hit(shard, wanted, e)
    ensures forall i, j :: 0 <= i < j < |r| ==> Key(r[i]) != Key(r[j])
    ensures full ==> found + |r| == max != 0
    ensures !full ==> (max != 0 ==> found + |r| < max) && forall e :: Hit(shard, wanted, e) ==> e in r
  {
    hide Key;
    r, full := [], false;
    var todo := shard.Keys;
    while todo != {}
      invariant todo <= shard.Keys && (max != 0 ==> found + |r| < max)
      invariant forall e :: e in r ==> Hit(shard, wanted, e) && Key(e) !in todo
      invariant forall i, j :: 0 <= i < j < |r| ==> Key(r[i]) != Key(r[j])
      invariant forall e :: Hit(shard, wanted, e) && Key(e) !in todo ==> e in r
      decreases todo
    {
      var k :| k in todo;
      if wanted(shard[k]) {
        r := r + [shard[k]];
        if found + |r| == max {
          return r, true;
        }
      }
      todo := todo - {k};
    }
  }

  /** The shard holds events under their keys, and only keys that belong to it. */
  ghost predicate InPlace(shard: map<string, Event>, hash: string -> nat, i: nat)
  {
    forall k :: k in shard ==> hash(k) == i && Key(shard[k]) == k
  }

  /** A matching event in the shard of its key. */
  predicate Match(shards: seq<map<string, Event>>, hash: string -> nat, wanted: Event -> bool, e: Event)
  {
    hash(Key(e)) < |shards| && Hit(shards[hash(Key(e))], wanted, e)
  }

  /** Up to `max` matching events, or all of them when `max` is zero.  `shards[i]` is what shard
      `i` held while the query had its lock; other threads may have changed the rest since. */
  method QueryIndex(shards: seq<map<string, Event>>, hash: string -> nat, wanted: Event -> bool, max: nat)
    returns (r: seq<Event>)
    requires forall i :: 0 <= i < |shards| ==> InPlace(shards[i], hash, i)
    ensures forall e :: e in r ==> Match(shards, hash, wanted, e)
    ensures forall i, j :: 0 <= i < j < |r| ==> Key(r[i]) != Key(r[j])
    ensures max != 0 ==> |r| <= max
    ensures max == 0 || |r| < max ==> forall e :: Match(shards, hash, wanted, e) ==> e in r
  {
    hide Hit;
    r := [];
    for i := 0 to |shards|
      invariant max != 0 ==> |r| < max
      invariant forall e :: e in r ==> Match(shards, hash, wanted, e) && hash(Key(e)) < i
      invariant forall i, j :: 0 <= i < j < |r| ==> Key(r[i]) != Key(r[j])
      invariant forall e :: Match(shards, hash, wanted, e) && hash(Key(e)) < i ==> e in r
    {
      assert InPlace(shards[i], hash, i);
      var more, full := QueryShard(shards[i], wanted, |r|, max);
      InShard(shards, hash, wanted, i);
      r := r + more;
      if full {
        return;
      }
    }
  }

  lemma InShard(shards: seq<map<string, Event>>, hash: string -> nat, wanted: Event -> bool, i: nat)
    requires i < |shards| && InPlace(shards[i], hash, i)
    ensures forall e :: Hit(shards[i], wanted, e) <==> Match(shards, hash, wanted, e) && hash(Key(e)) == i
  {
  }
}
