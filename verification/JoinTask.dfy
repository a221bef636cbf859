/** The stream-stream join (ssjoin.go) over whole runs: which pairs it emits, and when the order of arrival
    does not matter. */
module JoinTask {
  import opened Wrappers
  import opened Collections
  import opened Changelog

  datatype Config = Config(before: int, after: int, grace: int) {
    predicate Valid() { before >= 0 && after >= 0 && grace >= 0 }

    /** `joinWindowDef.MaxSizeMs() + grace`: retention of both stores and of the late test. */
    function Retention(): int { before + after + grace }
  }

  /** Arrivals on either side, and retention sweeps. */
  datatype Event<K, V1, V2> = L(key: K, ts: int, v1: V1) | R(key: K, ts: int, v2: V2) | Sweep

  datatype Task<K(==), V1, V2> = Task(streamTime: int, left: map<(K, int), V1>, right: map<(K, int), V2>)

  predicate Late(cfg: Config, streamTime: int, ts: int) {
    ts < Max(streamTime, ts) - cfg.Retention()
  }

  function Lo(cfg: Config, ts: int): int {
    if ts > cfg.before + cfg.grace then ts - (cfg.before + cfg.grace) else 0
  }

  /** A record at `ts` finds partners with a timestamp in `[max(0, ts - before - grace), ts + after]`. The scan
      compares timestamps as unsigned, so a window that ends below -1 runs over everything up to its end and
      over all non-negative timestamps. */
  predicate InWindow(cfg: Config, ts: int, t: int) {
    if ts + cfg.after >= -1 then Lo(cfg, ts) <= t <= ts + cfg.after else t >= Lo(cfg, ts) || t <= ts + cfg.after
  }

  /** The window is the documented one (ssjoin.go:116) if and only if it ends at or above -1, as it does for
      every non-negative timestamp. */
  lemma WindowAsDocumentedIff(cfg: Config, ts: int)
    ensures (forall t {:trigger InWindow(cfg, ts, t)} :: InWindow(cfg, ts, t) <==> Lo(cfg, ts) <= t <= ts + cfg.after)
       <==> ts + cfg.after >= -1
  {
    if ts + cfg.after < -1 {
      assert InWindow(cfg, ts, Lo(cfg, ts));
    }
  }

  /** An instance: look-back 100, no look-ahead. A right record at 3, then a left record at -5, which is accepted.
      Its documented window is empty, yet it is joined with the later record. */
  lemma NegativeTimestampJoinsTheFuture(joiner: (int, int) -> int)
    ensures var cfg := Config(100, 0, 0);
      var t: Task<int, int, int> := Task(3, map[], map[(1, 3) := 7]);
      && Run(cfg, 0, [R(1, 3, 7)]) == t && !Late(cfg, t.streamTime, -5)
      && -5 + cfg.after < Lo(cfg, -5)
      && |Emits(cfg, joiner, t, L(1, -5, 9))| > 0
  {
    var cfg := Config(100, 0, 0);
    var a: Event<int, int, int> := R(1, 3, 7);
    assert [a][..0] == [];
    assert Run(cfg, 0, [a]) == Task(3, map[], map[(1, 3) := 7]);
    var right: map<(int, int), int> := map[(1, 3) := 7];
    assert (1, 3) in right && InWindow(cfg, -5, 3);
    assert 3 in Partners(cfg, right, 1, -5);
  }

  ghost function Partners<K, V>(cfg: Config, store: map<(K, int), V>, k: K, ts: int): set<int> {
    set p | p in store && p.0 == k && InWindow(cfg, ts, p.1) :: p.1
  }

  /** One forwarded record: the partner's timestamp and the joined value. */
  datatype Emission<W> = Emission(partner: int, value: W)

  ghost function Scan<K, V, W>(cfg: Config, store: map<(K, int), V>, k: K, ts: int,
                               join: V -> W): (out: seq<Emission<W>>)
    ensures |out| == |Listing(Partners(cfg, store, k, ts))|
    ensures forall i :: 0 <= i < |out| ==>
              var t := Listing(Partners(cfg, store, k, ts))[i];
              (k, t) in store && out[i] == Emission(t, join(store[(k, t)]))
  {
    var order := Listing(Partners(cfg, store, k, ts));
    seq(|order|, i requires 0 <= i < |order| => Emission(order[i], join(store[(k, order[i])])))
  }

  function WithLeft<V1, V2, W>(joiner: (V1, V2) -> W, v1: V1): V2 -> W { v2 => joiner(v1, v2) }

  function WithRight<V1, V2, W>(joiner: (V1, V2) -> W, v2: V2): V1 -> W { v1 => joiner(v1, v2) }

  /** What the arrival of `e` forwards: nothing when late; the left value is always the first argument. */
  ghost function Emits<K, V1, V2, W>(cfg: Config, joiner: (V1, V2) -> W, t: Task<K, V1, V2>,
                                     e: Event<K, V1, V2>): seq<Emission<W>> {
    if e.Sweep? || Late(cfg, t.streamTime, e.ts) then []
    else if e.L? then Scan(cfg, t.right, e.key, e.ts, WithLeft(joiner, e.v1))
    else Scan(cfg, t.left, e.key, e.ts, WithRight(joiner, e.v2))
  }

  function SweepStore<K(==), V>(cfg: Config, store: map<(K, int), V>, streamTime: int): map<(K, int), V> {
    var boundary := streamTime - cfg.Retention();
    if boundary <= 0 then store else map p | p in store && !(p.1 < boundary) :: store[p]
  }

  function Process<K(==), V1, V2>(cfg: Config, t: Task<K, V1, V2>, e: Event<K, V1, V2>): Task<K, V1, V2> {
    match e
    case Sweep => Task(t.streamTime, SweepStore(cfg, t.left, t.streamTime), SweepStore(cfg, t.right, t.streamTime))
    case L(k, ts, v) =>
      var time := Max(t.streamTime, ts);
      if Late(cfg, t.streamTime, ts) then Task(time, t.left, t.right) else Task(time, t.left[(k, ts) := v], t.right)
    case R(k, ts, v) =>
      var time := Max(t.streamTime, ts);
      if Late(cfg, t.streamTime, ts) then Task(time, t.left, t.right) else Task(time, t.left, t.right[(k, ts) := v])
  }

  function Run<K(==), V1, V2>(cfg: Config, time: int, events: seq<Event<K, V1, V2>>): Task<K, V1, V2> {
    if events == [] then Task(time, map[], map[])
    else Process(cfg, Run(cfg, time, events[..|events| - 1]), events[|events| - 1])
  }

  function TimeAfter<K, V1, V2>(time: int, events: seq<Event<K, V1, V2>>): int {
    if events == [] then time
    else
      var before, e := TimeAfter(time, events[..|events| - 1]), events[|events| - 1];
      if e.Sweep? then before else Max(before, e.ts)
  }

  predicate NoSweeps<K, V1, V2>(events: seq<Event<K, V1, V2>>) {
    forall i :: 0 <= i < |events| ==> !events[i].Sweep?
  }

  /** The event at `i` is not dropped as late. */
  predicate Accepted<K, V1, V2>(cfg: Config, time: int, events: seq<Event<K, V1, V2>>, i: nat)
    requires i < |events|
  {
    !events[i].Sweep? && !Late(cfg, TimeAfter(time, events[..i]), events[i].ts)
  }

  predicate InSlot<K(==), V1, V2>(e: Event<K, V1, V2>, left: bool, k: K, ts: int) {
    !e.Sweep? && e.L? == left && e.key == k && e.ts == ts
  }

  /** The last accepted arrival on a side, key and timestamp. */
  function Latest<K(==), V1, V2>(cfg: Config, time: int, events: seq<Event<K, V1, V2>>, left: bool, k: K,
                                 ts: int): Option<nat> {
    if events == [] then None
    else
      var n := |events| - 1;
      if Accepted(cfg, time, events, n) && InSlot(events[n], left, k, ts) then Some(n)
      else Latest(cfg, time, events[..n], left, k, ts)
  }

  lemma AcceptedPrefix<K, V1, V2>(cfg: Config, time: int, events: seq<Event<K, V1, V2>>, n: nat, i: nat)
    requires i < n <= |events|
    ensures Accepted(cfg, time, events[..n], i) <==> Accepted(cfg, time, events, i)
  {
    assert events[..n][..i] == events[..i];
  }

  lemma {:induction false} LatestIsLast<K, V1, V2>(cfg: Config, time: int, events: seq<Event<K, V1, V2>>, left: bool,
                                                   k: K, ts: int)
    ensures var j := Latest(cfg, time, events, left, k, ts);
      && (j.Some? ==>
         j.value < |events| && Accepted(cfg, time, events, j.value) && InSlot(events[j.value], left, k, ts))
      && forall i :: (if j.Some? then j.value + 1 else 0) <= i < |events| && Accepted(cfg, time, events, i) ==>
         !InSlot(events[i], left, k, ts)
  {
    if events != [] {
      var n := |events| - 1;
      LatestIsLast(cfg, time, events[..n], left, k, ts);
      forall i | 0 <= i < n
        ensures Accepted(cfg, time, events[..n], i) <==> Accepted(cfg, time, events, i)
      {
        AcceptedPrefix(cfg, time, events, n, i);
      }
    }
  }

  /** The stores hold, for every side, key and timestamp, the value of the last accepted arrival. */
  lemma {:induction false} StoresHoldLatest<K, V1, V2>(cfg: Config, time: int, events: seq<Event<K, V1, V2>>, k: K,
                                                       ts: int)
    requires NoSweeps(events)
    ensures Run(cfg, time, events).streamTime == TimeAfter(time, events)
    ensures var t := Run(cfg, time, events);
      var l, r := Latest(cfg, time, events, true, k, ts), Latest(cfg, time, events, false, k, ts);
      && (l.Some? ==> l.value < |events| && events[l.value].L?)
      && (r.Some? ==> r.value < |events| && events[r.value].R?)
      && Lookup(t.left, (k, ts)) == (if l.Some? then Some(events[l.value].v1) else None)
      && Lookup(t.right, (k, ts)) == (if r.Some? then Some(events[r.value].v2) else None)
  {
    LatestIsLast(cfg, time, events, true, k, ts);
    LatestIsLast(cfg, time, events, false, k, ts);
    if events != [] {
      StoresHoldLatest(cfg, time, events[..|events| - 1], k, ts);
    }
  }

  /** The joined value of two opposite arrivals. */
  function Joined<K, V1, V2, W>(joiner: (V1, V2) -> W, a: Event<K, V1, V2>, b: Event<K, V1, V2>): W
    requires !a.Sweep? && !b.Sweep? && a.L? != b.L?
  {
    if a.L? then joiner(a.v1, b.v2) else joiner(b.v1, a.v2)
  }

  /** What one arrival emits, over every run without sweeps: one value per timestamp in its window at
      which the other side's last accepted arrival of the key stands, in scan order, and nothing
      else. Late arrivals emit nothing. */
  lemma EmissionsOfArrival<K, V1, V2, W>(cfg: Config, joiner: (V1, V2) -> W, time: int, events: seq<Event<K, V1, V2>>,
                                         j: nat)
    requires NoSweeps(events) && j < |events|
    ensures var e, out := events[j], Emits(cfg, joiner, Run(cfg, time, events[..j]), events[j]);
      && (!Accepted(cfg, time, events, j) ==> out == [])
      && (forall n, n' :: 0 <= n < n' < |out| ==> Before(out[n].partner, out[n'].partner))
      && (forall n :: 0 <= n < |out| ==>
            var i := Latest(cfg, time, events[..j], !e.L?, e.key, out[n].partner);
            i.Some? && i.value < j && events[i.value].L? != e.L?
            && InWindow(cfg, e.ts, out[n].partner) && out[n].value == Joined(joiner, events[i.value], e))
      && (Accepted(cfg, time, events, j) ==>
            forall ts :: InWindow(cfg, e.ts, ts) && Latest(cfg, time, events[..j], !e.L?, e.key, ts).Some? ==>
              exists n :: 0 <= n < |out| && out[n].partner == ts)
  {
    var e, x := events[j], events[..j];
    var t := Run(cfg, time, x);
    var out := Emits(cfg, joiner, t, e);
    StoresHoldLatest(cfg, time, x, e.key, 0);
    if Accepted(cfg, time, events, j) {
      forall ts
        ensures var i := Latest(cfg, time, x, !e.L?, e.key, ts);
          && (i.Some? ==> i.value < j && events[i.value].L? != e.L?)
          && (e.L? ==> Lookup(t.right, (e.key, ts)) == if i.Some? then Some(events[i.value].v2) else None)
          && (e.R? ==> Lookup(t.left, (e.key, ts)) == if i.Some? then Some(events[i.value].v1) else None)
      {
        StoresHoldLatest(cfg, time, x, e.key, ts);
      }
      if e.L? {
        ScanExact(cfg, t.right, e.key, e.ts, WithLeft(joiner, e.v1));
      } else {
        ScanExact(cfg, t.left, e.key, e.ts, WithRight(joiner, e.v2));
      }
    }
  }

  lemma ScanExact<K, V, W>(cfg: Config, store: map<(K, int), V>, k: K, ts: int, join: V -> W)
    ensures var out := Scan(cfg, store, k, ts, join);
      && (forall n, n' :: 0 <= n < n' < |out| ==> Before(out[n].partner, out[n'].partner))
      && (forall n :: 0 <= n < |out| ==> (k, out[n].partner) in store && InWindow(cfg, ts, out[n].partner)
                                         && out[n].value == join(store[(k, out[n].partner)]))
      && (forall t :: (k, t) in store && InWindow(cfg, ts, t) ==> exists n :: 0 <= n < |out| && out[n].partner == t)
  {
    var partners := Partners(cfg, store, k, ts);
    var order, out := Listing(partners), Scan(cfg, store, k, ts, join);
    forall t | (k, t) in store && InWindow(cfg, ts, t)
      ensures exists n :: 0 <= n < |out| && out[n].partner == t
    {
      assert t in partners && t in order;
      var n :| 0 <= n < |order| && order[n] == t;
      assert out[n].partner == t;
    }
  }

  /** No two arrivals of one side share key and timestamp. */
  predicate DistinctSlots<K(==), V1, V2>(events: seq<Event<K, V1, V2>>) {
    forall i, j :: 0 <= i < j < |events| && !events[i].Sweep? ==>
      !InSlot(events[j], events[i].L?, events[i].key, events[i].ts)
  }

  /** Join run theorem: with distinct timestamps per key and side, an opposite pair of one key is emitted
      by the later arrival, exactly once, if and only if the earlier timestamp is in the later one's
      window. */
  lemma PairEmittedOnce<K, V1, V2, W>(cfg: Config, joiner: (V1, V2) -> W, time: int, events: seq<Event<K, V1, V2>>,
                                      i: nat, j: nat)
    requires NoSweeps(events) && DistinctSlots(events) && i < j < |events|
    requires Accepted(cfg, time, events, i) && Accepted(cfg, time, events, j)
    requires events[i].L? != events[j].L? && events[i].key == events[j].key
    ensures var out := Emits(cfg, joiner, Run(cfg, time, events[..j]), events[j]);
      && (InWindow(cfg, events[j].ts, events[i].ts) <==> exists n :: 0 <= n < |out| && out[n].partner == events[i].ts)
      && (forall n, n' :: 0 <= n < |out| && 0 <= n' < |out| && out[n].partner == out[n'].partner ==> n == n')
      && (forall n :: 0 <= n < |out| && out[n].partner == events[i].ts ==>
         out[n].value == Joined(joiner, events[i], events[j]))
  {
    EmissionsOfArrival(cfg, joiner, time, events, j);
    var e, x := events[i], events[..j];
    LatestIsLast(cfg, time, x, e.L?, e.key, e.ts);
    AcceptedPrefix(cfg, time, events, j, i);
    assert Latest(cfg, time, x, e.L?, e.key, e.ts) == Some(i);
  }

  // When the order of arrival does not matter.

  /** Opposite sides, same key, and `f` in the window of `e`. */
  predicate Match<K(==), V1, V2>(cfg: Config, e: Event<K, V1, V2>, f: Event<K, V1, V2>) {
    !e.Sweep? && !f.Sweep? && e.L? != f.L? && e.key == f.key && InWindow(cfg, e.ts, f.ts)
  }

  /** The values `e` forms with the matching events of `x`. */
  ghost function With<K, V1, V2, W>(cfg: Config, joiner: (V1, V2) -> W, x: seq<Event<K, V1, V2>>,
                                    e: Event<K, V1, V2>): multiset<W> {
    if x == [] then multiset{}
    else
      var f := x[|x| - 1];
      With(cfg, joiner, x[..|x| - 1], e) + if Match(cfg, e, f) then multiset{Joined(joiner, f, e)} else multiset{}
  }

  /** The values of all pairs in which the later event sees the earlier one in its window. */
  ghost function Pairs<K, V1, V2, W>(cfg: Config, joiner: (V1, V2) -> W, events: seq<Event<K, V1, V2>>): multiset<W> {
    if events == [] then multiset{}
    else Pairs(cfg, joiner, events[..|events| - 1]) + With(cfg, joiner, events[..|events| - 1], events[|events| - 1])
  }

  /** The values a run emits. */
  ghost function Output<K, V1, V2, W>(cfg: Config, joiner: (V1, V2) -> W, time: int,
                                      events: seq<Event<K, V1, V2>>): multiset<W> {
    if events == [] then multiset{}
    else
      var init, e := events[..|events| - 1], events[|events| - 1];
      Output(cfg, joiner, time, init) + Values(Emits(cfg, joiner, Run(cfg, time, init), e))
  }

  ghost function Values<W>(out: seq<Emission<W>>): multiset<W> {
    if out == [] then multiset{} else Values(out[..|out| - 1]) + multiset{out[|out| - 1].value}
  }

  /** The values at a set of timestamps of one key. */
  ghost function Gather<K, V, W>(store: map<(K, int), V>, k: K, times: set<int>, join: V -> W): multiset<W>
    requires forall t :: t in times ==> (k, t) in store
    decreases times
  {
    if |times| == 0 then multiset{}
    else var t := Any(times); Gather(store, k, times - {t}, join) + multiset{join(store[(k, t)])}
  }

  lemma {:induction false} GatherRemove<K, V, W>(store: map<(K, int), V>, k: K, times: set<int>, t: int, join: V -> W)
    requires t in times && forall x :: x in times ==> (k, x) in store
    ensures Gather(store, k, times, join) == Gather(store, k, times - {t}, join) + multiset{join(store[(k, t)])}
    decreases times
  {
    var x := Any(times);
    if x != t {
      GatherRemove(store, k, times - {x}, t, join);
      GatherRemove(store, k, times - {t}, x, join);
      assert times - {x} - {t} == times - {t} - {x};
    }
  }

  lemma {:induction false} GatherSame<K, V, W>(a: map<(K, int), V>, b: map<(K, int), V>, k: K, times: set<int>,
                                               join: V -> W)
    requires forall t :: t in times ==> (k, t) in a && (k, t) in b && a[(k, t)] == b[(k, t)]
    ensures Gather(a, k, times, join) == Gather(b, k, times, join)
    decreases times
  {
    if |times| != 0 { GatherSame(a, b, k, times - {Any(times)}, join); }
  }

  lemma {:induction false} ValuesGather<K, V, W>(store: map<(K, int), V>, k: K, times: set<int>, order: seq<int>,
                                                 join: V -> W, out: seq<Emission<W>>)
    requires Lists(order, times) && |out| == |order|
    requires forall t :: t in times ==> (k, t) in store
    requires forall i :: 0 <= i < |order| ==> (k, order[i]) in store && out[i].value == join(store[(k, order[i])])
    ensures Values(out) == Gather(store, k, times, join)
  {
    if order == [] {
      assert times == {} by { assert forall t :: t in times ==> t in order; }
    } else {
      var n := |order| - 1;
      var t := order[n];
      assert Lists(order[..n], times - {t}) by {
        forall x | x in times - {t} ensures x in order[..n] { assert x in order; }
      }
      ValuesGather(store, k, times - {t}, order[..n], join, out[..n]);
      GatherRemove(store, k, times, t, join);
    }
  }

  lemma GatherInsert<K, V, W>(cfg: Config, store: map<(K, int), V>, k: K, ts: int, p: (K, int), v: V, join: V -> W)
    requires p !in store
    ensures var store' := store[p := v];
      Gather(store', k, Partners(cfg, store', k, ts), join)
      == Gather(store, k, Partners(cfg, store, k, ts), join)
         + if p.0 == k && InWindow(cfg, ts, p.1) then multiset{join(v)} else multiset{}
  {
    var store' := store[p := v];
    var old', new' := Partners(cfg, store, k, ts), Partners(cfg, store', k, ts);
    GatherSame(store, store', k, old', join);
    if p.0 == k && InWindow(cfg, ts, p.1) {
      assert p.1 in new' && new' - {p.1} == old';
      GatherRemove(store', k, new', p.1, join);
    } else {
      assert new' == old';
    }
  }

  predicate NoLate<K, V1, V2>(cfg: Config, time: int, events: seq<Event<K, V1, V2>>) {
    forall i :: 0 <= i < |events| ==> Accepted(cfg, time, events, i)
  }

  lemma PrefixStays<K, V1, V2>(cfg: Config, time: int, events: seq<Event<K, V1, V2>>, n: nat)
    requires n <= |events|
    ensures NoLate(cfg, time, events) ==> NoLate(cfg, time, events[..n])
    ensures NoSweeps(events) ==> NoSweeps(events[..n])
    ensures DistinctSlots(events) ==> DistinctSlots(events[..n])
  {
    forall i | 0 <= i < n
      ensures Accepted(cfg, time, events[..n], i) <==> Accepted(cfg, time, events, i)
    {
      AcceptedPrefix(cfg, time, events, n, i);
    }
  }

  /** A slot that no arrival has used is free in the store. */
  lemma FreshSlot<K, V1, V2>(cfg: Config, time: int, x: seq<Event<K, V1, V2>>, f: Event<K, V1, V2>)
    requires NoSweeps(x) && !f.Sweep? && forall i :: 0 <= i < |x| ==> !InSlot(x[i], f.L?, f.key, f.ts)
    ensures (f.key, f.ts) !in (if f.L? then Run(cfg, time, x).left.Keys else Run(cfg, time, x).right.Keys)
  {
    StoresHoldLatest(cfg, time, x, f.key, f.ts);
    LatestIsLast(cfg, time, x, f.L?, f.key, f.ts);
  }

  lemma SnocRun<K, V1, V2>(cfg: Config, time: int, x: seq<Event<K, V1, V2>>, f: Event<K, V1, V2>)
    requires NoSweeps(x) && !f.Sweep? && !Late(cfg, TimeAfter(time, x), f.ts)
    ensures var t, t' := Run(cfg, time, x), Run(cfg, time, x + [f]);
      && t'.left == (if f.L? then t.left[(f.key, f.ts) := f.v1] else t.left)
      && t'.right == (if f.R? then t.right[(f.key, f.ts) := f.v2] else t.right)
  {
    assert (x + [f])[..|x|] == x;
    StoresHoldLatest(cfg, time, x, f.key, f.ts);
  }

  lemma {:induction false} GatherLeft<K, V1, V2, W>(cfg: Config, joiner: (V1, V2) -> W, time: int,
                                                    x: seq<Event<K, V1, V2>>, e: Event<K, V1, V2>)
    requires NoSweeps(x) && DistinctSlots(x) && NoLate(cfg, time, x) && e.R?
    ensures var store := Run(cfg, time, x).left;
      Gather(store, e.key, Partners(cfg, store, e.key, e.ts), WithRight(joiner, e.v2)) == With(cfg, joiner, x, e)
  {
    if x == [] {
      assert Partners(cfg, Run(cfg, time, x).left, e.key, e.ts) == {};
    } else {
      var n := |x| - 1;
      var y, f := x[..n], x[n];
      PrefixStays(cfg, time, x, n);
      GatherLeft(cfg, joiner, time, y, e);
      assert Accepted(cfg, time, x, n) && x == y + [f];
      SnocRun(cfg, time, y, f);
      if f.L? {
        FreshSlot(cfg, time, y, f);
        GatherInsert(cfg, Run(cfg, time, y).left, e.key, e.ts, (f.key, f.ts), f.v1, WithRight(joiner, e.v2));
      }
    }
  }

  lemma {:induction false} GatherRight<K, V1, V2, W>(cfg: Config, joiner: (V1, V2) -> W, time: int,
                                                     x: seq<Event<K, V1, V2>>, e: Event<K, V1, V2>)
    requires NoSweeps(x) && DistinctSlots(x) && NoLate(cfg, time, x) && e.L?
    ensures var store := Run(cfg, time, x).right;
      Gather(store, e.key, Partners(cfg, store, e.key, e.ts), WithLeft(joiner, e.v1)) == With(cfg, joiner, x, e)
  {
    if x == [] {
      assert Partners(cfg, Run(cfg, time, x).right, e.key, e.ts) == {};
    } else {
      var n := |x| - 1;
      var y, f := x[..n], x[n];
      PrefixStays(cfg, time, x, n);
      GatherRight(cfg, joiner, time, y, e);
      assert Accepted(cfg, time, x, n) && x == y + [f];
      SnocRun(cfg, time, y, f);
      if f.R? {
        FreshSlot(cfg, time, y, f);
        GatherInsert(cfg, Run(cfg, time, y).right, e.key, e.ts, (f.key, f.ts), f.v2, WithLeft(joiner, e.v1));
      }
    }
  }

  lemma EmissionsAreWith<K, V1, V2, W>(cfg: Config, joiner: (V1, V2) -> W, time: int, x: seq<Event<K, V1, V2>>,
                                       e: Event<K, V1, V2>)
    requires NoSweeps(x) && DistinctSlots(x) && NoLate(cfg, time, x) && !e.Sweep?
             && !Late(cfg, TimeAfter(time, x), e.ts)
    ensures Values(Emits(cfg, joiner, Run(cfg, time, x), e)) == With(cfg, joiner, x, e)
  {
    var t := Run(cfg, time, x);
    StoresHoldLatest(cfg, time, x, e.key, e.ts);
    var out := Emits(cfg, joiner, t, e);
    if e.L? {
      var partners := Partners(cfg, t.right, e.key, e.ts);
      ValuesGather(t.right, e.key, partners, Listing(partners), WithLeft(joiner, e.v1), out);
      GatherRight(cfg, joiner, time, x, e);
    } else {
      var partners := Partners(cfg, t.left, e.key, e.ts);
      ValuesGather(t.left, e.key, partners, Listing(partners), WithRight(joiner, e.v2), out);
      GatherLeft(cfg, joiner, time, x, e);
    }
  }

  /** A run emits the values of exactly its in-window pairs, each once. */
  lemma {:induction false} OutputIsPairs<K, V1, V2, W>(cfg: Config, joiner: (V1, V2) -> W, time: int,
                                                       events: seq<Event<K, V1, V2>>)
    requires NoSweeps(events) && DistinctSlots(events) && NoLate(cfg, time, events)
    ensures Output(cfg, joiner, time, events) == Pairs(cfg, joiner, events)
  {
    if events != [] {
      var n := |events| - 1;
      PrefixStays(cfg, time, events, n);
      OutputIsPairs(cfg, joiner, time, events[..n]);
      assert Accepted(cfg, time, events, n);
      EmissionsAreWith(cfg, joiner, time, events[..n], events[n]);
    }
  }

  lemma {:induction false} WithConcat<K, V1, V2, W>(cfg: Config, joiner: (V1, V2) -> W, x: seq<Event<K, V1, V2>>,
                                                    y: seq<Event<K, V1, V2>>, e: Event<K, V1, V2>)
    ensures With(cfg, joiner, x + y, e) == With(cfg, joiner, x, e) + With(cfg, joiner, y, e)
  {
    if y == [] {
      assert x + y == x;
    } else {
      assert (x + y)[..|x + y| - 1] == x + y[..|y| - 1];
      WithConcat(cfg, joiner, x, y[..|y| - 1], e);
    }
  }

  lemma {:induction false} WithPermute<K, V1, V2, W>(cfg: Config, joiner: (V1, V2) -> W, a: seq<Event<K, V1, V2>>,
                                                     b: seq<Event<K, V1, V2>>, e: Event<K, V1, V2>)
    requires multiset(a) == multiset(b)
    ensures With(cfg, joiner, a, e) == With(cfg, joiner, b, e)
  {
    SameLength(a, b);
    if a != [] {
      var init, f := a[..|a| - 1], a[|a| - 1];
      assert a == init + [f];
      WithConcat(cfg, joiner, init, [f], e);
      var x, y := TakeOut(a, b);
      WithInsert(cfg, joiner, x, f, y, e);
      WithPermute(cfg, joiner, init, x + y, e);
    }
  }

  lemma WithInsert<K, V1, V2, W>(cfg: Config, joiner: (V1, V2) -> W, x: seq<Event<K, V1, V2>>, f: Event<K, V1, V2>,
                                 y: seq<Event<K, V1, V2>>, e: Event<K, V1, V2>)
    ensures With(cfg, joiner, x + [f] + y, e) == With(cfg, joiner, x + y, e) + With(cfg, joiner, [f], e)
  {
    WithConcat(cfg, joiner, x, y, e);
    WithConcat(cfg, joiner, x + [f], y, e);
    WithConcat(cfg, joiner, x, [f], e);
  }

  predicate NonNegative<K, V1, V2>(events: seq<Event<K, V1, V2>>) {
    forall i :: 0 <= i < |events| ==> !events[i].Sweep? ==> events[i].ts >= 0
  }

  /** With `before + grace == after` two events see each other or neither sees the other. */
  lemma MatchSymmetric<K, V1, V2, W>(cfg: Config, joiner: (V1, V2) -> W, e: Event<K, V1, V2>, f: Event<K, V1, V2>)
    requires cfg.Valid() && cfg.before + cfg.grace == cfg.after && !e.Sweep? && !f.Sweep? && e.ts >= 0 && f.ts >= 0
    ensures With(cfg, joiner, [e], f) == With(cfg, joiner, [f], e)
  {
    assert [e][..0] == [] && [f][..0] == [];
  }

  /** An arrival with a non-negative timestamp. */
  predicate Plain<K, V1, V2>(e: Event<K, V1, V2>) {
    !e.Sweep? && e.ts >= 0
  }

  lemma PairsSnoc<K, V1, V2, W>(cfg: Config, joiner: (V1, V2) -> W, x: seq<Event<K, V1, V2>>, f: Event<K, V1, V2>)
    ensures Pairs(cfg, joiner, x + [f]) == Pairs(cfg, joiner, x) + With(cfg, joiner, x, f)
  {
    assert (x + [f])[..|x|] == x;
  }

  lemma {:induction false} PairsInsert<K, V1, V2, W>(cfg: Config, joiner: (V1, V2) -> W, x: seq<Event<K, V1, V2>>,
                                                     e: Event<K, V1, V2>, y: seq<Event<K, V1, V2>>)
    requires cfg.Valid() && cfg.before + cfg.grace == cfg.after && Plain(e) && forall i :: 0 <= i < |y| ==> Plain(y[i])
    ensures Pairs(cfg, joiner, x + [e] + y) == Pairs(cfg, joiner, x + y) + With(cfg, joiner, x + y, e)
  {
    if y == [] {
      assert x + [e] + y == x + [e] && x + y == x;
      PairsSnoc(cfg, joiner, x, e);
    } else {
      var z, f := y[..|y| - 1], y[|y| - 1];
      PairsInsert(cfg, joiner, x, e, z);
      PairsInsertStep(cfg, joiner, x, e, z, f);
      SplitLast(x + [e], y);
      SplitLast(x, y);
    }
  }

  lemma SplitLast<T>(x: seq<T>, y: seq<T>)
    requires y != []
    ensures x + y == (x + y[..|y| - 1]) + [y[|y| - 1]]
  {
  }

  lemma PairsInsertStep<K, V1, V2, W>(cfg: Config, joiner: (V1, V2) -> W, x: seq<Event<K, V1, V2>>,
                                      e: Event<K, V1, V2>, z: seq<Event<K, V1, V2>>, f: Event<K, V1, V2>)
    requires cfg.Valid() && cfg.before + cfg.grace == cfg.after && Plain(e) && Plain(f)
    requires Pairs(cfg, joiner, x + [e] + z) == Pairs(cfg, joiner, x + z) + With(cfg, joiner, x + z, e)
    ensures Pairs(cfg, joiner, (x + [e] + z) + [f])
            == Pairs(cfg, joiner, (x + z) + [f]) + With(cfg, joiner, (x + z) + [f], e)
  {
    PairsSnoc(cfg, joiner, x + [e] + z, f);
    PairsSnoc(cfg, joiner, x + z, f);
    WithInsert(cfg, joiner, x, e, z, f);
    WithConcat(cfg, joiner, x + z, [f], e);
    MatchSymmetric(cfg, joiner, e, f);
  }

  lemma {:induction false} PairsPermute<K, V1, V2, W>(cfg: Config, joiner: (V1, V2) -> W, a: seq<Event<K, V1, V2>>,
                                                      b: seq<Event<K, V1, V2>>)
    requires cfg.Valid() && cfg.before + cfg.grace == cfg.after && multiset(a) == multiset(b)
    requires NoSweeps(a) && NonNegative(a) && NoSweeps(b) && NonNegative(b)
    ensures Pairs(cfg, joiner, a) == Pairs(cfg, joiner, b)
  {
    SameLength(a, b);
    if a != [] {
      var init, e := a[..|a| - 1], a[|a| - 1];
      var x, y := TakeOut(a, b);
      assert forall i :: 0 <= i < |x + y| ==> (x + y)[i] == b[if i < |x| then i else i + 1];
      PairsPermute(cfg, joiner, init, x + y);
      assert forall i :: 0 <= i < |y| ==> y[i] == b[|x| + 1 + i];
      assert b[|x|] == e;
      PairsInsert(cfg, joiner, x, e, y);
      WithPermute(cfg, joiner, init, x + y, e);
    }
  }

  /** Distinct timestamps per key and side, none negative, none dropped as late, no sweeps. */
  predicate Regular<K(==), V1, V2>(cfg: Config, time: int, events: seq<Event<K, V1, V2>>) {
    NoSweeps(events) && NonNegative(events) && DistinctSlots(events) && NoLate(cfg, time, events)
  }

  /** When `before + grace == after`, every interleaving emits the same multiset of joined values. */
  lemma InterleavingIrrelevant<K, V1, V2, W>(cfg: Config, joiner: (V1, V2) -> W, time: int, a: seq<Event<K, V1, V2>>,
                                             b: seq<Event<K, V1, V2>>)
    requires cfg.Valid() && cfg.before + cfg.grace == cfg.after
    requires multiset(a) == multiset(b) && Regular(cfg, time, a) && Regular(cfg, time, b)
    ensures Output(cfg, joiner, time, a) == Output(cfg, joiner, time, b)
  {
    OutputIsPairs(cfg, joiner, time, a);
    OutputIsPairs(cfg, joiner, time, b);
    PairsPermute(cfg, joiner, a, b);
  }

  ghost predicate OrderMatters<W>(cfg: Config, joiner: (int, int) -> W, a: seq<Event<int, int, int>>,
                                  b: seq<Event<int, int, int>>) {
    multiset(a) == multiset(b) && Regular(cfg, 0, a) && Regular(cfg, 0, b)
      && Output(cfg, joiner, 0, a) != Output(cfg, joiner, 0, b)
  }

  /** The condition is exact: for any other configuration there are two arrivals that emit their value in
      one order and not in the other. */
  lemma OrderMattersIff<W>(cfg: Config, joiner: (int, int) -> W)
    requires cfg.Valid()
    ensures cfg.before + cfg.grace != cfg.after <==> exists a, b :: OrderMatters(cfg, joiner, a, b)
  {
    if cfg.before + cfg.grace != cfg.after {
      var a, b := AsymmetricPair(cfg, joiner);
    } else {
      forall a, b | OrderMatters(cfg, joiner, a, b) ensures false {
        InterleavingIrrelevant(cfg, joiner, 0, a, b);
      }
    }
  }

  lemma AsymmetricPair<W>(cfg: Config, joiner: (int, int) -> W)
    returns (a: seq<Event<int, int, int>>, b: seq<Event<int, int, int>>)
    requires cfg.Valid() && cfg.before + cfg.grace != cfg.after
    ensures OrderMatters(cfg, joiner, a, b)
  {
    var t := (if cfg.before + cfg.grace < cfg.after then cfg.before + cfg.grace else cfg.after) + 1;
    var l, r: Event<int, int, int> := L(0, 0, 0), R(0, t, 0);
    if Match(cfg, r, l) {
      a, b := SeenOnce(cfg, joiner, l, r);
    } else {
      a, b := SeenOnce(cfg, joiner, r, l);
    }
  }

  lemma SeenOnce<W>(cfg: Config, joiner: (int, int) -> W, e: Event<int, int, int>, f: Event<int, int, int>)
    returns (a: seq<Event<int, int, int>>, b: seq<Event<int, int, int>>)
    requires cfg.Valid() && Match(cfg, f, e) && !Match(cfg, e, f) && e.ts >= 0 && f.ts >= 0
    requires e.ts <= f.ts + cfg.Retention() && f.ts <= e.ts + cfg.Retention()
    ensures OrderMatters(cfg, joiner, a, b)
  {
    a := [e, f];
    b := [f, e];
    TwoSwapped(e, f);
    OutputOfTwo(cfg, joiner, e, f);
    OutputOfTwo(cfg, joiner, f, e);
    assert Joined(joiner, e, f) in Output(cfg, joiner, 0, a);
  }

  lemma TwoSwapped<T>(x: T, y: T)
    ensures multiset([x, y]) == multiset([y, x])
  {}

  lemma OutputOfTwo<W>(cfg: Config, joiner: (int, int) -> W, e: Event<int, int, int>, f: Event<int, int, int>)
    requires cfg.Valid() && !e.Sweep? && !f.Sweep? && e.L? != f.L? && e.ts >= 0 && f.ts >= 0
             && e.ts <= f.ts + cfg.Retention()
    ensures Regular(cfg, 0, [e, f])
    ensures Output(cfg, joiner, 0, [e, f]) == if Match(cfg, f, e) then multiset{Joined(joiner, e, f)} else multiset{}
  {
    TwoAreRegular(cfg, e, f);
    OutputIsPairs(cfg, joiner, 0, [e, f]);
    PairsOfTwo(cfg, joiner, e, f);
  }

  lemma TwoAreRegular(cfg: Config, e: Event<int, int, int>, f: Event<int, int, int>)
    requires cfg.Valid() && !e.Sweep? && !f.Sweep? && e.L? != f.L? && e.ts >= 0 && f.ts >= 0
             && e.ts <= f.ts + cfg.Retention()
    ensures Regular(cfg, 0, [e, f])
  {
    assert [e, f][..0] == [] && [e, f][..1] == [e] && [e][..0] == [];
    assert TimeAfter(0, [e]) == e.ts;
  }

  lemma PairsOfTwo<W>(cfg: Config, joiner: (int, int) -> W, e: Event<int, int, int>, f: Event<int, int, int>)
    ensures Pairs(cfg, joiner, [e, f]) == if Match(cfg, f, e) then multiset{Joined(joiner, e, f)} else multiset{}
  {
    assert [e, f] == [e] + [f] && [e] == [] + [e];
    PairsSnoc(cfg, joiner, [e], f);
    PairsSnoc(cfg, joiner, [], e);
    assert With(cfg, joiner, [e], f) == With(cfg, joiner, [e][..0], f)
        + if Match(cfg, f, e) then multiset{Joined(joiner, e, f)} else multiset{};
  }
}
