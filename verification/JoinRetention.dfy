/** Retention of the stream-stream join (ssjoin.go, `sweepWindowStore`): when the sweep is invisible to
    the records that arrive after it. */
module JoinRetention {
  import opened JoinTask

  /** Every arrival is at most `after` behind the stream time it meets. */
  predicate OnTime<K(==), V1, V2>(cfg: Config, time: int, events: seq<Event<K, V1, V2>>) {
    events == []
    || (OnTime(cfg, time, events[..|events| - 1])
        && var e := events[|events| - 1];
           !e.Sweep? ==> e.ts >= TimeAfter(time, events[..|events| - 1]) - cfg.after)
  }

  function DropSweeps<K, V1, V2>(events: seq<Event<K, V1, V2>>): seq<Event<K, V1, V2>> {
    if events == [] then []
    else
      var e := events[|events| - 1];
      DropSweeps(events[..|events| - 1]) + if e.Sweep? then [] else [e]
  }

  /** What each arrival forwards, in order. */
  ghost function Outputs<K, V1, V2, W>(cfg: Config, joiner: (V1, V2) -> W, time: int,
                                       events: seq<Event<K, V1, V2>>): seq<seq<Emission<W>>> {
    if events == [] then []
    else
      var init, e := events[..|events| - 1], events[|events| - 1];
      Outputs(cfg, joiner, time, init) + if e.Sweep? then [] else [Emits(cfg, joiner, Run(cfg, time, init), e)]
  }

  /** `swept` is `full` without some entries below the boundary. */
  ghost predicate Thinned<K(!new), V>(swept: map<(K, int), V>, full: map<(K, int), V>, boundary: int) {
    && (forall p :: p in swept ==> p in full && full[p] == swept[p])
    && (forall p :: p in full && p !in swept ==> boundary > 0 && p.1 < boundary)
  }

  ghost predicate Agree<K(!new), V1, V2>(cfg: Config, swept: Task<K, V1, V2>, full: Task<K, V1, V2>) {
    && swept.streamTime == full.streamTime
    && Thinned(swept.left, full.left, full.streamTime - cfg.Retention())
    && Thinned(swept.right, full.right, full.streamTime - cfg.Retention())
  }

  lemma ScanAgrees<K(!new), V, W>(cfg: Config, swept: map<(K, int), V>, full: map<(K, int), V>, boundary: int, k: K,
                                  ts: int, join: V -> W)
    requires Thinned(swept, full, boundary) && (boundary > 0 ==> ts + cfg.after >= -1 && Lo(cfg, ts) >= boundary)
    ensures Scan(cfg, swept, k, ts, join) == Scan(cfg, full, k, ts, join)
  {
    var a, b := Partners(cfg, swept, k, ts), Partners(cfg, full, k, ts);
    forall t
      ensures t in a <==> t in b
    {
      if t in b { assert (k, t) in swept; }
    }
    assert a == b;
  }

  lemma ArrivalAgrees<K(!new), V1, V2, W>(cfg: Config, joiner: (V1, V2) -> W, swept: Task<K, V1, V2>,
                                          full: Task<K, V1, V2>, e: Event<K, V1, V2>)
    requires cfg.Valid() && Agree(cfg, swept, full) && !e.Sweep? && e.ts >= full.streamTime - cfg.after
    ensures Agree(cfg, Process(cfg, swept, e), Process(cfg, full, e))
    ensures Emits(cfg, joiner, swept, e) == Emits(cfg, joiner, full, e)
  {
    var boundary := full.streamTime - cfg.Retention();
    if e.L? {
      ScanAgrees(cfg, swept.right, full.right, boundary, e.key, e.ts, WithLeft(joiner, e.v1));
    } else {
      ScanAgrees(cfg, swept.left, full.left, boundary, e.key, e.ts, WithRight(joiner, e.v2));
    }
  }

  /** Retention over whole runs: if every arrival is at most `after` behind, a run with sweeps at
      arbitrary points forwards exactly what the run without them forwards, and the stores differ only
      in entries below `streamTime - before - after - grace`. */
  lemma {:induction false} SweepsAreInvisible<K(!new), V1, V2, W>(cfg: Config, joiner: (V1, V2) -> W, time: int,
                                                                  events: seq<Event<K, V1, V2>>)
    requires cfg.Valid() && OnTime(cfg, time, events)
    ensures Agree(cfg, Run(cfg, time, events), Run(cfg, time, DropSweeps(events)))
    ensures Run(cfg, time, events).streamTime == TimeAfter(time, events)
    ensures Outputs(cfg, joiner, time, events) == Outputs(cfg, joiner, time, DropSweeps(events))
  {
    if events != [] {
      var init, e := events[..|events| - 1], events[|events| - 1];
      SweepsAreInvisible(cfg, joiner, time, init);
      var dropped := DropSweeps(init);
      var swept, full := Run(cfg, time, init), Run(cfg, time, dropped);
      if e.Sweep? {
        assert dropped + [] == dropped;
        assert Outputs(cfg, joiner, time, init) + [] == Outputs(cfg, joiner, time, init);
      } else {
        ArrivalAgrees(cfg, joiner, swept, full, e);
        assert (dropped + [e])[..|dropped|] == dropped;
      }
    }
  }

  /** The hypothesis is exact. For one sweep and one later accepted arrival: the arrival finds its
      partners in every store, whatever the store held, if and only if nothing was old enough to evict
      or the arrival is at most `after` behind. */
  lemma SweepInvisibleIffOnTime(cfg: Config, streamTime: int, ts: int)
    requires cfg.Valid() && !Late(cfg, streamTime, ts)
    ensures (forall store: map<(int, int), int>, k ::
               Partners(cfg, SweepStore(cfg, store, streamTime), k, ts) == Partners(cfg, store, k, ts))
            <==> streamTime - cfg.before - cfg.after - cfg.grace <= 0 || ts >= streamTime - cfg.after
  {
    var boundary := streamTime - cfg.Retention();
    if boundary <= 0 || ts >= streamTime - cfg.after {
      forall store: map<(int, int), int>, k
        ensures Partners(cfg, SweepStore(cfg, store, streamTime), k, ts) == Partners(cfg, store, k, ts)
      {
        PartnersSurvive(cfg, store, k, streamTime, ts);
      }
    } else {
      var store: map<(int, int), int> := map[(0, Lo(cfg, ts)) := 0];
      assert Lo(cfg, ts) in Partners(cfg, store, 0, ts) by { assert (0, Lo(cfg, ts)) in store; }
      assert (0, Lo(cfg, ts)) !in SweepStore(cfg, store, streamTime);
      assert Lo(cfg, ts) !in Partners(cfg, SweepStore(cfg, store, streamTime), 0, ts);
    }
  }

  lemma PartnersSurvive(cfg: Config, store: map<(int, int), int>, k: int, streamTime: int, ts: int)
    requires cfg.Valid() && (streamTime - cfg.Retention() <= 0 || ts >= streamTime - cfg.after)
    ensures Partners(cfg, SweepStore(cfg, store, streamTime), k, ts) == Partners(cfg, store, k, ts)
  {
    var swept := SweepStore(cfg, store, streamTime);
    forall t
      ensures t in Partners(cfg, swept, k, ts) <==> t in Partners(cfg, store, k, ts)
    {
      if t in Partners(cfg, store, k, ts) { assert (k, t) in swept; }
    }
  }

  type Arrival = Event<int, int, int>

  /** A reachable instance, against the claim at ssjoin.go:124-128 that both stores are always retained
      long enough: look-back 10, no look-ahead, no grace. A right record at 90, another key at 101, a
      sweep (boundary 91), then a left record at 95. It is accepted, its window is [85, 95], and its
      partner is gone. */
  lemma LateRecordMissesItsPartner(joiner: (int, int) -> int)
    ensures var cfg := Config(10, 0, 0);
      var a: Arrival, b: Arrival, c: Arrival := R(1, 90, 7), R(2, 101, 8), L(1, 95, 9);
      && !Late(cfg, Run(cfg, 0, [a, b, Sweep]).streamTime, c.ts)
      && Emits(cfg, joiner, Run(cfg, 0, [a, b, Sweep]), c) == []
      && |Emits(cfg, joiner, Run(cfg, 0, [a, b]), c)| > 0
  {
    var cfg := Config(10, 0, 0);
    var a: Arrival, b: Arrival, c: Arrival := R(1, 90, 7), R(2, 101, 8), L(1, 95, 9);
    TwoRights();
    var full, swept := Run(cfg, 0, [a, b]), Run(cfg, 0, [a, b, Sweep]);
    assert [a, b, Sweep][..2] == [a, b];
    assert SweepStore(cfg, full.left, 101) == map[] && SweepStore(cfg, full.right, 101) == map[(2, 101) := 8];
    assert swept == Process(cfg, full, Sweep) == Task(101, map[], map[(2, 101) := 8]);
    assert Partners(cfg, swept.right, 1, 95) == {};
    assert (1, 90) in full.right && InWindow(cfg, 95, 90);
    assert 90 in Partners(cfg, full.right, 1, 95);
  }

  lemma TwoRights()
    ensures var a: Arrival, b: Arrival := R(1, 90, 7), R(2, 101, 8);
      Run(Config(10, 0, 0), 0, [a, b]) == Task(101, map[], map[(1, 90) := 7, (2, 101) := 8])
  {
    var cfg := Config(10, 0, 0);
    var a: Arrival, b: Arrival := R(1, 90, 7), R(2, 101, 8);
    assert [a][..0] == [] && [a, b][..1] == [a];
    assert Run(cfg, 0, [a]) == Task(90, map[], map[(1, 90) := 7]);
  }
}
