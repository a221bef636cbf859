/** The session processor over a whole task: many keys, one stream time, late records and retention
    sweeps (session.go, and the session sweep of internal/runtime/task_manager.go). */
module SessionTask {
  import opened Collections
  import opened Sessions

  datatype Config = Config(gap: int, grace: int) {
    predicate Valid() { gap > 0 && grace >= 0 }
  }

  datatype Event<K, V> = Record(key: K, ts: int, value: V) | Sweep

  datatype Task<K, A> = Task(streamTime: int, sessions: map<K, Store<A>>)

  function Of<K, A>(t: Task<K, A>, k: K): Store<A> {
    if k in t.sessions then t.sessions[k] else map[]
  }

  /** The late test, on the stream time already advanced by the record. */
  predicate Late(cfg: Config, streamTime: int, ts: int) {
    ts < Max(streamTime, ts) - cfg.gap - cfg.grace
  }

  /** `sweepSessionStore`: evicts by session end; a boundary that is not positive evicts nothing. */
  function SweepStore<A>(cfg: Config, m: Store<A>, streamTime: int): Store<A> {
    var boundary := streamTime - cfg.gap - cfg.grace;
    if boundary <= 0 then m else map s | s in m && !(m[s].end < boundary) :: m[s]
  }

  ghost function Process<K, V, A>(cfg: Config, f: K -> Fns<V, A>, t: Task<K, A>, e: Event<K, V>): Task<K, A> {
    match e
    case Sweep => Task(t.streamTime, map k | k in t.sessions :: SweepStore(cfg, t.sessions[k], t.streamTime))
    case Record(k, ts, v) =>
      var time := Max(t.streamTime, ts);
      if Late(cfg, t.streamTime, ts) then Task(time, t.sessions)
      else Task(time, t.sessions[k := Step(cfg.gap, f(k), Of(t, k), Rec(ts, v))])
  }

  /** What one event does to one key. */
  lemma ProcessAt<K, V, A>(cfg: Config, f: K -> Fns<V, A>, t: Task<K, A>, e: Event<K, V>, k: K)
    ensures Of(Process(cfg, f, t, e), k)
         == if e.Sweep? then SweepStore(cfg, Of(t, k), t.streamTime)
            else if e.key == k && !Late(cfg, t.streamTime, e.ts) then Step(cfg.gap, f(k), Of(t, k), Rec(e.ts, e.value))
            else Of(t, k)
    ensures Process(cfg, f, t, e).streamTime == if e.Sweep? then t.streamTime else Max(t.streamTime, e.ts)
  {
  }

  ghost function Run<K, V, A>(cfg: Config, f: K -> Fns<V, A>, time: int, events: seq<Event<K, V>>): Task<K, A> {
    if events == [] then Task(time, map[])
    else Process(cfg, f, Run(cfg, f, time, events[..|events| - 1]), events[|events| - 1])
  }

  function TimeAfter<K, V>(time: int, events: seq<Event<K, V>>): int {
    if events == [] then time
    else
      var before, e := TimeAfter(time, events[..|events| - 1]), events[|events| - 1];
      if e.Record? then Max(before, e.ts) else before
  }

  lemma {:induction false} RunTime<K, V, A>(cfg: Config, f: K -> Fns<V, A>, time: int, events: seq<Event<K, V>>)
    ensures Run(cfg, f, time, events).streamTime == TimeAfter(time, events)
  {
    if events != [] { RunTime(cfg, f, time, events[..|events| - 1]); }
  }

  /** The records of `k` the task accepts, in arrival order. */
  function Accepted<K(==), V>(cfg: Config, time: int, events: seq<Event<K, V>>, k: K): seq<Rec<V>> {
    if events == [] then []
    else
      var init, e := events[..|events| - 1], events[|events| - 1];
      Accepted(cfg, time, init, k)
      + if e.Record? && e.key == k && !Late(cfg, TimeAfter(time, init), e.ts) then [Rec(e.ts, e.value)] else []
  }

  /** All records of `k`, in arrival order. */
  function RecordsOf<K(==), V>(events: seq<Event<K, V>>, k: K): seq<Rec<V>> {
    if events == [] then []
    else
      var init, e := events[..|events| - 1], events[|events| - 1];
      RecordsOf(init, k) + if e.Record? && e.key == k then [Rec(e.ts, e.value)] else []
  }

  /** How many records come more than `gap + grace` behind the highest timestamp before them. */
  function Stragglers<K, V>(cfg: Config, time: int, events: seq<Event<K, V>>): nat {
    if events == [] then 0
    else
      var init, e := events[..|events| - 1], events[|events| - 1];
      Stragglers(cfg, time, init)
      + if e.Record? && TimeAfter(time, init) - e.ts > cfg.gap + cfg.grace then 1 else 0
  }

  /** No record of `k` is one of these. */
  predicate Timely<K(==), V>(cfg: Config, time: int, events: seq<Event<K, V>>, k: K) {
    events == []
    || (Timely(cfg, time, events[..|events| - 1], k)
        && var e := events[|events| - 1];
           e.Record? && e.key == k ==> TimeAfter(time, events[..|events| - 1]) - e.ts <= cfg.gap + cfg.grace)
  }

  lemma {:induction false} AcceptedFewer<K, V>(cfg: Config, time: int, events: seq<Event<K, V>>, k: K)
    ensures |Accepted(cfg, time, events, k)| <= |RecordsOf(events, k)|
  {
    if events != [] { AcceptedFewer(cfg, time, events[..|events| - 1], k); }
  }

  /** Every record of a key is accepted, in order, if and only if none is more than `gap + grace` behind. */
  lemma {:induction false} AllAcceptedIffTimely<K, V>(cfg: Config, time: int, events: seq<Event<K, V>>, k: K)
    requires cfg.Valid()
    ensures Accepted(cfg, time, events, k) == RecordsOf(events, k) <==> Timely(cfg, time, events, k)
  {
    if events != [] {
      var init, e := events[..|events| - 1], events[|events| - 1];
      AllAcceptedIffTimely(cfg, time, init, k);
      AcceptedFewer(cfg, time, init, k);
      var accepted, records := Accepted(cfg, time, init, k), RecordsOf(init, k);
      if !(e.Record? && e.key == k) {
        assert accepted + [] == accepted && records + [] == records;
      } else if TimeAfter(time, init) - e.ts <= cfg.gap + cfg.grace {
        SnocInjective(accepted, records, Rec(e.ts, e.value));
      } else {
        assert |accepted + []| < |records + [Rec(e.ts, e.value)]|;
      }
    }
  }

  lemma SnocInjective<T>(a: seq<T>, b: seq<T>, x: T)
    ensures a + [x] == b + [x] <==> a == b
  {
    assert (a + [x])[..|a|] == a && (b + [x])[..|b|] == b;
  }

  predicate NoSweeps<K, V>(events: seq<Event<K, V>>) {
    forall i :: 0 <= i < |events| ==> events[i].Record?
  }

  /** Without sweeps the task keeps, for every key, the aggregate of exactly the accepted records of
      that key: `SessionsAreComponents`, `OrderOfArrivalIrrelevant` and `CountsAddUp` apply to it. */
  lemma {:induction false} RunAggregatesEachKey<K, V, A>(cfg: Config, f: K -> Fns<V, A>, time: int,
                                                         events: seq<Event<K, V>>, k: K)
    requires NoSweeps(events)
    ensures Run(cfg, f, time, events).streamTime == TimeAfter(time, events)
    ensures Of(Run(cfg, f, time, events), k) == Aggregate(cfg.gap, f(k), Accepted(cfg, time, events, k))
  {
    if events != [] {
      var init, e := events[..|events| - 1], events[|events| - 1];
      RunAggregatesEachKey(cfg, f, time, init, k);
      var accepted := Accepted(cfg, time, init, k);
      if e.key == k && !Late(cfg, TimeAfter(time, init), e.ts) {
        assert (accepted + [Rec(e.ts, e.value)])[..|accepted|] == accepted;
      } else {
        assert accepted + [] == accepted;
      }
    }
  }

  // Sweep transparency.

  /** What a record does to the store: the sessions it deletes and the session it writes. */
  datatype Update<K, A> = Dropped | Update(key: K, deleted: set<int>, start: int, session: Session<A>)

  ghost function UpdateOf<K, V, A>(cfg: Config, f: K -> Fns<V, A>, t: Task<K, A>, e: Event<K, V>): Update<K, A>
    requires e.Record?
  {
    if Late(cfg, t.streamTime, e.ts) then Dropped
    else
      var m := Of(t, e.key);
      var matched := Matched(cfg.gap, m, e.ts);
      Update(e.key, matched, MergedStart(Listing(matched), e.ts),
             Written(f(e.key), m, Listing(matched), Rec(e.ts, e.value)))
  }

  /** The updates of a run, one per record. */
  ghost function Updates<K, V, A>(cfg: Config, f: K -> Fns<V, A>, time: int,
                                  events: seq<Event<K, V>>): seq<Update<K, A>> {
    if events == [] then []
    else
      var init, e := events[..|events| - 1], events[|events| - 1];
      Updates(cfg, f, time, init) + if e.Record? then [UpdateOf(cfg, f, Run(cfg, f, time, init), e)] else []
  }

  function DropSweeps<K, V>(events: seq<Event<K, V>>): (r: seq<Event<K, V>>)
    ensures NoSweeps(r)
  {
    if events == [] then []
    else
      var e := events[|events| - 1];
      DropSweeps(events[..|events| - 1]) + if e.Record? then [e] else []
  }

  /** Every record arrives no later than the grace period behind the stream time. */
  predicate OnTime<K, V>(cfg: Config, time: int, events: seq<Event<K, V>>) {
    events == []
    || (OnTime(cfg, time, events[..|events| - 1])
        && var e := events[|events| - 1];
           e.Record? ==> e.ts >= TimeAfter(time, events[..|events| - 1]) - cfg.grace)
  }

  /** Then every record is accepted and none is counted late. */
  lemma {:induction false} OnTimeIsTimely<K, V>(cfg: Config, time: int, events: seq<Event<K, V>>, k: K)
    requires cfg.Valid() && OnTime(cfg, time, events)
    ensures Timely(cfg, time, events, k) && Accepted(cfg, time, events, k) == RecordsOf(events, k)
    ensures Stragglers(cfg, time, events) == 0
  {
    if events != [] { OnTimeIsTimely(cfg, time, events[..|events| - 1], k); }
    AllAcceptedIffTimely(cfg, time, events, k);
  }

  /** The swept store is the full one minus sessions that ended before the boundary. */
  ghost predicate Agree<A>(cfg: Config, streamTime: int, swept: Store<A>, full: Store<A>) {
    && (forall s :: s in swept ==> s in full && full[s] == swept[s])
    && (forall s :: s in full && s !in swept ==> full[s].end < streamTime - cfg.gap - cfg.grace)
  }

  ghost predicate Proper<A>(m: Store<A>) {
    forall s :: s in m ==> s <= m[s].end
  }

  lemma SameMatches<A>(cfg: Config, streamTime: int, swept: Store<A>, full: Store<A>, ts: int)
    requires cfg.Valid() && Agree(cfg, streamTime, swept, full) && ts >= streamTime - cfg.grace
    ensures Matched(cfg.gap, swept, ts) == Matched(cfg.gap, full, ts)
  {
  }

  lemma {:induction false} SameMergedEnd<A>(swept: Store<A>, full: Store<A>, order: seq<int>, ts: int)
    requires AllIn(order, swept) && AllIn(order, full)
    requires forall i :: 0 <= i < |order| ==> swept[order[i]] == full[order[i]]
    ensures MergedEnd(swept, order, ts) == MergedEnd(full, order, ts)
  {
    if order != [] { SameMergedEnd(swept, full, order[..|order| - 1], ts); }
  }

  lemma {:induction false} SameMergedAcc<V, A>(f: Fns<V, A>, swept: Store<A>, full: Store<A>, order: seq<int>)
    requires AllIn(order, swept) && AllIn(order, full)
    requires forall i :: 0 <= i < |order| ==> swept[order[i]] == full[order[i]]
    ensures MergedAcc(f, swept, order) == MergedAcc(f, full, order)
  {
    if order != [] { SameMergedAcc(f, swept, full, order[..|order| - 1]); }
  }

  lemma {:induction false} MergedStartFrom(order: seq<int>, ts: int)
    ensures MergedStart(order, ts) == ts || MergedStart(order, ts) in order
  {
    if order != [] { MergedStartFrom(order[..|order| - 1], ts); }
  }

  /** One record on both stores: the same update, and the stores still agree. */
  lemma RecordAgrees<V, A>(cfg: Config, f: Fns<V, A>, streamTime: int, swept: Store<A>, full: Store<A>, r: Rec<V>)
    requires cfg.Valid() && Agree(cfg, streamTime, swept, full) && Proper(full) && r.ts >= streamTime - cfg.grace
    ensures Matched(cfg.gap, swept, r.ts) == Matched(cfg.gap, full, r.ts)
    ensures var order := Listing(Matched(cfg.gap, full, r.ts));
            AllIn(order, swept) && AllIn(order, full) && Written(f, swept, order, r) == Written(f, full, order, r)
    ensures Agree(cfg, Max(streamTime, r.ts), Step(cfg.gap, f, swept, r), Step(cfg.gap, f, full, r))
  {
    SameMatches(cfg, streamTime, swept, full, r.ts);
    var order := Listing(Matched(cfg.gap, full, r.ts));
    SameMergedEnd(swept, full, order, r.ts);
    SameMergedAcc(f, swept, full, order);
    MergedStartFrom(order, r.ts);
    MergeAgrees(cfg, f, streamTime, swept, full, order, r);
  }

  lemma MergeAgrees<V, A>(cfg: Config, f: Fns<V, A>, streamTime: int, swept: Store<A>, full: Store<A>,
                          order: seq<int>, r: Rec<V>)
    requires cfg.Valid() && Agree(cfg, streamTime, swept, full) && Proper(full) && r.ts >= streamTime - cfg.grace
    requires AllIn(order, swept) && AllIn(order, full) && Written(f, swept, order, r) == Written(f, full, order, r)
    requires MergedStart(order, r.ts) == r.ts || MergedStart(order, r.ts) in order
    ensures Agree(cfg, Max(streamTime, r.ts), Merge(f, swept, order, r), Merge(f, full, order, r))
  {
    var gone := Elements(order);
    assert Agree(cfg, Max(streamTime, r.ts), swept - gone, full - gone);
  }

  lemma SweepAgrees<A>(cfg: Config, streamTime: int, swept: Store<A>, full: Store<A>)
    requires Agree(cfg, streamTime, swept, full)
    ensures Agree(cfg, streamTime, SweepStore(cfg, swept, streamTime), full)
  {
  }

  ghost predicate AgreeTasks<K(!new), A>(cfg: Config, swept: Task<K, A>, full: Task<K, A>) {
    && swept.streamTime == full.streamTime
    && forall k :: Agree(cfg, full.streamTime, Of(swept, k), Of(full, k))
  }

  /** A sweep with a positive boundary evicts the sessions that ended before it and no others, in every key; any
      other sweep evicts nothing. */
  lemma SweepEvictsExactly<K, V, A>(cfg: Config, f: K -> Fns<V, A>, t: Task<K, A>, k: K, s: int)
    ensures var m, m', boundary := Of(t, k), Of(Process(cfg, f, t, Sweep), k), t.streamTime - cfg.gap - cfg.grace;
      && (s in m' <==> s in m && (boundary <= 0 || m[s].end >= boundary))
      && (s in m' ==> m'[s] == m[s])
  {
    ProcessAt(cfg, f, t, Sweep, k);
  }

  lemma SweepTaskAgrees<K(!new), V, A>(cfg: Config, f: K -> Fns<V, A>, swept: Task<K, A>, full: Task<K, A>)
    requires AgreeTasks(cfg, swept, full)
    ensures AgreeTasks(cfg, Process(cfg, f, swept, Sweep), full)
  {
    var swept' := Process(cfg, f, swept, Sweep);
    forall k
      ensures Agree(cfg, full.streamTime, Of(swept', k), Of(full, k))
    {
      SweepAgrees(cfg, full.streamTime, Of(swept, k), Of(full, k));
    }
  }

  lemma RecordTaskAgrees<K(!new), V, A>(cfg: Config, f: K -> Fns<V, A>, swept: Task<K, A>, full: Task<K, A>,
                                        e: Event<K, V>)
    requires cfg.Valid() && AgreeTasks(cfg, swept, full) && e.Record? && Proper(Of(full, e.key))
    requires e.ts >= full.streamTime - cfg.grace
    ensures AgreeTasks(cfg, Process(cfg, f, swept, e), Process(cfg, f, full, e))
    ensures UpdateOf(cfg, f, swept, e) == UpdateOf(cfg, f, full, e)
  {
    var swept', full' := Process(cfg, f, swept, e), Process(cfg, f, full, e);
    assert Agree(cfg, full.streamTime, Of(swept, e.key), Of(full, e.key));
    RecordAgrees(cfg, f(e.key), full.streamTime, Of(swept, e.key), Of(full, e.key), Rec(e.ts, e.value));
    forall k
      ensures Agree(cfg, full'.streamTime, Of(swept', k), Of(full', k))
    {
      assert Agree(cfg, full.streamTime, Of(swept, k), Of(full, k));
    }
  }

  /** Sweep transparency over whole runs: if every record is on time, a run with sweeps at arbitrary
      points makes the same updates as the run without them, and the stores differ only in sessions
      that ended before `streamTime - gap - grace`. */
  lemma {:induction false} SweepsAreInvisible<K(!new), V, A>(cfg: Config, f: K -> Fns<V, A>, time: int,
                                                             events: seq<Event<K, V>>)
    requires cfg.Valid() && OnTime(cfg, time, events)
    ensures AgreeTasks(cfg, Run(cfg, f, time, events), Run(cfg, f, time, DropSweeps(events)))
    ensures Run(cfg, f, time, events).streamTime == TimeAfter(time, events)
    ensures Updates(cfg, f, time, events) == Updates(cfg, f, time, DropSweeps(events))
  {
    if events != [] {
      var init, e := events[..|events| - 1], events[|events| - 1];
      SweepsAreInvisible(cfg, f, time, init);
      var dropped := DropSweeps(init);
      var swept, full := Run(cfg, f, time, init), Run(cfg, f, time, dropped);
      if e.Sweep? {
        SweepTaskAgrees(cfg, f, swept, full);
        assert dropped + [] == dropped;
        assert Updates(cfg, f, time, init) + [] == Updates(cfg, f, time, init);
      } else {
        RunAggregatesEachKey(cfg, f, time, dropped, e.key);
        AggregateShape(cfg.gap, f(e.key), Accepted(cfg, time, dropped, e.key));
        RecordTaskAgrees(cfg, f, swept, full, e);
        RunSnoc(cfg, f, time, dropped, e);
      }
    }
  }

  lemma RunSnoc<K, V, A>(cfg: Config, f: K -> Fns<V, A>, time: int, events: seq<Event<K, V>>, e: Event<K, V>)
    requires e.Record?
    ensures Run(cfg, f, time, events + [e]) == Process(cfg, f, Run(cfg, f, time, events), e)
    ensures Updates(cfg, f, time, events + [e])
            == Updates(cfg, f, time, events) + [UpdateOf(cfg, f, Run(cfg, f, time, events), e)]
  {
    assert (events + [e])[..|events|] == events;
  }

  /** The lateness hypothesis is exact. For one sweep and one later record: the sweep is invisible in
      every store if and only if it evicts nothing at all or the record is no later than the grace
      period. The processor accepts records up to `gap` later than that. */
  lemma SweepInvisibleIffOnTime(cfg: Config, streamTime: int, ts: int)
    requires cfg.Valid() && !Late(cfg, streamTime, ts)
    ensures (forall m: Store<int> :: Proper(m) ==>
               Matched(cfg.gap, SweepStore(cfg, m, streamTime), ts) == Matched(cfg.gap, m, ts))
       <==> streamTime - cfg.gap - cfg.grace <= 0 || ts >= streamTime - cfg.grace
  {
    var boundary := streamTime - cfg.gap - cfg.grace;
    if boundary > 0 && ts < streamTime - cfg.grace {
      var m: Store<int> := map[boundary - 1 := Session(boundary - 1, 0)];
      assert Proper(m);
      assert boundary - 1 in Matched(cfg.gap, m, ts);
      assert boundary - 1 !in Matched(cfg.gap, SweepStore(cfg, m, streamTime), ts);
    } else {
      forall m: Store<int> | Proper(m)
        ensures Matched(cfg.gap, SweepStore(cfg, m, streamTime), ts) == Matched(cfg.gap, m, ts)
      {
        assert Agree(cfg, streamTime, SweepStore(cfg, m, streamTime), m);
        if boundary > 0 { SameMatches(cfg, streamTime, SweepStore(cfg, m, streamTime), m, ts); }
      }
    }
  }

  /** A reachable instance: with gap 10 and no grace, records at 85 and 100, a sweep, then a record at
      95. The last record is accepted, but the session it would have extended is gone, so it makes a
      different update than in the run without the sweep. */
  lemma LateRecordSeesTheSweep(f: int -> Fns<(), int>)
    requires f(1) == f(2) == CountFns<()>()
    ensures var cfg := Config(10, 0);
      var a, b, c: Event<int, ()> := Record(1, 85, ()), Record(2, 100, ()), Record(1, 95, ());
      UpdateOf(cfg, f, Run(cfg, f, 0, [a, b, Sweep]), c) != UpdateOf(cfg, f, Run(cfg, f, 0, [a, b]), c)
  {
    var cfg := Config(10, 0);
    var a, b, c: Event<int, ()> := Record(1, 85, ()), Record(2, 100, ()), Record(1, 95, ());
    var two, swept := Run(cfg, f, 0, [a, b]), Run(cfg, f, 0, [a, b, Sweep]);
    TwoRecords(f);
    assert [a, b, Sweep][..2] == [a, b];
    assert swept == Process(cfg, f, two, Sweep);
    assert 85 !in Of(swept, 1);
    assert 85 in UpdateOf(cfg, f, two, c).deleted;
  }

  lemma TwoRecords(f: int -> Fns<(), int>)
    requires f(1) == f(2) == CountFns<()>()
    ensures var a, b: Event<int, ()> := Record(1, 85, ()), Record(2, 100, ());
      var t := Run(Config(10, 0), f, 0, [a, b]);
      Of(t, 1) == map[85 := Session(85, 1)] && t.streamTime == 100
  {
    var cfg := Config(10, 0);
    var a, b: Event<int, ()> := Record(1, 85, ()), Record(2, 100, ());
    RunSnoc(cfg, f, 0, [], a);
    RunSnoc(cfg, f, 0, [a], b);
    assert [] + [a] == [a] && [a] + [b] == [a, b];
    OneRecord(f);
    OtherKey(cfg, f, Run(cfg, f, 0, [a]), b, 1);
  }

  lemma OneRecord(f: int -> Fns<(), int>)
    requires f(1) == CountFns<()>()
    ensures Process(Config(10, 0), f, Task(0, map[]), Record(1, 85, ()))
            == Task(85, map[1 := map[85 := Session(85, 1)]])
  {
    FirstSession(85);
  }

  lemma OtherKey<K, V, A>(cfg: Config, f: K -> Fns<V, A>, t: Task<K, A>, e: Event<K, V>, k: K)
    requires e.Record? && e.key != k
    ensures Of(Process(cfg, f, t, e), k) == Of(t, k)
    ensures Process(cfg, f, t, e).streamTime == Max(t.streamTime, e.ts)
  {
  }

  lemma FirstSession(ts: int)
    ensures Step(10, CountFns<()>(), map[], Rec(ts, ())) == map[ts := Session(ts, 1)]
  {
    var none: Store<int> := map[];
    assert Matched(10, none, ts) == {};
  }
}
