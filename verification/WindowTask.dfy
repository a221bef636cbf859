/** Windowed aggregation over whole runs (windowed.go) and the window sweep
    (internal/runtime/task_manager.go). */
module WindowTask {
  import opened Wrappers
  import opened Collections
  import opened Changelog
  import opened Windows

  datatype Config = Config(def: WindowDef, grace: int) {
    predicate Valid() { def.Valid() && grace >= 0 }
  }

  /** `initFn` and `aggFn` with the key fixed. */
  datatype Fns<!V, !A> = Fns(init: A, agg: (V, A) -> A)

  type Table<K(==), A> = map<(K, int), A>

  datatype Event<K, V> = Record(key: K, ts: int, value: V) | Sweep

  datatype Task<K(==), A> = Task(streamTime: int, table: Table<K, A>)

  predicate Late(cfg: Config, streamTime: int, ts: int) {
    ts < Max(streamTime, ts) - cfg.def.size - cfg.grace
  }

  /** The accumulator a get-fold-put on one window writes. */
  function Next<K(==), V, A>(f: Fns<V, A>, t: Table<K, A>, k: K, s: int, v: V): A {
    f.agg(v, if (k, s) in t then t[(k, s)] else f.init)
  }

  /** The get-fold-put loop over the assigned windows. */
  function PutAll<K(==), V, A>(f: Fns<V, A>, t: Table<K, A>, k: K, v: V, starts: seq<int>): Table<K, A> {
    if starts == [] then t
    else
      var rest := PutAll(f, t, k, v, starts[..|starts| - 1]);
      var s := starts[|starts| - 1];
      rest[(k, s) := Next(f, rest, k, s, v)]
  }

  /** `sweepWindowStore`: evicts by window start; a boundary that is not positive evicts nothing. */
  function SweepTable<K(==), A>(cfg: Config, t: Table<K, A>, streamTime: int): Table<K, A> {
    var boundary := streamTime - cfg.def.size - cfg.grace;
    if boundary <= 0 then t else map p | p in t && !(p.1 < boundary) :: t[p]
  }

  function Process<K(==), V, A>(cfg: Config, f: K -> Fns<V, A>, t: Task<K, A>, e: Event<K, V>): Task<K, A>
    requires cfg.Valid()
  {
    match e
    case Sweep => Task(t.streamTime, SweepTable(cfg, t.table, t.streamTime))
    case Record(k, ts, v) =>
      var time := Max(t.streamTime, ts);
      if Late(cfg, t.streamTime, ts) then Task(time, t.table)
      else Task(time, PutAll(f(k), t.table, k, v, Starts(cfg.def, ts)))
  }

  function Run<K(==), V, A>(cfg: Config, f: K -> Fns<V, A>, time: int, events: seq<Event<K, V>>): Task<K, A>
    requires cfg.Valid()
  {
    if events == [] then Task(time, map[])
    else Process(cfg, f, Run(cfg, f, time, events[..|events| - 1]), events[|events| - 1])
  }

  function TimeAfter<K(==), V>(time: int, events: seq<Event<K, V>>): int {
    if events == [] then time
    else
      var before, e := TimeAfter(time, events[..|events| - 1]), events[|events| - 1];
      if e.Record? then Max(before, e.ts) else before
  }

  lemma {:induction false} RunTime<K, V, A>(cfg: Config, f: K -> Fns<V, A>, time: int, events: seq<Event<K, V>>)
    requires cfg.Valid()
    ensures Run(cfg, f, time, events).streamTime == TimeAfter(time, events)
  {
    if events != [] { RunTime(cfg, f, time, events[..|events| - 1]); }
  }

  predicate NoSweeps<K(==), V>(events: seq<Event<K, V>>) {
    forall i :: 0 <= i < |events| ==> events[i].Record?
  }

  predicate NonNegative<K(==), V>(events: seq<Event<K, V>>) {
    forall i :: 0 <= i < |events| ==> events[i].Record? ==> events[i].ts >= 0
  }

  // The batch meaning.

  /** The values of the accepted records of `k` with a timestamp in `[lo, hi)`, in arrival order. */
  function ValuesIn<K(==), V>(cfg: Config, time: int, events: seq<Event<K, V>>, k: K, lo: int, hi: int): seq<V> {
    if events == [] then []
    else
      var init, e := events[..|events| - 1], events[|events| - 1];
      ValuesIn(cfg, time, init, k, lo, hi)
      + if e.Record? && e.key == k && lo <= e.ts < hi && !Late(cfg, TimeAfter(time, init), e.ts) then [e.value] else []
  }

  /** The values of all records of `k` with a timestamp in `[lo, hi)`, in arrival order. */
  function AllValuesIn<K(==), V>(events: seq<Event<K, V>>, k: K, lo: int, hi: int): seq<V> {
    if events == [] then []
    else
      var init, e := events[..|events| - 1], events[|events| - 1];
      AllValuesIn(init, k, lo, hi) + if e.Record? && e.key == k && lo <= e.ts < hi then [e.value] else []
  }

  /** How many records come more than `size + grace` behind the highest timestamp before them. */
  function Stragglers<K(==), V>(cfg: Config, time: int, events: seq<Event<K, V>>): nat {
    if events == [] then 0
    else
      var init, e := events[..|events| - 1], events[|events| - 1];
      Stragglers(cfg, time, init)
      + if e.Record? && TimeAfter(time, init) - e.ts > cfg.def.size + cfg.grace then 1 else 0
  }

  /** No record of `k` in `[lo, hi)` is one of these. */
  predicate Timely<K(==), V>(cfg: Config, time: int, events: seq<Event<K, V>>, k: K, lo: int, hi: int) {
    events == []
    || (Timely(cfg, time, events[..|events| - 1], k, lo, hi)
        && var e := events[|events| - 1];
           e.Record? && e.key == k && lo <= e.ts < hi ==>
             TimeAfter(time, events[..|events| - 1]) - e.ts <= cfg.def.size + cfg.grace)
  }

  lemma {:induction false} AcceptedFewer<K, V>(cfg: Config, time: int, events: seq<Event<K, V>>, k: K, lo: int, hi: int)
    ensures |ValuesIn(cfg, time, events, k, lo, hi)| <= |AllValuesIn(events, k, lo, hi)|
  {
    if events != [] { AcceptedFewer(cfg, time, events[..|events| - 1], k, lo, hi); }
  }

  /** A window takes every record of its key, in order, if and only if none is more than `size + grace`
      behind. */
  lemma {:induction false} AllAcceptedIffTimely<K, V>(cfg: Config, time: int, events: seq<Event<K, V>>, k: K, lo: int,
                                                      hi: int)
    requires cfg.Valid()
    ensures |ValuesIn(cfg, time, events, k, lo, hi)| == |AllValuesIn(events, k, lo, hi)|
            <==> Timely(cfg, time, events, k, lo, hi)
    ensures Timely(cfg, time, events, k, lo, hi) ==>
            ValuesIn(cfg, time, events, k, lo, hi) == AllValuesIn(events, k, lo, hi)
  {
    if events != [] {
      AllAcceptedIffTimely(cfg, time, events[..|events| - 1], k, lo, hi);
      AcceptedFewer(cfg, time, events[..|events| - 1], k, lo, hi);
    }
  }

  function Fold<V, A>(f: Fns<V, A>, values: seq<V>): A {
    if values == [] then f.init else f.agg(values[|values| - 1], Fold(f, values[..|values| - 1]))
  }

  lemma {:induction false} PutAllAt<K, V, A>(f: Fns<V, A>, t: Table<K, A>, k: K, v: V, starts: seq<int>, p: (K, int))
    requires Distinct(starts)
    ensures Lookup(PutAll(f, t, k, v, starts), p)
         == if p.0 == k && p.1 in starts then Some(Next(f, t, k, p.1, v)) else Lookup(t, p)
  {
    if starts != [] {
      var init, s := starts[..|starts| - 1], starts[|starts| - 1];
      PutAllAt(f, t, k, v, init, p);
      PutAllAt(f, t, k, v, init, (k, s));
      assert starts == init + [s];
    }
  }

  /** After any run without sweeps, the table holds at `(k, s)` the fold, in arrival order, of exactly
      the accepted records of `k` with a timestamp in `[s, s + size)`, for the aligned starts that have
      such a record, and nothing anywhere else. */
  lemma {:induction false} TableIsBatchFold<K(!new), V, A>(cfg: Config, f: K -> Fns<V, A>, time: int,
                                                     events: seq<Event<K, V>>, k: K, s: int)
    requires cfg.Valid() && NoSweeps(events) && NonNegative(events)
    ensures Run(cfg, f, time, events).streamTime == TimeAfter(time, events)
    ensures var values := ValuesIn(cfg, time, events, k, s, s + cfg.def.size);
      Lookup(Run(cfg, f, time, events).table, (k, s))
      == if Aligned(cfg.def, s) && values != [] then Some(Fold(f(k), values)) else None
  {
    if events != [] {
      var init, e := events[..|events| - 1], events[|events| - 1];
      TableIsBatchFold(cfg, f, time, init, k, s);
      var before := ValuesIn(cfg, time, init, k, s, s + cfg.def.size);
      var t := Run(cfg, f, time, init);
      if !Late(cfg, TimeAfter(time, init), e.ts) {
        AssignExact(cfg.def, e.ts, s);
        AssignExact(cfg.def, e.ts, 0);
        PutAllAt(f(e.key), t.table, e.key, e.value, Starts(cfg.def, e.ts), (k, s));
        assert (before + [e.value])[..|before|] == before;
      }
      assert before + [] == before;
    }
  }

  /** At every key and start the table holds what `TableIsBatchFold` says. */
  ghost predicate IsBatchFold<K(!new), V, A>(cfg: Config, f: K -> Fns<V, A>, time: int, events: seq<Event<K, V>>,
                                             table: Table<K, A>)
    requires cfg.Valid()
  {
    forall k, s {:trigger (k, s) in table} ::
      var values := ValuesIn(cfg, time, events, k, s, s + cfg.def.size);
      Lookup(table, (k, s)) == if Aligned(cfg.def, s) && values != [] then Some(Fold(f(k), values)) else None
  }

  lemma RunIsBatchFold<K(!new), V, A>(cfg: Config, f: K -> Fns<V, A>, time: int, events: seq<Event<K, V>>)
    requires cfg.Valid() && NoSweeps(events) && NonNegative(events)
    ensures IsBatchFold(cfg, f, time, events, Run(cfg, f, time, events).table)
  {
    forall k, s
      ensures var values := ValuesIn(cfg, time, events, k, s, s + cfg.def.size);
        Lookup(Run(cfg, f, time, events).table, (k, s))
        == if Aligned(cfg.def, s) && values != [] then Some(Fold(f(k), values)) else None
    {
      TableIsBatchFold(cfg, f, time, events, k, s);
    }
  }

  // Sweep transparency.

  /** What a record does: the windows it writes, with the accumulators. */
  datatype Update<K, A> = Dropped | Update(key: K, written: seq<(int, A)>)

  function UpdateOf<K(==), V, A>(cfg: Config, f: K -> Fns<V, A>, t: Task<K, A>, e: Event<K, V>): Update<K, A>
    requires cfg.Valid() && e.Record?
  {
    if Late(cfg, t.streamTime, e.ts) then Dropped
    else
      var starts := Starts(cfg.def, e.ts);
      Update(e.key,
             seq(|starts|, i requires 0 <= i < |starts| =>
               (starts[i], Next(f(e.key), t.table, e.key, starts[i], e.value))))
  }

  function Updates<K(==), V, A>(cfg: Config, f: K -> Fns<V, A>, time: int, events: seq<Event<K, V>>): seq<Update<K, A>>
    requires cfg.Valid()
  {
    if events == [] then []
    else
      var init, e := events[..|events| - 1], events[|events| - 1];
      Updates(cfg, f, time, init) + if e.Record? then [UpdateOf(cfg, f, Run(cfg, f, time, init), e)] else []
  }

  function DropSweeps<K(==), V>(events: seq<Event<K, V>>): seq<Event<K, V>> {
    if events == [] then []
    else
      var e := events[|events| - 1];
      DropSweeps(events[..|events| - 1]) + if e.Record? then [e] else []
  }

  predicate OnTime<K(==), V>(cfg: Config, time: int, events: seq<Event<K, V>>) {
    events == []
    || (OnTime(cfg, time, events[..|events| - 1])
        && var e := events[|events| - 1];
           e.Record? ==> e.ts >= TimeAfter(time, events[..|events| - 1]) - cfg.grace)
  }

  /** Then every window takes all its records and none is counted late. */
  lemma {:induction false} OnTimeIsTimely<K, V>(cfg: Config, time: int, events: seq<Event<K, V>>, k: K, lo: int,
                                                hi: int)
    requires cfg.Valid() && OnTime(cfg, time, events)
    ensures Timely(cfg, time, events, k, lo, hi)
            && ValuesIn(cfg, time, events, k, lo, hi) == AllValuesIn(events, k, lo, hi)
    ensures Stragglers(cfg, time, events) == 0
  {
    if events != [] { OnTimeIsTimely(cfg, time, events[..|events| - 1], k, lo, hi); }
    AllAcceptedIffTimely(cfg, time, events, k, lo, hi);
  }

  /** The swept table is the full one minus windows that started before the boundary. */
  ghost predicate Agree<K(!new), A>(cfg: Config, swept: Task<K, A>, full: Task<K, A>) {
    && swept.streamTime == full.streamTime
    && (forall p :: p in swept.table ==> p in full.table && full.table[p] == swept.table[p])
    && (forall p :: p in full.table && p !in swept.table ==> p.1 < full.streamTime - cfg.def.size - cfg.grace)
  }

  /** An on-time record is only ever assigned to windows that start at or above the boundary. */
  lemma OnTimeStartsAreLive(cfg: Config, streamTime: int, ts: int, s: int)
    requires cfg.Valid() && ts >= 0 && ts >= streamTime - cfg.grace && s in Starts(cfg.def, ts)
    ensures s > streamTime - cfg.def.size - cfg.grace
  {
    AssignExact(cfg.def, ts, s);
  }

  lemma RecordAgrees<K(!new), V, A>(cfg: Config, f: K -> Fns<V, A>, swept: Task<K, A>, full: Task<K, A>, e: Event<K, V>)
    requires cfg.Valid() && Agree(cfg, swept, full) && e.Record? && e.ts >= 0 && e.ts >= full.streamTime - cfg.grace
    ensures Agree(cfg, Process(cfg, f, swept, e), Process(cfg, f, full, e))
    ensures UpdateOf(cfg, f, swept, e) == UpdateOf(cfg, f, full, e)
  {
    var starts, g := Starts(cfg.def, e.ts), f(e.key);
    AssignExact(cfg.def, e.ts, 0);
    forall s | s in starts
      ensures Next(g, swept.table, e.key, s, e.value) == Next(g, full.table, e.key, s, e.value)
    {
      OnTimeStartsAreLive(cfg, full.streamTime, e.ts, s);
    }
    var swept', full' := Process(cfg, f, swept, e), Process(cfg, f, full, e);
    forall p
      ensures p in swept'.table ==> p in full'.table && full'.table[p] == swept'.table[p]
      ensures p in full'.table && p !in swept'.table ==> p.1 < full'.streamTime - cfg.def.size - cfg.grace
    {
      PutAllAt(g, swept.table, e.key, e.value, starts, p);
      PutAllAt(g, full.table, e.key, e.value, starts, p);
    }
  }

  /** Sweep transparency over whole runs: if every record is on time, a run with sweeps at arbitrary
      points writes the same accumulators as the run without them, and the tables differ only in
      windows that started before `streamTime - size - grace`. */
  lemma {:induction false} SweepsAreInvisible<K(!new), V, A>(cfg: Config, f: K -> Fns<V, A>, time: int,
                                                             events: seq<Event<K, V>>)
    requires cfg.Valid() && OnTime(cfg, time, events) && NonNegative(events)
    ensures Agree(cfg, Run(cfg, f, time, events), Run(cfg, f, time, DropSweeps(events)))
    ensures Run(cfg, f, time, events).streamTime == TimeAfter(time, events)
    ensures Updates(cfg, f, time, events) == Updates(cfg, f, time, DropSweeps(events))
  {
    if events != [] {
      var init, e := events[..|events| - 1], events[|events| - 1];
      SweepsAreInvisible(cfg, f, time, init);
      var dropped := DropSweeps(init);
      var swept, full := Run(cfg, f, time, init), Run(cfg, f, time, dropped);
      if e.Sweep? {
        assert Agree(cfg, Process(cfg, f, swept, e), full);
        assert dropped + [] == dropped;
        assert Updates(cfg, f, time, init) + [] == Updates(cfg, f, time, init);
      } else {
        RecordAgrees(cfg, f, swept, full, e);
        assert (dropped + [e])[..|dropped|] == dropped;
      }
    }
  }

  function SumFns(): Fns<int, int> {
    Fns(0, (v, acc) => acc + v)
  }

  /** No window assigned to the timestamp was evicted by a sweep at `streamTime`. */
  predicate StartsLive(cfg: Config, streamTime: int, ts: int)
    requires cfg.Valid()
  {
    var boundary := streamTime - cfg.def.size - cfg.grace;
    boundary <= 0 || forall s :: s in Starts(cfg.def, ts) ==> s >= boundary
  }

  /** For every aggregation, key, value and table: a sweep is invisible to a record whose windows it left. */
  lemma LiveStartsSeeNoSweep<K, V, A>(cfg: Config, f: K -> Fns<V, A>, t: Task<K, A>, e: Event<K, V>)
    requires cfg.Valid() && e.Record? && StartsLive(cfg, t.streamTime, e.ts)
    ensures UpdateOf(cfg, f, Process(cfg, f, t, Sweep), e) == UpdateOf(cfg, f, t, e)
  {
    var swept := Process(cfg, f, t, Sweep);
    forall s | s in Starts(cfg.def, e.ts)
      ensures Next(f(e.key), swept.table, e.key, s, e.value) == Next(f(e.key), t.table, e.key, s, e.value)
    {
    }
  }

  /** The lateness hypothesis is exact. For one sweep and one later accepted record: the sweep is
      invisible, whatever the aggregation, the key, the value and the table, if and only if no window
      assigned to the record starts below the boundary the sweep used. */
  lemma SweepInvisibleIffStartsLive(cfg: Config, streamTime: int, ts: int)
    requires cfg.Valid() && !Late(cfg, streamTime, ts)
    ensures (forall f: int -> Fns<int, int>, t: Task<int, int>, k, v ::
               t.streamTime == streamTime ==> Unaffected(cfg, f, t, Record(k, ts, v)))
       <==> StartsLive(cfg, streamTime, ts)
  {
    if StartsLive(cfg, streamTime, ts) {
      forall f: int -> Fns<int, int>, t: Task<int, int>, k, v | t.streamTime == streamTime
        ensures Unaffected(cfg, f, t, Record(k, ts, v))
      {
        LiveStartsSeeNoSweep(cfg, f, t, Record(k, ts, v));
      }
    } else {
      var s :| s in Starts(cfg.def, ts) && s < streamTime - cfg.def.size - cfg.grace;
      EvictedStartIsSeen(cfg, streamTime, ts, s);
    }
  }

  predicate Unaffected<K(==), V, A(==)>(cfg: Config, f: K -> Fns<V, A>, t: Task<K, A>, e: Event<K, V>)
    requires cfg.Valid() && e.Record?
  {
    UpdateOf(cfg, f, Process(cfg, f, t, Sweep), e) == UpdateOf(cfg, f, t, e)
  }

  lemma EvictedStartIsSeen(cfg: Config, streamTime: int, ts: int, s: int)
    requires cfg.Valid() && !Late(cfg, streamTime, ts) && s in Starts(cfg.def, ts)
    requires streamTime - cfg.def.size - cfg.grace > 0 && s < streamTime - cfg.def.size - cfg.grace
    ensures !Unaffected(cfg, Sums, Task(streamTime, map[(0, s) := 7]), Record(0, ts, 1))
  {
    var t: Task<int, int> := Task(streamTime, map[(0, s) := 7]);
    var swept := Process(cfg, Sums, t, Sweep);
    var starts := Starts(cfg.def, ts);
    assert (0, s) in t.table && (0, s) !in swept.table;
    var i :| 0 <= i < |starts| && starts[i] == s;
    assert UpdateOf(cfg, Sums, t, Record(0, ts, 1)).written[i] == (s, 8);
    assert UpdateOf(cfg, Sums, swept, Record(0, ts, 1)).written[i] == (s, 1);
  }

  function Sums(k: int): Fns<int, int> { SumFns() }

  /** A reachable instance: tumbling windows of 10 without grace, records at 91 and 105, a sweep, then a
      record at 95. It is accepted into [90, 100), which the sweep has evicted because 90 < 95, so it
      restarts the accumulator. */
  lemma LateRecordSeesTheSweep(f: int -> Fns<int, int>)
    requires f(1) == f(2) == SumFns()
    ensures var cfg := Config(Tumbling(10), 0);
      var a, b, c: Event<int, int> := Record(1, 91, 1), Record(2, 105, 1), Record(1, 95, 1);
      && UpdateOf(cfg, f, Run(cfg, f, 0, [a, b, Sweep]), c) == Update(1, [(90, 1)])
      && UpdateOf(cfg, f, Run(cfg, f, 0, [a, b]), c) == Update(1, [(90, 2)])
  {
    var cfg := Config(Tumbling(10), 0);
    var a, b: Event<int, int> := Record(1, 91, 1), Record(2, 105, 1);
    assert [a][..0] == [] && [a, b][..1] == [a] && [a, b, Sweep][..2] == [a, b];
    assert Starts(cfg.def, 91) == [90] && Starts(cfg.def, 95) == [90] && Starts(cfg.def, 105) == [100];
    assert [90][..0] == [] && [100][..0] == [];
    assert Run(cfg, f, 0, [a]) == Task(91, map[(1, 90) := 1]);
    assert Run(cfg, f, 0, [a, b]) == Task(105, map[(1, 90) := 1, (2, 100) := 1]);
    assert Run(cfg, f, 0, [a, b, Sweep]) == Task(105, map[(2, 100) := 1]);
  }
}
