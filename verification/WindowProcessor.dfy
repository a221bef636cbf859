/** The windowed processor and the window sweep as the code runs them, on a byte store. Proved against
    `WindowTask.PutAll` and `WindowTask.SweepTable`. */
module WindowProcessor {
  import opened Wrappers
  import opened Collections
  import opened ByteOrder
  import CK = CompositeKey
  import opened Changelog
  import opened Stores
  import W = Windows
  import T = WindowTask

  /** The accumulators the store holds. */
  ghost function TableOf<A>(decode: Bytes -> Option<A>, view: Entries): (t: T.Table<Bytes, A>)
    ensures forall p: (Bytes, CK.Int64) :: p in t <==> p in view && decode(view[p]).Some?
    ensures forall p :: p in t ==> -CK.TWO63 <= p.1 < CK.TWO63
    ensures forall p: (Bytes, CK.Int64) :: p in t ==> t[p] == decode(view[p]).value
  {
    map p | p in view && decode(view[p]).Some? :: decode(view[p]).value
  }

  /** The entry is missing or its value decodes. */
  predicate Readable<A>(decode: Bytes -> Option<A>, view: Entries, p: (Bytes, CK.Int64)) {
    p in view ==> decode(view[p]).Some?
  }

  lemma TableOfPut<A>(decode: Bytes -> Option<A>, view: Entries, p: (Bytes, CK.Int64), raw: Bytes)
    requires decode(raw).Some?
    ensures TableOf(decode, view[p := raw]) == TableOf(decode, view)[p := decode(raw).value]
  {
  }

  class WindowedProcessor<V(!new), A(!new)> {
    const cfg: T.Config
    const f: Bytes -> T.Fns<V, A>
    const encode: A -> Bytes
    const decode: Bytes -> Option<A>
    const store: KeyValueStore
    var streamTime: int
    var lateCount: nat

    constructor (cfg: T.Config, f: Bytes -> T.Fns<V, A>, encode: A -> Bytes, decode: Bytes -> Option<A>,
                 store: KeyValueStore)
      ensures this.cfg == cfg && this.f == f && this.encode == encode && this.decode == decode && this.store == store
      ensures streamTime == 0 && lateCount == 0
    {
      this.cfg, this.f, this.encode, this.decode, this.store := cfg, f, encode, decode, store;
      streamTime, lateCount := 0, 0;
    }

    ghost predicate Valid() {
      cfg.Valid() && RoundTrips(encode, decode)
    }

    ghost function Table(): T.Table<Bytes, A>
      reads store, store.db
    {
      TableOf(decode, store.Windows())
    }

    /** Get and fold: the bytes to be written for one window. A stored value that does not decode is an error. */
    method FoldWindow(k: Bytes, v: V, s: CK.Int64) returns (ok: bool, next: Bytes)
      requires Valid() && |k| < CK.TWO32
      ensures ok == (store.Open() && Readable(decode, store.Windows(), (k, s)))
      ensures ok ==> decode(next) == Some(T.Next(f(k), Table(), k, s, v))
    {
      var raw;
      next := [];
      ok, raw := store.WindowGet(k, s);
      if !ok { return; }
      var cur := f(k).init;
      if raw.Some? {
        var d := decode(raw.value);
        if d.None? { return false, []; }
        cur := d.value;
      }
      next := encode(f(k).agg(v, cur));
    }

    /** One window: get, fold, put. */
    method UpdateWindow(k: Bytes, v: V, s: CK.Int64) returns (ok: bool)
      requires Valid() && |k| < CK.TWO32
      modifies store`mutations, store.db`data
      ensures store.Open() == old(store.Open())
      ensures ok == old(store.Open() && Readable(decode, store.Windows(), (k, s)))
      ensures ok ==> Table() == old(Table())[(k, s) := T.Next(f(k), old(Table()), k, s, v)]
      ensures ok ==> OnlyAt((k, s), old(store.Windows()), store.Windows())
      ensures old(AllReadable(decode, store.Windows())) ==> AllReadable(decode, store.Windows())
      ensures !ok ==> store.State() == old(store.State())
    {
      var next;
      ghost var view := store.Windows();
      ok, next := FoldWindow(k, v, s);
      if !ok { return; }
      ok := PutWindow(k, s, next);
      TableOfPut(decode, view, (k, s), next);
      OneWritten(decode, view, (k, s), next);
    }

    method PutWindow(k: Bytes, s: CK.Int64, raw: Bytes) returns (ok: bool)
      requires store.Open() && |k| < CK.TWO32
      modifies store`mutations, store.db`data
      ensures ok && store.Open() && store.Windows() == old(store.Windows())[(k, s) := raw]
    {
      ok := store.WindowPut(k, s, raw);
    }

    /** The loop over the assigned windows. It stops at the first window whose value does not decode; the ones
        before it have been written. */
    method UpdateWindows(k: Bytes, v: V, windows: seq<W.Window>, ghost starts: seq<int>)
      returns (ok: bool, ghost n: nat)
      requires Valid() && |k| < CK.TWO32 && |windows| == |starts| && Distinct(starts) && Fit(starts)
      requires forall i :: 0 <= i < |starts| ==> windows[i].start == starts[i]
      modifies store`mutations, store.db`data
      ensures store.Open() == old(store.Open())
      ensures n <= |starts| && ok == (n == |starts|) && Written(old(store.Windows()), k, v, starts, n)
      ensures !ok ==> !(store.Open() && Readable(decode, old(store.Windows()), (k, starts[n])))
      ensures old(AllReadable(decode, store.Windows())) ==> AllReadable(decode, store.Windows())
    {
      ghost var view := store.Windows();
      assert starts[..0] == [];
      ok, n := true, 0;
      for i := 0 to |windows|
        invariant store.Open() == old(store.Open()) && n == i && Written(view, k, v, starts, i)
        invariant AllReadable(decode, view) ==> AllReadable(decode, store.Windows())
      {
        ok := UpdateNext(k, v, windows[i].start, view, starts, i);
        if !ok { return; }
        n := i + 1;
      }
    }

    /** The first `i` windows have been read and written, the others are as they were. */
    ghost predicate Written(view: Entries, k: Bytes, v: V, starts: seq<int>, i: nat)
      requires Fit(starts) && i <= |starts|
      reads store, store.db
    {
      && Table() == T.PutAll(f(k), TableOf(decode, view), k, v, starts[..i])
      && Intact(view, store.Windows(), k, starts, i)
      && forall j :: 0 <= j < i ==> store.Open() && Readable(decode, view, (k, starts[j]))
    }

    method UpdateNext(k: Bytes, v: V, s: CK.Int64, ghost view: Entries, ghost starts: seq<int>, ghost i: nat)
      returns (ok: bool)
      requires Valid() && |k| < CK.TWO32 && Distinct(starts) && Fit(starts)
      requires i < |starts| && starts[i] == s && Written(view, k, v, starts, i)
      modifies store`mutations, store.db`data
      ensures store.Open() == old(store.Open())
      ensures ok == (store.Open() && Readable(decode, view, (k, s)))
      ensures Written(view, k, v, starts, if ok then i + 1 else i)
      ensures old(AllReadable(decode, store.Windows())) ==> AllReadable(decode, store.Windows())
    {
      ghost var before, table := store.Windows(), Table();
      SameReadable(decode, view, before, k, starts, i);
      ok := UpdateWindow(k, v, s);
      if !ok {
        assert store.Windows() == before;
        return;
      }
      IntactNext(view, before, store.Windows(), k, starts, i);
      PutAllNext(f(k), TableOf(decode, view), k, v, starts, i);
      assert Table() == T.PutAll(f(k), TableOf(decode, view), k, v, starts[..i + 1]);
    }

    /** The processor: late records only advance the clock and the late counter; any other record is
        folded into each assigned window, up to one that cannot be read, and into nothing else. */
    method Process(k: Bytes, v: V, ts: CK.Int64) returns (ok: bool, ghost n: nat)
      requires Valid() && |k| < CK.TWO32
      modifies this`streamTime, this`lateCount, store`mutations, store.db`data
      ensures streamTime == Max(old(streamTime), ts) && store.Open() == old(store.Open())
      ensures lateCount == old(lateCount) <==> ts >= Max(old(streamTime), ts) - cfg.def.size - cfg.grace
      ensures T.Late(cfg, old(streamTime), ts) ==>
                ok && lateCount == old(lateCount) + 1 && store.State() == old(store.State())
      ensures !T.Late(cfg, old(streamTime), ts) ==>
                var starts := W.Starts(cfg.def, ts);
                && lateCount == old(lateCount)
                && n <= |starts| && Table() == T.PutAll(f(k), old(Table()), k, v, starts[..n]) && ok == (n == |starts|)
                && Fit(starts) && StopsAt(decode, old(store.Open()), old(store.Windows()), k, starts, n)
      ensures old(AllReadable(decode, store.Windows())) ==> AllReadable(decode, store.Windows())
    {
      n := 0;
      if ts > streamTime { streamTime := ts; }
      if ts < streamTime - cfg.def.size - cfg.grace {
        lateCount := lateCount + 1;
        return true, 0;
      }
      var windows := W.Assign(cfg.def, ts);
      ghost var starts := W.Starts(cfg.def, ts);
      StartsFit(cfg.def, ts);
      ok, n := UpdateWindows(k, v, windows, starts);
    }

    /** `sweepWindowStore` on the aggregate's store. */
    method Sweep(time: int) returns (ok: bool, count: nat)
      requires Valid()
      modifies store`mutations, store.db`data
      ensures ok == (old(store.Open()) || time - cfg.def.size - cfg.grace <= 0) && store.Open() == old(store.Open())
      ensures ok ==> Table() == T.SweepTable(cfg, old(Table()), time)
      ensures old(AllReadable(decode, store.Windows())) ==> AllReadable(decode, store.Windows())
      ensures !ok ==> store.State() == old(store.State())
    {
      ghost var view := store.Windows();
      ok, count := SweepWindowStore(store, cfg.def.size + cfg.grace, time);
      if ok {
        SweptTable(decode, cfg, view, store.Windows(), time);
        SweptReadable(decode, view, store.Windows(), time - (cfg.def.size + cfg.grace));
      }
    }

    /** The byte store holds what the task of the model holds, and can all be read. */
    ghost predicate Holds(t: T.Task<Bytes, A>)
      reads this, store, store.db
    {
      streamTime == t.streamTime && Table() == t.table && AllReadable(decode, store.Windows())
    }

    method HandleRecord(e: T.Event<Bytes, V>, ghost t: T.Task<Bytes, A>)
      requires Valid() && store.Open() && e.Record? && Storable(e) && Holds(t)
      modifies this`streamTime, this`lateCount, store`mutations, store.db`data
      ensures store.Open() && Holds(T.Process(cfg, f, t, e))
      ensures lateCount == old(lateCount) + if t.streamTime - e.ts > cfg.def.size + cfg.grace then 1 else 0
    {
      ghost var starts := W.Starts(cfg.def, e.ts);
      var ok, n := Process(e.key, e.value, e.ts);
      if !T.Late(cfg, t.streamTime, e.ts) {
        assert n == |starts| && starts[..n] == starts;
      }
    }

    method HandleSweep(ghost t: T.Task<Bytes, A>)
      requires Valid() && store.Open() && Holds(t)
      modifies store`mutations, store.db`data
      ensures store.Open() && Holds(T.Process(cfg, f, t, T.Sweep))
    {
      var ok, count := Sweep(streamTime);
    }

    /** A whole run on the byte store, sweeps included, from an empty store: it ends with what the model's run
        ends with, so that without sweeps every window holds the fold of its accepted records. The late counter
        counts the records that are more than `size + grace` behind. */
    method Run(events: seq<T.Event<Bytes, V>>)
      requires Valid() && store.Open() && store.Windows() == map[]
      requires forall i :: 0 <= i < |events| ==> Storable(events[i])
      modifies this`streamTime, this`lateCount, store`mutations, store.db`data
      ensures Holds(T.Run(cfg, f, old(streamTime), events))
      ensures T.NoSweeps(events) && T.NonNegative(events) ==>
                T.IsBatchFold(cfg, f, old(streamTime), events, Table())
      ensures lateCount == old(lateCount) + T.Stragglers(cfg, old(streamTime), events)
    {
      ghost var time := streamTime;
      for i := 0 to |events|
        invariant store.Open() && Holds(T.Run(cfg, f, time, events[..i]))
        invariant lateCount == old(lateCount) + T.Stragglers(cfg, time, events[..i])
      {
        assert events[..i + 1][..i] == events[..i];
        T.RunTime(cfg, f, time, events[..i]);
        if events[i].Sweep? {
          HandleSweep(T.Run(cfg, f, time, events[..i]));
        } else {
          HandleRecord(events[i], T.Run(cfg, f, time, events[..i]));
        }
      }
      assert events[..|events|] == events;
      if T.NoSweeps(events) && T.NonNegative(events) {
        T.RunIsBatchFold(cfg, f, time, events);
      }
    }
  }

  /** A record the model covers: a key whose length fits and an int64 timestamp. */
  predicate Storable<V>(e: T.Event<Bytes, V>) {
    e.Record? ==> |e.key| < CK.TWO32 && -CK.TWO63 <= e.ts < CK.TWO63
  }

  /** Every stored value decodes: what a store keeps that only one processor writes to. */
  ghost predicate AllReadable<A>(decode: Bytes -> Option<A>, view: Entries) {
    forall p {:trigger Readable(decode, view, p)} :: p in view ==> Readable(decode, view, p)
  }

  predicate Fit(starts: seq<int>) {
    forall i :: 0 <= i < |starts| ==> -CK.TWO63 <= starts[i] < CK.TWO63
  }

  /** At most this entry has changed. */
  ghost predicate OnlyAt(p: (Bytes, CK.Int64), view: Entries, view': Entries) {
    forall q :: q != p ==> Lookup(view', q) == Lookup(view, q)
  }

  /** The entries of the starts from the `i`th on are as they were. */
  ghost predicate Intact(view: Entries, view': Entries, k: Bytes, starts: seq<int>, i: nat)
    requires Fit(starts)
  {
    forall j :: i <= j < |starts| ==> Lookup(view', (k, starts[j])) == Lookup(view, (k, starts[j]))
  }

  /** The first `n` windows could be read, and the next one could not. */
  ghost predicate StopsAt<A>(decode: Bytes -> Option<A>, open: bool, view: Entries, k: Bytes, starts: seq<int>, n: nat)
    requires Fit(starts) && n <= |starts|
  {
    && (forall i :: 0 <= i < n ==> open && Readable(decode, view, (k, starts[i])))
    && (n < |starts| ==> !(open && Readable(decode, view, (k, starts[n]))))
  }

  lemma OneWritten<A>(decode: Bytes -> Option<A>, view: Entries, p: (Bytes, CK.Int64), raw: Bytes)
    requires decode(raw).Some?
    ensures OnlyAt(p, view, view[p := raw])
    ensures AllReadable(decode, view) ==> AllReadable(decode, view[p := raw])
  {
    var view' := view[p := raw];
    if AllReadable(decode, view) {
      forall q | q in view'
        ensures Readable(decode, view', q)
      {
        if q != p { assert Readable(decode, view, q); }
      }
    }
  }

  lemma PutAllNext<V, A>(f: T.Fns<V, A>, t: T.Table<Bytes, A>, k: Bytes, v: V, starts: seq<int>, i: nat)
    requires i < |starts|
    ensures var before := T.PutAll(f, t, k, v, starts[..i]);
      T.PutAll(f, t, k, v, starts[..i + 1]) == before[(k, starts[i]) := T.Next(f, before, k, starts[i], v)]
  {
    assert starts[..i + 1][..i] == starts[..i];
  }

  lemma IntactNext(view: Entries, before: Entries, after: Entries, k: Bytes, starts: seq<int>, i: nat)
    requires Fit(starts) && i < |starts| && Distinct(starts) && Intact(view, before, k, starts, i)
    requires OnlyAt((k, starts[i]), before, after)
    ensures Intact(view, after, k, starts, i + 1)
  {
    forall j | i + 1 <= j < |starts|
      ensures Lookup(after, (k, starts[j])) == Lookup(view, (k, starts[j]))
    {
      assert starts[i] != starts[j];
      assert Lookup(after, (k, starts[j])) == Lookup(before, (k, starts[j]));
    }
  }

  lemma SameReadable<A>(decode: Bytes -> Option<A>, view: Entries, view': Entries, k: Bytes, starts: seq<int>, i: nat)
    requires Fit(starts) && i < |starts| && Intact(view, view', k, starts, i)
    ensures Readable(decode, view', (k, starts[i])) <==> Readable(decode, view, (k, starts[i]))
  {
    assert Lookup(view', (k, starts[i])) == Lookup(view, (k, starts[i]));
  }

  lemma StartsFit(def: W.WindowDef, ts: CK.Int64)
    requires def.Valid()
    ensures Distinct(W.Starts(def, ts)) && Fit(W.Starts(def, ts))
  {
    var starts := W.Starts(def, ts);
    W.StartsDistinct(def, ts);
    forall i | 0 <= i < |starts|
      ensures -CK.TWO63 <= starts[i] < CK.TWO63
    {
      assert starts[i] in starts;
      W.StartsBounded(def, ts, starts[i]);
    }
  }

  /** `sweepWindowStore`: a full scan collects the entries whose start is below the boundary, then each is
      deleted; malformed keys are skipped. `retention` is the window definition's maximal size plus grace. */
  method SweepWindowStore(store: KeyValueStore, retention: int, time: int) returns (ok: bool, count: nat)
    modifies store`mutations, store.db`data
    ensures ok == (old(store.Open()) || time - retention <= 0) && store.Open() == old(store.Open())
    ensures ok ==> IsSwept(old(store.Windows()), store.Windows(), time - retention)
    ensures !ok ==> store.State() == old(store.State())
    ensures OnlyUnder(store.prefix, old(store.db.data), store.db.data)
    ensures old(WellFormed(store.db.data, store.prefix)) ==> WellFormed(store.db.data, store.prefix)
  {
    count := 0;
    var boundary := time - retention;
    if boundary <= 0 { return true, 0; }
    ghost var view := store.Windows();
    var entries;
    ok, entries := store.Range();
    if !ok { return; }
    var expired := ExpiredStarts(view, entries, boundary);
    ok := store.DeleteEntries(expired);
    count := |expired|;
  }

  /** The entries are those that start at or above the boundary; one that is not positive evicts nothing. */
  ghost predicate IsSwept(view: Entries, view': Entries, boundary: int) {
    && (forall p :: p in view' <==> p in view && (boundary <= 0 || p.1 >= boundary))
    && (forall p :: p in view' ==> view'[p] == view[p])
  }

  /** The collecting half of the sweep. */
  method ExpiredStarts(ghost view: Entries, entries: seq<(Bytes, Bytes)>, boundary: int)
    returns (expired: seq<(Bytes, CK.Int64)>)
    requires ShowsAll(view, entries)
    ensures forall i :: 0 <= i < |expired| ==> |expired[i].0| < CK.TWO32
    ensures forall p :: p in expired <==> p in view && p.1 < boundary
  {
    expired := [];
    for n := 0 to |entries|
      invariant forall i :: 0 <= i < |expired| ==>
                |expired[i].0| < CK.TWO32 && expired[i] in view && expired[i].1 < boundary
      invariant forall i :: 0 <= i < n && Decodes(entries[i].0) && EntryKey(entries[i].0).1 < boundary ==>
                EntryKey(entries[i].0) in expired
    {
      assert Shown(view, entries[n]);
      if Decodes(entries[n].0) && EntryKey(entries[n].0).1 < boundary {
        expired := expired + [EntryKey(entries[n].0)];
      }
    }
    forall p | p in view && p.1 < boundary
      ensures p in expired
    {
      assert ShownAt(p, entries);
    }
  }

  lemma SweptReadable<A>(decode: Bytes -> Option<A>, view: Entries, view': Entries, boundary: int)
    requires IsSwept(view, view', boundary)
    ensures AllReadable(decode, view) ==> AllReadable(decode, view')
  {
    forall p
      ensures Readable(decode, view, p) ==> Readable(decode, view', p)
    {
    }
  }

  lemma SweptTable<A>(decode: Bytes -> Option<A>, cfg: T.Config, view: Entries, view': Entries, time: int)
    requires IsSwept(view, view', time - (cfg.def.size + cfg.grace))
    ensures TableOf(decode, view') == T.SweepTable(cfg, TableOf(decode, view), time)
  {
  }
}
