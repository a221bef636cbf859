/** The session processor and the session sweep as the code runs them: on a byte store, key by key,
    with loops over the scanned entries. Proved against `Sessions.Step` and `SessionTask.SweepStore`. */
module SessionProcessor {
  import opened Wrappers
  import opened Collections
  import opened ByteOrder
  import CK = CompositeKey
  import opened Changelog
  import opened Stores
  import S = Sessions
  import T = SessionTask

  // EncodeSessionValue / DecodeSessionValue.

  function EncodeValue(end: CK.Int64, acc: Bytes): Bytes {
    CK.Start8(end) + acc
  }

  function DecodeValue(raw: Bytes): Option<(CK.Int64, Bytes)> {
    if |raw| < 8 then None
    else CK.Widths(); Some((CK.Signed(BigEndianValue(raw[..8])), raw[8..]))
  }

  /** The value codec round-trips in both directions. */
  lemma ValueCodec(end: CK.Int64, acc: Bytes, raw: Bytes)
    ensures DecodeValue(EncodeValue(end, acc)) == Some((end, acc))
    ensures DecodeValue(raw).Some? ==> EncodeValue(DecodeValue(raw).value.0, DecodeValue(raw).value.1) == raw
  {
    var e := EncodeValue(end, acc);
    assert e[..8] == CK.Start8(end) && e[8..] == acc;
    CK.Start8Value(end);
    if |raw| >= 8 {
      CK.Widths();
      BigEndianOfValue(raw[..8]);
      assert CK.Start8(DecodeValue(raw).value.0) == raw[..8];
      assert raw == raw[..8] + raw[8..];
    }
  }

  /** A stored value as a session; a value that does not decode is no session. */
  function AsSession<A>(decode: Bytes -> Option<A>, raw: Bytes): Option<S.Session<A>> {
    var d := DecodeValue(raw);
    if d.None? || decode(d.value.1).None? then None else Some(S.Session(d.value.0, decode(d.value.1).value))
  }

  function SessionAt<A>(decode: Bytes -> Option<A>, view: Entries, k: Bytes, s: CK.Int64): Option<S.Session<A>> {
    if (k, s) in view then AsSession(decode, view[(k, s)]) else None
  }

  /** The sessions of `k` as the processor sees them. */
  ghost function SessionsOf<A>(decode: Bytes -> Option<A>, view: Entries, k: Bytes): (m: S.Store<A>)
    ensures forall s: int :: s in m ==> -CK.TWO63 <= s < CK.TWO63
    ensures forall s: CK.Int64 {:trigger SessionAt(decode, view, k, s)} {:trigger s in m} ::
              Lookup(m, s) == SessionAt(decode, view, k, s)
  {
    map p | p in view && p.0 == k && AsSession(decode, view[p]).Some? :: p.1 := AsSession(decode, view[p]).value
  }

  lemma SameSessions<A>(m: S.Store<A>, n: S.Store<A>)
    requires forall s: int :: s in m || s in n ==> -CK.TWO63 <= s < CK.TWO63
    requires forall s: CK.Int64 :: Lookup(m, s) == Lookup(n, s)
    ensures m == n
  {
    forall s: int
      ensures s in m <==> s in n
      ensures s in m ==> m[s] == n[s]
    {
      if s in m || s in n {
        var x: CK.Int64 := s;
        assert Lookup(m, x) == Lookup(n, x);
      }
    }
  }

  datatype Hit<A> = Hit(start: CK.Int64, end: CK.Int64, acc: A)

  function Starts<A>(hits: seq<Hit<A>>): (r: seq<int>)
    ensures |r| == |hits| && forall i :: 0 <= i < |hits| ==> r[i] == hits[i].start
  {
    seq(|hits|, i requires 0 <= i < |hits| => hits[i].start)
  }

  /** Each hit is a session of `m`. */
  ghost predicate HitsOf<A>(hits: seq<Hit<A>>, m: S.Store<A>) {
    forall i :: 0 <= i < |hits| ==> hits[i].start in m && m[hits[i].start] == S.Session(hits[i].end, hits[i].acc)
  }

  function Keys<A>(k: Bytes, hits: seq<Hit<A>>): (r: seq<(Bytes, CK.Int64)>)
    ensures |r| == |hits| && forall i :: 0 <= i < |hits| ==> r[i] == (k, hits[i].start)
  {
    seq(|hits|, i requires 0 <= i < |hits| => (k, hits[i].start))
  }

  /** The first `n` scanned entries have been looked at: `hits` are those that matched, in scan order. */
  ghost predicate Scanned<A>(decode: Bytes -> Option<A>, gap: int, ts: int, entries: seq<(CK.Int64, Bytes)>, n: nat,
                             hits: seq<Hit<A>>)
    requires n <= |entries|
  {
    && (forall h :: 0 <= h < |hits| ==> IsHit(decode, gap, ts, entries[..n], hits[h]))
    && (forall i :: 0 <= i < n ==> Wanted(decode, gap, ts, entries[i]) ==>
       exists h :: 0 <= h < |hits| && hits[h].start == entries[i].0)
    && (forall h, h' :: 0 <= h < h' < |hits| ==> CK.Unsigned(hits[h].start) < CK.Unsigned(hits[h'].start))
  }

  /** By unsigned start, as the store scans. */
  predicate Ordered(entries: seq<(CK.Int64, Bytes)>) {
    forall i, j :: 0 <= i < j < |entries| ==> CK.Unsigned(entries[i].0) < CK.Unsigned(entries[j].0)
  }

  predicate Wanted<A>(decode: Bytes -> Option<A>, gap: int, ts: int, entry: (CK.Int64, Bytes)) {
    var s := AsSession(decode, entry.1);
    s.Some? && S.Matches(gap, entry.0, s.value, ts)
  }

  function AsHit<A>(decode: Bytes -> Option<A>, entry: (CK.Int64, Bytes)): Hit<A>
    requires AsSession(decode, entry.1).Some?
  {
    Hit(entry.0, DecodeValue(entry.1).value.0, AsSession(decode, entry.1).value.acc)
  }

  ghost predicate IsHit<A>(decode: Bytes -> Option<A>, gap: int, ts: int, entries: seq<(CK.Int64, Bytes)>, h: Hit<A>) {
    exists i :: 0 <= i < |entries| && Wanted(decode, gap, ts, entries[i]) && h.start == entries[i].0
                && AsSession(decode, entries[i].1) == Some(S.Session(h.end, h.acc))
  }

  class SessionProcessor<V(!new), A(!new)> {
    const cfg: T.Config
    const f: Bytes -> S.Fns<V, A>
    const encode: A -> Bytes
    const decode: Bytes -> Option<A>
    const store: KeyValueStore
    var streamTime: int
    var lateCount: nat

    constructor (cfg: T.Config, f: Bytes -> S.Fns<V, A>, encode: A -> Bytes, decode: Bytes -> Option<A>,
                 store: KeyValueStore)
      ensures this.cfg == cfg && this.f == f && this.encode == encode && this.decode == decode && this.store == store
      ensures streamTime == 0 && lateCount == 0
    {
      this.cfg, this.f, this.encode, this.decode, this.store := cfg, f, encode, decode, store;
      streamTime, lateCount := 0, 0;
    }

    ghost predicate Valid() {
      cfg.Valid() && RoundTrips(encode, decode)
    }

    ghost function Sessions(k: Bytes): S.Store<A>
      reads store, store.db
    {
      SessionsOf(decode, store.Windows(), k)
    }

    /** The scan callback, entry by entry. */
    method Match(entries: seq<(CK.Int64, Bytes)>, ts: int) returns (hits: seq<Hit<A>>)
      requires Ordered(entries)
      ensures Scanned(decode, cfg.gap, ts, entries, |entries|, hits)
    {
      hits := [];
      for n := 0 to |entries|
        invariant Scanned(decode, cfg.gap, ts, entries, n, hits)
      {
        var hit := MatchOne(entries[n].0, entries[n].1, ts);
        ScannedNext(decode, cfg.gap, ts, entries, n, hits, hits + hit);
        hits := hits + hit;
      }
    }

    /** One entry: a value that does not decode is skipped. */
    method MatchOne(start: CK.Int64, raw: Bytes, ts: int) returns (hit: seq<Hit<A>>)
      ensures hit == if Wanted(decode, cfg.gap, ts, (start, raw)) then [AsHit(decode, (start, raw))] else []
    {
      hit := [];
      var d := DecodeValue(raw);
      if d.Some? && d.value.0 + cfg.gap >= ts && start - cfg.gap <= ts {
        var acc := decode(d.value.1);
        if acc.Some? { hit := [Hit(start, d.value.0, acc.value)]; }
      }
    }

    /** `mergedAcc`: the first match's accumulator, the others merged in; `initFn` when there is none. */
    method MergeAccs(k: Bytes, hits: seq<Hit<A>>, ghost m: S.Store<A>) returns (acc: A)
      requires HitsOf(hits, m)
      ensures acc == S.MergedAcc(f(k), m, Starts(hits))
    {
      ghost var order := Starts(hits);
      if |hits| == 0 {
        acc := f(k).init;
      } else {
        acc := hits[0].acc;
        for i := 1 to |hits|
          invariant acc == S.MergedAcc(f(k), m, order[..i])
        {
          assert order[..i + 1][..i] == order[..i];
          acc := f(k).merge(acc, hits[i].acc);
        }
        assert order[..|hits|] == order;
      }
    }

    /** `mergedStart` and `mergedEnd`. */
    method MergeBounds(hits: seq<Hit<A>>, ts: CK.Int64, ghost m: S.Store<A>) returns (start: CK.Int64, end: CK.Int64)
      requires HitsOf(hits, m)
      ensures start == S.MergedStart(Starts(hits), ts) && end == S.MergedEnd(m, Starts(hits), ts)
    {
      ghost var order := Starts(hits);
      start, end := ts, ts;
      for i := 0 to |hits|
        invariant start == S.MergedStart(order[..i], ts) && end == S.MergedEnd(m, order[..i], ts)
      {
        assert order[..i + 1][..i] == order[..i];
        if hits[i].start < start { start := hits[i].start; }
        if hits[i].end > end { end := hits[i].end; }
      }
      assert order[..|hits|] == order;
    }

    /** The merged session: where it starts and what is written there. */
    method Combine(k: Bytes, v: V, ts: CK.Int64, hits: seq<Hit<A>>, ghost m: S.Store<A>)
      returns (start: CK.Int64, raw: Bytes)
      requires RoundTrips(encode, decode)
      requires HitsOf(hits, m)
      ensures start == S.MergedStart(Starts(hits), ts)
      ensures AsSession(decode, raw) == Some(S.Written(f(k), m, Starts(hits), S.Rec(ts, v)))
    {
      var acc := MergeAccs(k, hits, m);
      var end;
      start, end := MergeBounds(hits, ts, m);
      acc := f(k).agg(v, acc);
      raw := EncodeValue(end, encode(acc));
      ValueCodec(end, encode(acc), []);
    }

    /** Merges the matched sessions and the record into one session and stores it. */
    method MergeInto(k: Bytes, v: V, ts: CK.Int64, hits: seq<Hit<A>>) returns (ok: bool)
      requires Valid() && store.Open() && |k| < CK.TWO32
      requires HitsOf(hits, Sessions(k))
      modifies store`mutations, store.db`data
      ensures ok && store.Open()
      ensures old(WellFormed(store.db.data, store.prefix)) ==> WellFormed(store.db.data, store.prefix)
      ensures Sessions(k) == S.Merge(f(k), old(Sessions(k)), Starts(hits), S.Rec(ts, v))
      ensures OnlyKey(k, old(store.Windows()), store.Windows())
    {
      ghost var view, m := store.Windows(), Sessions(k);
      var start, raw := Combine(k, v, ts, hits, m);
      ok := store.ReplaceEntries(Keys(k, hits), k, start, raw);
      WrittenSessions(decode, view, k, hits, start, raw, store.Windows(),
                      S.Written(f(k), m, Starts(hits), S.Rec(ts, v)));
      OthersKept(view, k, hits, start, raw, store.Windows());
    }

    /** The processor. A late record only advances the stream time and the late counter; any other
        record makes the key's sessions exactly what `Sessions.Step` says and leaves every other key
        alone; the one key that cannot be scanned gets a session of its own each time. A closed store or
        a malformed key in the scan reports an error and changes nothing. */
    method Process(k: Bytes, v: V, ts: CK.Int64) returns (ok: bool)
      requires Valid() && |k| < CK.TWO32
      modifies this`streamTime, this`lateCount, store`mutations, store.db`data
      ensures streamTime == Max(old(streamTime), ts) && store.Open() == old(store.Open())
      ensures lateCount == old(lateCount) <==> ts >= Max(old(streamTime), ts) - cfg.gap - cfg.grace
      ensures T.Late(cfg, old(streamTime), ts) ==>
                ok && lateCount == old(lateCount) + 1 && store.State() == old(store.State())
      ensures !T.Late(cfg, old(streamTime), ts) ==>
                && lateCount == old(lateCount)
                && ok == old(store.Open() && KeyRangeDecodes(store.db.data, store.prefix, k))
      ensures ok && !T.Late(cfg, old(streamTime), ts) ==>
                && (!CK.AllOnes(k) ==> Sessions(k) == S.Step(cfg.gap, f(k), old(Sessions(k)), S.Rec(ts, v)))
                && (CK.AllOnes(k) ==> Sessions(k) == S.Merge(f(k), old(Sessions(k)), [], S.Rec(ts, v)))
                && OnlyKey(k, old(store.Windows()), store.Windows())
      ensures old(WellFormed(store.db.data, store.prefix)) ==> WellFormed(store.db.data, store.prefix)
      ensures !ok ==> store.State() == old(store.State())
    {
      if ts > streamTime { streamTime := ts; }
      if ts < streamTime - cfg.gap - cfg.grace {
        lateCount := lateCount + 1;
        return true;
      }
      var entries;
      ok, entries := store.RangeForKey(k);
      if !ok { return; }
      var hits := Match(entries, ts);
      if CK.AllOnes(k) {
        NoHits(decode, cfg.gap, ts, entries, hits);
      } else {
        HitsAreMatched(decode, cfg.gap, store.Windows(), k, ts, entries, hits);
      }
      ok := MergeInto(k, v, ts, hits);
    }

    /** The byte store holds, for every key, what the task of the model holds. */
    ghost predicate Holds(t: T.Task<Bytes, A>)
      reads this, store, store.db
    {
      streamTime == t.streamTime && Represents(decode, store.Windows(), t)
    }

    /** One record, on the byte store and in the model. */
    method HandleRecord(e: T.Event<Bytes, V>, ghost t: T.Task<Bytes, A>)
      requires Valid() && store.Open() && WellFormed(store.db.data, store.prefix) && e.Record? && Storable(e)
               && Holds(t)
      modifies this`streamTime, this`lateCount, store`mutations, store.db`data
      ensures store.Open() && WellFormed(store.db.data, store.prefix) && Holds(T.Process(cfg, f, t, e))
      ensures lateCount == old(lateCount) + if t.streamTime - e.ts > cfg.gap + cfg.grace then 1 else 0
    {
      ghost var view, late := store.Windows(), T.Late(cfg, streamTime, e.ts);
      assert late <==> t.streamTime - e.ts > cfg.gap + cfg.grace;
      WellFormedDecodes(store.db.data, store.prefix, e.key);
      T.ProcessAt(cfg, f, t, e, e.key);
      assert KeyRangeDecodes(store.db.data, store.prefix, e.key);
      var ok := Process(e.key, e.value, e.ts);
      assert store.Open() && lateCount == old(lateCount) + if late then 1 else 0;
      RecordRepresents(decode, cfg, f, view, store.Windows(), t, e);
    }

    method HandleSweep(ghost t: T.Task<Bytes, A>)
      requires Valid() && store.Open() && WellFormed(store.db.data, store.prefix) && Holds(t)
      modifies store`mutations, store.db`data
      ensures store.Open() && WellFormed(store.db.data, store.prefix) && Holds(T.Process(cfg, f, t, T.Sweep))
    {
      ghost var view := store.Windows();
      var ok, count := Sweep(streamTime);
      assert store.Open();
      SweepRepresents(decode, cfg, f, view, store.Windows(), t);
    }

    /** A whole run on the byte store, sweeps included, from an empty store: it ends with what the model's run
        ends with, so that without sweeps every key holds the aggregate of its accepted records, and of all its
        records if none is more than `gap + grace` behind. The late counter counts those that are. */
    method Run(events: seq<T.Event<Bytes, V>>)
      requires Valid() && store.Open() && WellFormed(store.db.data, store.prefix) && store.Windows() == map[]
      requires forall i :: 0 <= i < |events| ==> Storable(events[i])
      modifies this`streamTime, this`lateCount, store`mutations, store.db`data
      ensures Holds(T.Run(cfg, f, old(streamTime), events))
      ensures T.NoSweeps(events) ==>
                forall k {:trigger Sessions(k)} ::
                  Sessions(k) == S.Aggregate(cfg.gap, f(k), T.Accepted(cfg, old(streamTime), events, k))
      ensures T.NoSweeps(events) ==>
                forall k {:trigger Sessions(k)} :: T.Timely(cfg, old(streamTime), events, k) ==>
                  Sessions(k) == S.Aggregate(cfg.gap, f(k), T.RecordsOf(events, k))
      ensures lateCount == old(lateCount) + T.Stragglers(cfg, old(streamTime), events)
    {
      ghost var time := streamTime;
      EmptyRepresents<A>(decode, time);
      for i := 0 to |events|
        invariant store.Open() && WellFormed(store.db.data, store.prefix) && Holds(T.Run(cfg, f, time, events[..i]))
        invariant lateCount == old(lateCount) + T.Stragglers(cfg, time, events[..i])
      {
        assert events[..i + 1][..i] == events[..i];
        T.RunTime(cfg, f, time, events[..i]);
        if events[i].Sweep? {
          HandleSweep(T.Run(cfg, f, time, events[..i]));
        } else {
          HandleRecord(events[i], T.Run(cfg, f, time, events[..i]));
        }
      }
      assert events[..|events|] == events;
      if T.NoSweeps(events) {
        forall k
          ensures Sessions(k) == S.Aggregate(cfg.gap, f(k), T.Accepted(cfg, time, events, k))
          ensures T.Timely(cfg, time, events, k) ==> Sessions(k) == S.Aggregate(cfg.gap, f(k), T.RecordsOf(events, k))
        {
          assert SessionsOf(decode, store.Windows(), k) == T.Of(T.Run(cfg, f, time, events), k);
          T.RunAggregatesEachKey(cfg, f, time, events, k);
          T.AllAcceptedIffTimely(cfg, time, events, k);
        }
      }
    }

    /** `sweepSessionStore`: a full scan collects the sessions that ended before the boundary, then
        each is deleted. Malformed keys and values are skipped. */
    method Sweep(time: int) returns (ok: bool, count: nat)
      requires Valid()
      modifies store`mutations, store.db`data
      ensures old(WellFormed(store.db.data, store.prefix)) ==> WellFormed(store.db.data, store.prefix)
      ensures store.Open() == old(store.Open())
      ensures ok ==> Swept(decode, cfg, old(store.Windows()), store.Windows(), time)
      ensures ok == (old(store.Open()) || time - cfg.gap - cfg.grace <= 0)
      ensures !ok ==> store.State() == old(store.State())
    {
      count := 0;
      var boundary := time - cfg.gap - cfg.grace;
      if boundary <= 0 { return true, 0; }
      ghost var view := store.Windows();
      var entries;
      ok, entries := store.Range();
      if !ok { return; }
      var expired := Expired(view, entries, boundary);
      ok := store.DeleteEntries(expired);
      forall k
        ensures SessionsOf(decode, store.Windows(), k) == T.SweepStore(cfg, SessionsOf(decode, view, k), time)
      {
        SweptSessions(decode, cfg, view, k, expired, time);
      }
      count := |expired|;
    }
  }

  /** A record the model covers: a key whose length fits, that can be scanned, and an int64 timestamp. */
  predicate Storable<V>(e: T.Event<Bytes, V>) {
    e.Record? ==> |e.key| < CK.TWO32 && !CK.AllOnes(e.key) && -CK.TWO63 <= e.ts < CK.TWO63
  }

  /** In a store with composite keys only, every scan decodes. */
  lemma WellFormedDecodes(data: Contents, prefix: Bytes, k: Bytes)
    requires WellFormed(data, prefix)
    ensures KeyRangeDecodes(data, prefix, k)
  {
    forall raw | raw in data && InRange(raw, prefix + CK.KeyLower(k), prefix + CK.KeyUpper(k))
      ensures IsEntry(prefix, raw)
    {
      BetweenSharesPrefix(prefix, CK.KeyLower(k), CK.KeyUpper(k), raw);
    }
  }

  /** Only entries of this key have changed. */
  ghost predicate OnlyKey(k: Bytes, view: Entries, view': Entries) {
    forall p: (Bytes, CK.Int64) :: p.0 != k ==> Lookup(view', p) == Lookup(view, p)
  }

  /** The entries are, key by key, the sessions of the task. */
  ghost predicate Represents<A>(decode: Bytes -> Option<A>, view: Entries, t: T.Task<Bytes, A>) {
    forall k {:trigger SessionsOf(decode, view, k)} :: SessionsOf(decode, view, k) == T.Of(t, k)
  }

  /** Every key has lost exactly its expired sessions. */
  ghost predicate Swept<A>(decode: Bytes -> Option<A>, cfg: T.Config, view: Entries, view': Entries, time: int) {
    forall k {:trigger SessionsOf(decode, view', k)} ::
      SessionsOf(decode, view', k) == T.SweepStore(cfg, SessionsOf(decode, view, k), time)
  }

  lemma EmptyRepresents<A>(decode: Bytes -> Option<A>, time: int)
    ensures Represents(decode, map[], T.Task(time, map[]))
  {
    forall k ensures SessionsOf(decode, map[], k) == map[] {
      var m := SessionsOf(decode, map[], k);
      forall x: CK.Int64 ensures Lookup(m, x) == None {
        assert Lookup(m, x) == SessionAt(decode, map[], k, x);
      }
      SameSessions(m, map[]);
    }
  }

  lemma RecordRepresents<V, A>(decode: Bytes -> Option<A>, cfg: T.Config, f: Bytes -> S.Fns<V, A>, view: Entries,
                               view': Entries,
                               t: T.Task<Bytes, A>, e: T.Event<Bytes, V>)
    requires e.Record? && Represents(decode, view, t)
    requires T.Late(cfg, t.streamTime, e.ts) ==> view' == view
    requires !T.Late(cfg, t.streamTime, e.ts) ==>
      && SessionsOf(decode, view', e.key)
         == S.Step(cfg.gap, f(e.key), SessionsOf(decode, view, e.key), S.Rec(e.ts, e.value))
      && OnlyKey(e.key, view, view')
    ensures Represents(decode, view', T.Process(cfg, f, t, e))
  {
    var late := T.Late(cfg, t.streamTime, e.ts);
    forall k ensures SessionsOf(decode, view', k) == T.Of(T.Process(cfg, f, t, e), k) {
      assert SessionsOf(decode, view, k) == T.Of(t, k);
      T.ProcessAt(cfg, f, t, e, k);
      if !late && k != e.key { OtherSessions(decode, view, view', e.key, k); }
    }
  }

  lemma SweepRepresents<V, A>(decode: Bytes -> Option<A>, cfg: T.Config, f: Bytes -> S.Fns<V, A>, view: Entries,
                              view': Entries,
                              t: T.Task<Bytes, A>)
    requires Represents(decode, view, t) && Swept(decode, cfg, view, view', t.streamTime)
    ensures Represents(decode, view', T.Process(cfg, f, t, T.Sweep))
  {
    forall k ensures SessionsOf(decode, view', k) == T.Of(T.Process(cfg, f, t, T.Sweep), k) {
      assert SessionsOf(decode, view, k) == T.Of(t, k);
      T.ProcessAt(cfg, f, t, T.Sweep, k);
    }
  }

  lemma OtherSessions<A>(decode: Bytes -> Option<A>, view: Entries, view': Entries, changed: Bytes, k: Bytes)
    requires OnlyKey(changed, view, view') && k != changed
    ensures SessionsOf(decode, view', k) == SessionsOf(decode, view, k)
  {
    var m, m' := SessionsOf(decode, view, k), SessionsOf(decode, view', k);
    forall x: CK.Int64
      ensures Lookup(m', x) == Lookup(m, x)
    {
      assert Lookup(view', (k, x)) == Lookup(view, (k, x));
      assert Lookup(m, x) == SessionAt(decode, view, k, x) && Lookup(m', x) == SessionAt(decode, view', k, x);
    }
    SameSessions(m', m);
  }

  /** The first eight bytes say that the session ended before the boundary. */
  predicate Ended(raw: Bytes, boundary: int) {
    DecodeValue(raw).Some? && DecodeValue(raw).value.0 < boundary
  }

  lemma EndedSession<A>(decode: Bytes -> Option<A>, raw: Bytes, boundary: int)
    requires AsSession(decode, raw).Some?
    ensures Ended(raw, boundary) <==> AsSession(decode, raw).value.end < boundary
  {
  }

  /** The collecting half of the sweep. */
  method Expired(ghost view: Entries, entries: seq<(Bytes, Bytes)>, boundary: int)
    returns (expired: seq<(Bytes, CK.Int64)>)
    requires ShowsAll(view, entries)
    ensures forall i :: 0 <= i < |expired| ==> |expired[i].0| < CK.TWO32
    ensures forall p :: p in expired <==> p in view && Ended(view[p], boundary)
  {
    expired := [];
    for n := 0 to |entries|
      invariant forall i :: 0 <= i < |expired| ==>
                |expired[i].0| < CK.TWO32 && expired[i] in view && Ended(view[expired[i]], boundary)
      invariant forall i :: 0 <= i < n && Decodes(entries[i].0) && Ended(entries[i].1, boundary) ==>
                EntryKey(entries[i].0) in expired
    {
      assert Shown(view, entries[n]);
      if Decodes(entries[n].0) && |entries[n].1| >= 8 {
        if DecodeValue(entries[n].1).value.0 < boundary {
          expired := expired + [EntryKey(entries[n].0)];
        }
      }
    }
    forall p | p in view && Ended(view[p], boundary)
      ensures p in expired
    {
      assert ShownAt(p, entries);
      var i :| 0 <= i < |entries| && Decodes(entries[i].0) && EntryKey(entries[i].0) == p;
      assert Shown(view, entries[i]);
    }
  }

  lemma SweptSessions<A>(decode: Bytes -> Option<A>, cfg: T.Config, view: Entries, k: Bytes,
                         expired: seq<(Bytes, CK.Int64)>, time: int)
    requires time - cfg.gap - cfg.grace > 0
    requires forall p :: p in expired <==> p in view && Ended(view[p], time - cfg.gap - cfg.grace)
    ensures SessionsOf(decode, view - Elements(expired), k) == T.SweepStore(cfg, SessionsOf(decode, view, k), time)
  {
    var boundary := time - cfg.gap - cfg.grace;
    var m, m' := SessionsOf(decode, view, k), SessionsOf(decode, view - Elements(expired), k);
    var want := T.SweepStore(cfg, m, time);
    forall x: CK.Int64
      ensures Lookup(m', x) == Lookup(want, x)
    {
      var at := SessionAt(decode, view, k, x);
      assert Lookup(m, x) == at && Lookup(m', x) == SessionAt(decode, view - Elements(expired), k, x);
      assert (k, x) in expired <==> (k, x) in view && Ended(view[(k, x)], boundary);
      if at.Some? { EndedSession(decode, view[(k, x)], boundary); }
      assert Lookup(want, x) == if at.Some? && at.value.end < boundary then None else at;
    }
    SameSessions(m', want);
  }

  lemma HitOfLonger<A>(decode: Bytes -> Option<A>, gap: int, ts: int, entries: seq<(CK.Int64, Bytes)>,
                       e: (CK.Int64, Bytes), h: Hit<A>)
    requires IsHit(decode, gap, ts, entries, h)
    ensures IsHit(decode, gap, ts, entries + [e], h)
  {
    var i :| 0 <= i < |entries| && Wanted(decode, gap, ts, entries[i]) && h.start == entries[i].0
             && AsSession(decode, entries[i].1) == Some(S.Session(h.end, h.acc));
    assert (entries + [e])[i] == entries[i];
  }

  lemma ScannedNext<A>(decode: Bytes -> Option<A>, gap: int, ts: int, entries: seq<(CK.Int64, Bytes)>, n: nat,
                       before: seq<Hit<A>>, hits: seq<Hit<A>>)
    requires n < |entries| && Scanned(decode, gap, ts, entries, n, before)
    requires Ordered(entries)
    requires hits == before + if Wanted(decode, gap, ts, entries[n]) then [AsHit(decode, entries[n])] else []
    ensures Scanned(decode, gap, ts, entries, n + 1, hits)
  {
    assert entries[..n + 1] == entries[..n] + [entries[n]];
    forall h | 0 <= h < |hits|
      ensures IsHit(decode, gap, ts, entries[..n + 1], hits[h])
    {
      if h < |before| {
        HitOfLonger(decode, gap, ts, entries[..n], entries[n], before[h]);
      } else {
        assert entries[..n + 1][n] == entries[n];
      }
    }
    forall i | 0 <= i < n + 1 && Wanted(decode, gap, ts, entries[i])
      ensures exists h :: 0 <= h < |hits| && hits[h].start == entries[i].0
    {
      if i < n {
        var h :| 0 <= h < |before| && before[h].start == entries[i].0;
        assert hits[h] == before[h];
      } else {
        assert hits[|before|].start == entries[n].0;
      }
    }
    HitsBelow(decode, gap, ts, entries, n, before);
  }

  lemma HitsBelow<A>(decode: Bytes -> Option<A>, gap: int, ts: int, entries: seq<(CK.Int64, Bytes)>, n: nat,
                     hits: seq<Hit<A>>)
    requires n < |entries| && Scanned(decode, gap, ts, entries, n, hits) && Ordered(entries)
    ensures forall h :: 0 <= h < |hits| ==> CK.Unsigned(hits[h].start) < CK.Unsigned(entries[n].0)
  {
    forall h | 0 <= h < |hits|
      ensures CK.Unsigned(hits[h].start) < CK.Unsigned(entries[n].0)
    {
      assert IsHit(decode, gap, ts, entries[..n], hits[h]);
    }
  }

  lemma NoHits<A>(decode: Bytes -> Option<A>, gap: int, ts: int, entries: seq<(CK.Int64, Bytes)>, hits: seq<Hit<A>>)
    requires entries == [] && Scanned(decode, gap, ts, entries, |entries|, hits)
    ensures hits == []
  {
    assert entries[..|entries|] == [];
    forall h: Hit<A> ensures !IsHit(decode, gap, ts, [], h) {}
    assert |hits| > 0 ==> IsHit(decode, gap, ts, entries[..|entries|], hits[0]);
  }

  /** The hits of a full scan are exactly the matched sessions, in scan order. */
  lemma HitsAreMatched<A>(decode: Bytes -> Option<A>, gap: int, view: Entries, k: Bytes, ts: int,
                          entries: seq<(CK.Int64, Bytes)>, hits: seq<Hit<A>>)
    requires IsKeyScan(view, k, entries) && Scanned(decode, gap, ts, entries, |entries|, hits)
    ensures var m := SessionsOf(decode, view, k);
      && HitsOf(hits, m)
      && Starts(hits) == Listing(S.Matched(gap, m, ts))
  {
    var m, order := SessionsOf(decode, view, k), Starts(hits);
    var matched := S.Matched(gap, m, ts);
    forall i | 0 <= i < |hits|
      ensures hits[i].start in matched && m[hits[i].start] == S.Session(hits[i].end, hits[i].acc)
    {
      HitIsMatched(decode, gap, view, k, ts, entries, hits, i);
    }
    forall s | s in matched
      ensures s in order
    {
      MatchedIsHit(decode, gap, view, k, ts, entries, hits, s);
    }
    HitsInOrder(decode, gap, ts, entries, hits);
    ListingUnique(order, matched);
  }

  lemma HitsInOrder<A>(decode: Bytes -> Option<A>, gap: int, ts: int, entries: seq<(CK.Int64, Bytes)>,
                       hits: seq<Hit<A>>)
    requires Scanned(decode, gap, ts, entries, |entries|, hits)
    ensures InScanOrder(Starts(hits)) && Distinct(Starts(hits))
  {
  }

  lemma HitIsMatched<A>(decode: Bytes -> Option<A>, gap: int, view: Entries, k: Bytes, ts: int,
                        entries: seq<(CK.Int64, Bytes)>, hits: seq<Hit<A>>, i: nat)
    requires IsKeyScan(view, k, entries) && Scanned(decode, gap, ts, entries, |entries|, hits) && i < |hits|
    ensures var m := SessionsOf(decode, view, k);
      hits[i].start in S.Matched(gap, m, ts) && m[hits[i].start] == S.Session(hits[i].end, hits[i].acc)
  {
    assert entries[..|entries|] == entries;
    assert IsHit(decode, gap, ts, entries[..|entries|], hits[i]);
    var j :| 0 <= j < |entries| && Wanted(decode, gap, ts, entries[j]) && hits[i].start == entries[j].0
             && AsSession(decode, entries[j].1) == Some(S.Session(hits[i].end, hits[i].acc));
    assert (k, entries[j].0) in view;
    assert Lookup(SessionsOf(decode, view, k), hits[i].start) == SessionAt(decode, view, k, hits[i].start);
  }

  lemma MatchedIsHit<A>(decode: Bytes -> Option<A>, gap: int, view: Entries, k: Bytes, ts: int,
                        entries: seq<(CK.Int64, Bytes)>, hits: seq<Hit<A>>, s: CK.Int64)
    requires IsKeyScan(view, k, entries) && Scanned(decode, gap, ts, entries, |entries|, hits)
    requires s in S.Matched(gap, SessionsOf(decode, view, k), ts)
    ensures s in Starts(hits)
  {
    assert Lookup(SessionsOf(decode, view, k), s) == SessionAt(decode, view, k, s);
    var i :| 0 <= i < |entries| && entries[i].0 == s;
    assert Wanted(decode, gap, ts, entries[i]);
    var h :| 0 <= h < |hits| && hits[h].start == entries[i].0;
    assert Starts(hits)[h] == s;
  }

  lemma KeyListed<A>(k: Bytes, hits: seq<Hit<A>>, x: CK.Int64)
    ensures (k, x) in Keys(k, hits) <==> x in Starts(hits)
  {
    if (k, x) in Keys(k, hits) {
      var i :| 0 <= i < |hits| && Keys(k, hits)[i] == (k, x);
      assert Starts(hits)[i] == x;
    }
    if x in Starts(hits) {
      var i :| 0 <= i < |hits| && Starts(hits)[i] == x;
      assert Keys(k, hits)[i] == (k, x);
    }
  }

  lemma OthersKept<A>(view: Entries, k: Bytes, hits: seq<Hit<A>>, start: CK.Int64, raw: Bytes, view': Entries)
    requires view' == (view - Elements(Keys(k, hits)))[(k, start) := raw]
    ensures OnlyKey(k, view, view')
  {
  }

  /** Deleting the hits and writing one entry, seen as sessions. */
  lemma WrittenSessions<A>(decode: Bytes -> Option<A>, view: Entries, k: Bytes, hits: seq<Hit<A>>,
                           start: CK.Int64, raw: Bytes, view': Entries, s: S.Session<A>)
    requires view' == (view - Elements(Keys(k, hits)))[(k, start) := raw]
    requires AsSession(decode, raw) == Some(s)
    ensures SessionsOf(decode, view', k) == (SessionsOf(decode, view, k) - Elements(Starts(hits)))[start := s]
  {
    var m, m' := SessionsOf(decode, view, k), SessionsOf(decode, view', k);
    var want := (m - Elements(Starts(hits)))[start := s];
    forall x: CK.Int64
      ensures Lookup(m', x) == Lookup(want, x)
    {
      KeyListed(k, hits, x);
      assert Lookup(m, x) == SessionAt(decode, view, k, x) && Lookup(m', x) == SessionAt(decode, view', k, x);
    }
    SameSessions(m', want);
  }
}
