/** The ordered byte store as an object: stores/memory and stores/pebble. Pebble is an ordered byte
    map here, so one class serves both; they differ in how an empty value is recorded. */
module Stores {
  import opened Wrappers
  import opened Collections
  import opened ByteOrder
  import opened Changelog
  import CK = CompositeKey

  type Entries = map<(Bytes, CK.Int64), Bytes>

  // The windowed entries a store holds, read off the raw database contents.

  predicate IsEntry(prefix: Bytes, raw: Bytes) {
    prefix <= raw && CK.DecodeMemory(raw[|prefix|..]).Key?
  }

  function PairOf(prefix: Bytes, raw: Bytes): (Bytes, CK.Int64)
    requires IsEntry(prefix, raw)
  {
    var d := CK.DecodeMemory(raw[|prefix|..]);
    (d.k, d.start)
  }

  function RawKey(prefix: Bytes, k: Bytes, start: CK.Int64): Bytes {
    prefix + CK.Encode(k, start)
  }

  lemma RawKeyOfPair(prefix: Bytes, raw: Bytes)
    requires IsEntry(prefix, raw)
    ensures var p := PairOf(prefix, raw); RawKey(prefix, p.0, p.1) == raw && |p.0| < CK.TWO32
  {
    CK.EncodeOfDecode(raw[|prefix|..]);
    assert raw == prefix + raw[|prefix|..];
  }

  lemma PairOfRawKey(prefix: Bytes, k: Bytes, start: CK.Int64)
    requires |k| < CK.TWO32
    ensures IsEntry(prefix, RawKey(prefix, k, start)) && PairOf(prefix, RawKey(prefix, k, start)) == (k, start)
  {
    assert RawKey(prefix, k, start)[|prefix|..] == CK.Encode(k, start);
    CK.DecodeOfEncode(k, start);
  }

  ghost function Pairs(data: Contents, prefix: Bytes): (pairs: set<(Bytes, CK.Int64)>)
    ensures forall p :: p in pairs <==> |p.0| < CK.TWO32 && RawKey(prefix, p.0, p.1) in data
  {
    var pairs := set raw | raw in data && IsEntry(prefix, raw) :: PairOf(prefix, raw);
    assert forall p :: p in pairs <==> |p.0| < CK.TWO32 && RawKey(prefix, p.0, p.1) in data by {
      forall p
        ensures p in pairs <==> |p.0| < CK.TWO32 && RawKey(prefix, p.0, p.1) in data
      {
        if p in pairs {
          var raw :| raw in data && IsEntry(prefix, raw) && PairOf(prefix, raw) == p;
          RawKeyOfPair(prefix, raw);
        } else if |p.0| < CK.TWO32 && RawKey(prefix, p.0, p.1) in data {
          PairOfRawKey(prefix, p.0, p.1);
        }
      }
    }
    pairs
  }

  ghost function View(data: Contents, prefix: Bytes): (v: Entries)
    ensures forall p :: p in v <==> |p.0| < CK.TWO32 && RawKey(prefix, p.0, p.1) in data
    ensures forall p :: p in v ==> v[p] == data[RawKey(prefix, p.0, p.1)]
  {
    map p | p in Pairs(data, prefix) :: data[RawKey(prefix, p.0, p.1)]
  }

  /** A serde is an injective pair. */
  ghost predicate RoundTrips<A(!new)>(encode: A -> Bytes, decode: Bytes -> Option<A>) {
    forall a :: decode(encode(a)) == Some(a)
  }

  lemma RawKeyInjective(prefix: Bytes, p: (Bytes, CK.Int64), q: (Bytes, CK.Int64))
    requires |p.0| < CK.TWO32 && |q.0| < CK.TWO32
    requires RawKey(prefix, p.0, p.1) == RawKey(prefix, q.0, q.1)
    ensures p == q
  {
    PairOfRawKey(prefix, p.0, p.1);
    PairOfRawKey(prefix, q.0, q.1);
  }

  /** A windowed write changes one entry of the view and nothing else. */
  lemma ViewOfWrite(data: Contents, prefix: Bytes, k: Bytes, start: CK.Int64, value: Option<Bytes>)
    requires |k| < CK.TWO32
    ensures View(Apply(data, Mutation(RawKey(prefix, k, start), value)), prefix)
         == if value.Some? then View(data, prefix)[(k, start) := value.value] else View(data, prefix) - {(k, start)}
  {
    var v, v' := View(data, prefix), View(Apply(data, Mutation(RawKey(prefix, k, start), value)), prefix);
    forall q: (Bytes, CK.Int64)
      ensures Lookup(v', q) == if q == (k, start) then value else Lookup(v, q)
    {
      ViewOfWriteAt(data, prefix, k, start, value, q);
    }
    OneChanged(v, v', (k, start), value);
  }

  lemma OneChanged(v: Entries, v': Entries, p: (Bytes, CK.Int64), value: Option<Bytes>)
    requires forall q :: Lookup(v', q) == if q == p then value else Lookup(v, q)
    ensures v' == if value.Some? then v[p := value.value] else v - {p}
  {
    EqualLookups(v', if value.Some? then v[p := value.value] else v - {p});
  }

  lemma ViewOfWriteAt(data: Contents, prefix: Bytes, k: Bytes, start: CK.Int64, value: Option<Bytes>,
                      q: (Bytes, CK.Int64))
    requires |k| < CK.TWO32
    ensures Lookup(View(Apply(data, Mutation(RawKey(prefix, k, start), value)), prefix), q)
         == if q == (k, start) then value else Lookup(View(data, prefix), q)
  {
    if |q.0| < CK.TWO32 && RawKey(prefix, q.0, q.1) == RawKey(prefix, k, start) {
      RawKeyInjective(prefix, q, (k, start));
    }
  }

  lemma EqualLookups(a: Entries, b: Entries)
    requires forall q :: Lookup(a, q) == Lookup(b, q)
    ensures a == b
  {
    forall q
      ensures q in a <==> q in b
      ensures q in a ==> a[q] == b[q]
    {
      assert Lookup(a, q) == Lookup(b, q);
    }
  }

  /** Every key of the store is a composite key: what a store that only windowed operations write to keeps. */
  ghost predicate WellFormed(data: Contents, prefix: Bytes) {
    forall raw {:trigger IsEntry(prefix, raw)} :: raw in data && prefix <= raw ==> IsEntry(prefix, raw)
  }

  // Scans.

  predicate Within(key: Bytes, lower: Bytes, upper: Option<Bytes>) {
    !Less(key, lower) && (upper.None? || Less(key, upper.value))
  }

  /** `entries` lists, in byte order and with their values, exactly the keys of `data` in the range,
      with the store prefix stripped. */
  ghost predicate IsScan(data: Contents, prefix: Bytes, lower: Bytes, upper: Option<Bytes>,
                         entries: seq<(Bytes, Bytes)>) {
    && (forall i :: 0 <= i < |entries| ==>
          var raw := prefix + entries[i].0; raw in data && Within(raw, lower, upper) && data[raw] == entries[i].1)
    && (forall raw :: raw in data && Within(raw, lower, upper) ==>
          exists i :: 0 <= i < |entries| && prefix + entries[i].0 == raw)
    && (forall i, j :: 0 <= i < j < |entries| ==> Less(prefix + entries[i].0, prefix + entries[j].0))
  }

  function ScannedKeys(prefix: Bytes, entries: seq<(Bytes, Bytes)>): (keys: seq<Bytes>)
    ensures |keys| == |entries| && forall i :: 0 <= i < |keys| ==> keys[i] == prefix + entries[i].0
  {
    seq(|entries|, i requires 0 <= i < |entries| => prefix + entries[i].0)
  }

  lemma ScannedKeysExact(data: Contents, prefix: Bytes, lower: Bytes, upper: Option<Bytes>,
                         entries: seq<(Bytes, Bytes)>)
    requires IsScan(data, prefix, lower, upper, entries)
    ensures Ascending(ScannedKeys(prefix, entries))
    ensures forall k :: k in ScannedKeys(prefix, entries) <==> k in data && Within(k, lower, upper)
  {
    var keys := ScannedKeys(prefix, entries);
    forall k | k in data && Within(k, lower, upper)
      ensures k in keys
    {
      var i :| 0 <= i < |entries| && prefix + entries[i].0 == k;
      assert keys[i] == k;
    }
  }

  /** A scan is determined by the contents and the range. */
  lemma ScanUnique(data: Contents, prefix: Bytes, lower: Bytes, upper: Option<Bytes>,
                   a: seq<(Bytes, Bytes)>, b: seq<(Bytes, Bytes)>)
    requires IsScan(data, prefix, lower, upper, a) && IsScan(data, prefix, lower, upper, b)
    ensures a == b
  {
    var ka, kb := ScannedKeys(prefix, a), ScannedKeys(prefix, b);
    ScannedKeysExact(data, prefix, lower, upper, a);
    ScannedKeysExact(data, prefix, lower, upper, b);
    AscendingUnique(ka, kb);
    forall i | 0 <= i < |a|
      ensures a[i] == b[i]
    {
      assert ka[i] == kb[i];
      assert a[i].0 == ka[i][|prefix|..] == b[i].0;
    }
  }

  /** `entries` lists exactly the windowed entries of `k`, by ascending unsigned start. */
  ghost predicate IsKeyScan(view: Entries, k: Bytes, entries: seq<(CK.Int64, Bytes)>) {
    && (forall i :: 0 <= i < |entries| ==> (k, entries[i].0) in view && view[(k, entries[i].0)] == entries[i].1)
    && (forall s :: (k, s) in view ==> exists i :: 0 <= i < |entries| && entries[i].0 == s)
    && (forall i, j :: 0 <= i < j < |entries| ==> CK.Unsigned(entries[i].0) < CK.Unsigned(entries[j].0))
  }

  /** A scanned key that decodes, and the entry it names. */
  predicate Decodes(raw: Bytes) { CK.DecodeMemory(raw).Key? }

  function EntryKey(raw: Bytes): (Bytes, CK.Int64)
    requires Decodes(raw)
  {
    (CK.DecodeMemory(raw).k, CK.DecodeMemory(raw).start)
  }

  ghost predicate Shown(view: Entries, entry: (Bytes, Bytes)) {
    Decodes(entry.0) ==>
      |EntryKey(entry.0).0| < CK.TWO32 && EntryKey(entry.0) in view && view[EntryKey(entry.0)] == entry.1
  }

  ghost predicate ShownAt(p: (Bytes, CK.Int64), entries: seq<(Bytes, Bytes)>) {
    exists i :: 0 <= i < |entries| && Decodes(entries[i].0) && EntryKey(entries[i].0) == p
  }

  /** A scan of the whole store shows every windowed entry, and whatever it shows that decodes is one. */
  ghost predicate ShowsAll(view: Entries, entries: seq<(Bytes, Bytes)>) {
    && (forall i :: 0 <= i < |entries| ==> Shown(view, entries[i]))
    && (forall p {:trigger ShownAt(p, entries)} :: p in view ==> ShownAt(p, entries))
  }

  lemma RangeShowsAll(data: Contents, prefix: Bytes, entries: seq<(Bytes, Bytes)>)
    requires IsScan(data, prefix, prefix, CK.PrefixUpperBound(prefix), entries)
    ensures ShowsAll(View(data, prefix), entries)
  {
    var view := View(data, prefix);
    forall i | 0 <= i < |entries|
      ensures Shown(view, entries[i])
    {
      if Decodes(entries[i].0) {
        var p := EntryKey(entries[i].0);
        CK.EncodeOfDecode(entries[i].0);
        assert RawKey(prefix, p.0, p.1) == prefix + entries[i].0;
      }
    }
    forall p | p in view
      ensures ShownAt(p, entries)
    {
      var raw := RawKey(prefix, p.0, p.1);
      CK.PrefixRange(prefix, raw);
      assert raw in data && Within(raw, prefix, CK.PrefixUpperBound(prefix));
      var i :| 0 <= i < |entries| && prefix + entries[i].0 == raw;
      assert entries[i].0 == raw[|prefix|..] == CK.Encode(p.0, p.1);
      CK.DecodeOfEncode(p.0, p.1);
      assert Decodes(entries[i].0) && EntryKey(entries[i].0) == p;
    }
  }

  class Database {
    var data: Contents
    var checkpoints: map<Bytes, int>
    var streamTime: int
    var hasStreamTime: bool
    var closed: bool

    constructor ()
      ensures data == map[] && checkpoints == map[] && !closed && !hasStreamTime && streamTime == 0
    {
      data, checkpoints, closed, hasStreamTime, streamTime := map[], map[], false, false, 0;
    }

    /** `Restore`: applies the mutations in order and records the checkpoint with them. */
    method Restore(storeName: Bytes, log: seq<Mutation>, checkpoint: int) returns (ok: bool)
      modifies this`data, this`checkpoints
      ensures ok == !closed
      ensures data == if ok then Replay(old(data), log) else old(data)
      ensures checkpoints
           == if ok && checkpoint >= 0 then old(checkpoints)[storeName := checkpoint] else old(checkpoints)
    {
      if closed { return false; }
      for i := 0 to |log|
        invariant data == Replay(old(data), log[..i]) && checkpoints == old(checkpoints)
      {
        assert log[..i + 1][..i] == log[..i];
        if log[i].value.None? {
          data := data - {log[i].key};
        } else {
          data := data[log[i].key := log[i].value.value];
        }
      }
      assert log[..|log|] == log;
      if checkpoint >= 0 { checkpoints := checkpoints[storeName := checkpoint]; }
      return true;
    }

    method WriteCheckpoint(storeName: Bytes, offset: int) returns (ok: bool)
      modifies this`checkpoints
      ensures ok == !closed
      ensures checkpoints == if ok then old(checkpoints)[storeName := offset] else old(checkpoints)
    {
      if closed { return false; }
      checkpoints := checkpoints[storeName := offset];
      return true;
    }

    method ReadCheckpoint(storeName: Bytes) returns (ok: bool, offset: Option<int>)
      ensures ok == !closed
      ensures ok ==> offset == Lookup(checkpoints, storeName)
    {
      if closed { return false, None; }
      return true, if storeName in checkpoints then Some(checkpoints[storeName]) else None;
    }
  }

  class KeyValueStore {
    const db: Database
    const prefix: Bytes
    const backend: Backend
    const collect: bool
    var mutations: seq<Mutation>
    var closed: bool

    /** `OpenStore`: an empty name is refused by the caller. */
    constructor (name: Bytes, db: Database, backend: Backend, collect: bool)
      ensures this.db == db && prefix == CK.StorePrefix(name) && this.backend == backend && this.collect == collect
      ensures mutations == [] && !closed
    {
      this.db, prefix, this.backend, this.collect := db, CK.StorePrefix(name), backend, collect;
      mutations, closed := [], false;
    }

    predicate Open()
      reads this, db
    {
      !closed && !db.closed
    }

    ghost function State(): Logged
      reads this, db
    {
      Logged(db.data, mutations, [])
    }

    ghost function Windows(): Entries
      reads this, db
    {
      View(db.data, prefix)
    }

    /** `put` and `delete`: write the database, then record the mutation. */
    method Write(u: Mutation) returns (ok: bool)
      modifies this`mutations, db`data
      ensures ok == old(Open())
      ensures db.data == if ok then Apply(old(db.data), u) else old(db.data)
      ensures mutations == old(mutations) + if ok && collect then [Recorded(backend, u)] else []
    {
      if closed || db.closed { return false; }
      db.data := if u.value.Some? then db.data[u.key := u.value.value] else db.data - {u.key};
      if collect { mutations := mutations + [Recorded(backend, u)]; }
      return true;
    }

    method Put(key: Bytes, value: Bytes) returns (ok: bool)
      modifies this`mutations, db`data
      ensures ok == old(Open())
      ensures ok && collect ==> State() == Step(backend, prefix, old(State()), Op.Put(key, value))
      ensures ok ==> db.data == old(db.data)[prefix + key := value]
      ensures !ok ==> State() == old(State())
    {
      ok := Write(Mutation(prefix + key, Some(value)));
    }

    method Delete(key: Bytes) returns (ok: bool)
      modifies this`mutations, db`data
      ensures ok == old(Open())
      ensures ok && collect ==> State() == Step(backend, prefix, old(State()), Op.Delete(key))
      ensures ok ==> db.data == old(db.data) - {prefix + key}
      ensures !ok ==> State() == old(State())
    {
      ok := Write(Mutation(prefix + key, None));
    }

    method Get(key: Bytes) returns (ok: bool, value: Option<Bytes>)
      ensures ok == Open()
      ensures ok ==> value == Lookup(db.data, prefix + key)
    {
      if closed || db.closed { return false, None; }
      var k := prefix + key;
      return true, if k in db.data then Some(db.data[k]) else None;
    }

    method WindowGet(k: Bytes, start: CK.Int64) returns (ok: bool, value: Option<Bytes>)
      ensures ok == Open()
      ensures ok && |k| < CK.TWO32 ==> value == Lookup(Windows(), (k, start))
    {
      ok, value := Get(CK.Encode(k, start));
      assert RawKey(prefix, k, start) == prefix + CK.Encode(k, start);
    }

    method WindowPut(k: Bytes, start: CK.Int64, value: Bytes) returns (ok: bool)
      modifies this`mutations, db`data
      ensures ok == old(Open())
      ensures ok && collect ==> State() == Step(backend, prefix, old(State()), Op.WindowPut(k, start, value))
      ensures ok ==> db.data == old(db.data)[RawKey(prefix, k, start) := value]
      ensures ok && |k| < CK.TWO32 ==> Windows() == old(Windows())[(k, start) := value]
      ensures |k| < CK.TWO32 && old(WellFormed(db.data, prefix)) ==> WellFormed(db.data, prefix)
      ensures !ok ==> State() == old(State())
    {
      ghost var raw := RawKey(prefix, k, start);
      if |k| < CK.TWO32 {
        ViewOfWrite(db.data, prefix, k, start, Some(value));
        PairOfRawKey(prefix, k, start);
      }
      ok := Write(Mutation(prefix + CK.Encode(k, start), Some(value)));
    }

    method WindowDelete(k: Bytes, start: CK.Int64) returns (ok: bool)
      modifies this`mutations, db`data
      ensures ok == old(Open())
      ensures ok && collect ==> State() == Step(backend, prefix, old(State()), Op.WindowDelete(k, start))
      ensures ok && |k| < CK.TWO32 ==> Windows() == old(Windows()) - {(k, start)}
      ensures OnlyUnder(prefix, old(db.data), db.data)
      ensures old(WellFormed(db.data, prefix)) ==> WellFormed(db.data, prefix)
      ensures !ok ==> State() == old(State())
    {
      if |k| < CK.TWO32 { ViewOfWrite(db.data, prefix, k, start, None); }
      ok := Write(Mutation(prefix + CK.Encode(k, start), None));
    }

    /** The delete loops of the session processor and of the sweeps. */
    method DeleteEntries(keys: seq<(Bytes, CK.Int64)>) returns (ok: bool)
      requires Open() && forall i :: 0 <= i < |keys| ==> |keys[i].0| < CK.TWO32
      modifies this`mutations, db`data
      ensures ok && Open()
      ensures Windows() == old(Windows()) - Elements(keys)
      ensures old(WellFormed(db.data, prefix)) ==> WellFormed(db.data, prefix)
      ensures OnlyUnder(prefix, old(db.data), db.data)
    {
      ghost var view, formed := Windows(), WellFormed(db.data, prefix);
      for i := 0 to |keys|
        invariant Open() && (formed ==> WellFormed(db.data, prefix)) && OnlyUnder(prefix, old(db.data), db.data)
        invariant Windows() == view - Elements(keys[..i])
      {
        RemoveNext(view, keys, i);
        var gone := WindowDelete(keys[i].0, keys[i].1);
      }
      assert keys[..|keys|] == keys;
      ok := true;
    }

    /** Deletes the listed entries, then puts one. */
    method ReplaceEntries(keys: seq<(Bytes, CK.Int64)>, k: Bytes, start: CK.Int64, value: Bytes) returns (ok: bool)
      requires Open() && |k| < CK.TWO32 && forall i :: 0 <= i < |keys| ==> |keys[i].0| < CK.TWO32
      modifies this`mutations, db`data
      ensures ok && Open()
      ensures Windows() == (old(Windows()) - Elements(keys))[(k, start) := value]
      ensures old(WellFormed(db.data, prefix)) ==> WellFormed(db.data, prefix)
    {
      ok := DeleteEntries(keys);
      ok := WindowPut(k, start, value);
    }

    /** `DrainMutations`. */
    method DrainMutations() returns (drained: seq<Mutation>)
      modifies this`mutations
      ensures drained == old(mutations) && mutations == []
      ensures Logged(db.data, mutations, drained) == Step(backend, prefix, old(State()), Op.Drain)
    {
      drained := mutations;
      mutations := [];
      assert [] + drained == drained;
    }

    /** The collect-and-sort loop behind every range operation: the map is visited in an arbitrary
        order, the keys of the range are kept, then sorted. */
    method Collect(lower: Bytes, upper: Option<Bytes>) returns (keys: seq<Bytes>)
      ensures Ascending(keys)
      ensures forall k :: k in keys <==> k in db.data && Within(k, lower, upper)
    {
      var rest, found := db.data.Keys, [];
      while rest != {}
        invariant rest <= db.data.Keys
        invariant forall k :: k in found <==> k in db.data && k !in rest && Within(k, lower, upper)
        invariant forall i, j :: 0 <= i < j < |found| ==> found[i] != found[j]
        decreases rest
      {
        var raw :| raw in rest;
        if Within(raw, lower, upper) {
          assert raw !in found;
          found := found + [raw];
        }
        rest := rest - {raw};
      }
      keys := SortKeys(found);
    }

    /** Strips the prefix and fetches the values. */
    method Fetch(lower: Bytes, upper: Option<Bytes>) returns (entries: seq<(Bytes, Bytes)>)
      requires forall raw :: Within(raw, lower, upper) ==> prefix <= raw
      ensures IsScan(db.data, prefix, lower, upper, entries)
    {
      var keys := Collect(lower, upper);
      assert forall i :: 0 <= i < |keys| ==> keys[i] in keys;
      entries := [];
      for i := 0 to |keys|
        invariant |entries| == i
        invariant forall j :: 0 <= j < i ==> prefix + entries[j].0 == keys[j] && entries[j].1 == db.data[keys[j]]
      {
        assert keys[i] in keys;
        assert keys[i] == prefix + keys[i][|prefix|..];
        entries := entries + [(keys[i][|prefix|..], db.data[keys[i]])];
      }
    }

    /** `Range`: every entry of this store, in byte order. */
    method Range() returns (ok: bool, entries: seq<(Bytes, Bytes)>)
      ensures ok == Open()
      ensures ok ==> IsScan(db.data, prefix, prefix, CK.PrefixUpperBound(prefix), entries)
      ensures ok ==> ShowsAll(Windows(), entries)
    {
      if closed || db.closed { return false, []; }
      forall raw
        ensures Within(raw, prefix, CK.PrefixUpperBound(prefix)) <==> prefix <= raw
      {
        CK.PrefixRange(prefix, raw);
      }
      entries := Fetch(prefix, CK.PrefixUpperBound(prefix));
      RangeShowsAll(db.data, prefix, entries);
      ok := true;
    }

    /** `RangeCompositeBytes`: the store prefix is added to both bounds. */
    method RangeCompositeBytes(lower: Bytes, upper: Bytes) returns (ok: bool, entries: seq<(Bytes, Bytes)>)
      ensures ok == Open()
      ensures ok ==> IsScan(db.data, prefix, prefix + lower, Some(prefix + upper), entries)
    {
      if closed || db.closed { return false, []; }
      forall raw | Within(raw, prefix + lower, Some(prefix + upper))
        ensures prefix <= raw
      {
        BetweenSharesPrefix(prefix, lower, upper, raw);
      }
      entries := Fetch(prefix + lower, Some(prefix + upper));
      ok := true;
    }

    /** `RangeForKey`: the bounds of one key, each raw key decoded; a malformed key stops the scan with an error.
        For the one key without an upper bound nothing is scanned. */
    method RangeForKey(k: Bytes) returns (ok: bool, entries: seq<(CK.Int64, Bytes)>)
      ensures ok <==> Open() && KeyRangeDecodes(db.data, prefix, k)
      ensures ok && |k| < CK.TWO32 ==> if CK.AllOnes(k) then entries == [] else IsKeyScan(Windows(), k, entries)
    {
      var raws;
      entries := [];
      ok, raws := RangeCompositeBytes(CK.KeyLower(k), CK.KeyUpper(k));
      if !ok { return; }
      for i := 0 to |raws|
        invariant DecodedUpTo(raws, i, entries)
      {
        var d := CK.DecodeMemory(raws[i].0);
        if d.Malformed? {
          MalformedInRange(db.data, prefix, k, raws, i);
          return false, entries;
        }
        entries := entries + [(d.start, raws[i].1)];
      }
      AllDecode(db.data, prefix, k, raws);
      if |k| < CK.TWO32 {
        if CK.AllOnes(k) {
          NothingScanned(db.data, prefix, k, raws);
        } else {
          KeyScanOfScan(db.data, prefix, k, raws, entries);
        }
      }
    }

    /** `DeleteRangeBytes` (pebble): collects the range first, then deletes key by key so that every
        deletion leaves its own tombstone in the log. */
    method DeleteRangeBytes(lower: Bytes, upper: Bytes) returns (ok: bool, ghost tombstones: seq<Mutation>)
      modifies this`mutations, db`data
      ensures ok == old(Open())
      ensures ok ==>
                forall raw :: raw in db.data <==> raw in old(db.data) && !InRange(raw, prefix + lower, prefix + upper)
      ensures forall raw :: raw in db.data ==> raw in old(db.data) && db.data[raw] == old(db.data)[raw]
      ensures mutations == old(mutations) + if collect then tombstones else []
      ensures Replay(old(db.data), tombstones) == db.data
    {
      var entries;
      tombstones := [];
      ok, entries := RangeCompositeBytes(lower, upper);
      if !ok { return; }
      ScannedKeysExact(db.data, prefix, prefix + lower, Some(prefix + upper), entries);
      tombstones := DeleteScanned(entries);
    }

    method DeleteScanned(entries: seq<(Bytes, Bytes)>) returns (ghost tombstones: seq<Mutation>)
      requires Open()
      modifies this`mutations, db`data
      ensures db.data == old(db.data) - Elements(ScannedKeys(prefix, entries))
      ensures mutations == old(mutations) + if collect then tombstones else []
      ensures Replay(old(db.data), tombstones) == db.data
    {
      tombstones := [];
      ghost var keys := ScannedKeys(prefix, entries);
      for i := 0 to |entries|
        invariant Open()
        invariant db.data == old(db.data) - Elements(keys[..i])
        invariant mutations == old(mutations) + if collect then tombstones else []
        invariant Replay(old(db.data), tombstones) == db.data
      {
        RemoveNext(old(db.data), keys, i);
        var u := Mutation(prefix + entries[i].0, None);
        var done := Write(u);
        assert (tombstones + [u])[..|tombstones|] == tombstones;
        tombstones := tombstones + [u];
      }
      assert keys[..|entries|] == keys;
    }
  }

  /** Nothing outside the store's own keys has changed. */
  ghost predicate OnlyUnder(prefix: Bytes, data: Contents, data': Contents) {
    forall raw :: !(prefix <= raw) ==> Lookup(data', raw) == Lookup(data, raw)
  }

  /** Changes under one store's prefix leave the entries of every other store of the database alone. */
  lemma OtherStoreUntouched(name: Bytes, other: Bytes, data: Contents, data': Contents)
    requires CK.ValidName(name) && CK.ValidName(other) && name != other && OnlyUnder(CK.StorePrefix(name), data, data')
    ensures View(data', CK.StorePrefix(other)) == View(data, CK.StorePrefix(other))
    ensures WellFormed(data, CK.StorePrefix(other)) ==> WellFormed(data', CK.StorePrefix(other))
  {
    var prefix := CK.StorePrefix(other);
    forall raw | prefix <= raw
      ensures Lookup(data', raw) == Lookup(data, raw)
    {
      if CK.StorePrefix(name) <= raw { CK.PrefixesDiffer(name, other, raw); }
    }
    forall q: (Bytes, CK.Int64)
      ensures Lookup(View(data', prefix), q) == Lookup(View(data, prefix), q)
    {
      var raw := RawKey(prefix, q.0, q.1);
      assert Lookup(data', raw) == Lookup(data, raw);
    }
    EqualLookups(View(data', prefix), View(data, prefix));
    if WellFormed(data, prefix) {
      forall raw | raw in data' && prefix <= raw
        ensures IsEntry(prefix, raw)
      {
        assert Lookup(data', raw) == Lookup(data, raw);
      }
    }
  }

  /** The raw scan of a key's range, read back as entries of that key. */
  lemma RawsAreEntries(data: Contents, prefix: Bytes, k: Bytes, raw: Bytes)
    requires |k| < CK.TWO32 && CK.DecodeMemory(raw).Key?
    requires InRange(prefix + raw, prefix + CK.KeyLower(k), prefix + CK.KeyUpper(k))
    ensures raw == CK.Encode(k, CK.DecodeMemory(raw).start)
  {
    var d := CK.DecodeMemory(raw);
    CK.EncodeOfDecode(raw);
    CK.RangeForKeyExact(prefix, k, d.k, d.start);
  }

  /** The raw keys in a key's byte range all decode. */
  ghost predicate KeyRangeDecodes(data: Contents, prefix: Bytes, k: Bytes) {
    forall raw {:trigger IsEntry(prefix, raw)} ::
      raw in data && InRange(raw, prefix + CK.KeyLower(k), prefix + CK.KeyUpper(k)) ==> IsEntry(prefix, raw)
  }

  ghost predicate IsKeyRangeScan(data: Contents, prefix: Bytes, k: Bytes, raws: seq<(Bytes, Bytes)>) {
    IsScan(data, prefix, prefix + CK.KeyLower(k), Some(prefix + CK.KeyUpper(k)), raws)
  }

  predicate DecodedUpTo(raws: seq<(Bytes, Bytes)>, n: nat, entries: seq<(CK.Int64, Bytes)>) {
    && n == |entries| <= |raws|
    && forall j :: 0 <= j < n ==>
       Decodes(raws[j].0) && EntryKey(raws[j].0).1 == entries[j].0 && entries[j].1 == raws[j].1
  }

  lemma MalformedInRange(data: Contents, prefix: Bytes, k: Bytes, raws: seq<(Bytes, Bytes)>, i: nat)
    requires IsKeyRangeScan(data, prefix, k, raws) && i < |raws| && !Decodes(raws[i].0)
    ensures !KeyRangeDecodes(data, prefix, k)
  {
    var raw := prefix + raws[i].0;
    assert raw[|prefix|..] == raws[i].0;
    assert raw in data && !IsEntry(prefix, raw);
  }

  lemma AllDecode(data: Contents, prefix: Bytes, k: Bytes, raws: seq<(Bytes, Bytes)>)
    requires IsKeyRangeScan(data, prefix, k, raws) && forall i :: 0 <= i < |raws| ==> Decodes(raws[i].0)
    ensures KeyRangeDecodes(data, prefix, k)
  {
    forall raw | raw in data && InRange(raw, prefix + CK.KeyLower(k), prefix + CK.KeyUpper(k))
      ensures IsEntry(prefix, raw)
    {
      assert Within(raw, prefix + CK.KeyLower(k), Some(prefix + CK.KeyUpper(k)));
      var i :| 0 <= i < |raws| && prefix + raws[i].0 == raw;
      assert raw[|prefix|..] == raws[i].0;
    }
  }

  /** Without an upper bound the range is empty. */
  lemma NothingScanned(data: Contents, prefix: Bytes, k: Bytes, raws: seq<(Bytes, Bytes)>)
    requires |k| < CK.TWO32 && CK.AllOnes(k) && IsKeyRangeScan(data, prefix, k, raws)
    ensures raws == []
  {
    CK.UpperBoundMissing(k);
    if raws != [] {
      var raw := prefix + raws[0].0;
      assert Within(raw, prefix + CK.KeyLower(k), Some(prefix + CK.KeyUpper(k)));
      assert prefix + CK.KeyUpper(k) == prefix;
      CK.PrefixNotAbove(prefix, raw);
    }
  }

  /** An instance: an entry of the key of 2^32 - 1 bytes 0xff is in the store, and the scan of its key misses it. */
  lemma AllOnesEntryIsMissed(prefix: Bytes, start: CK.Int64, value: Bytes) returns (k: Bytes, data: Contents)
    ensures |k| < CK.TWO32 && (k, start) in View(data, prefix) && View(data, prefix)[(k, start)] == value
    ensures IsKeyRangeScan(data, prefix, k, [])
  {
    k := seq(CK.TWO32 - 1, _ => 255);
    data := map[RawKey(prefix, k, start) := value];
    assert CK.AllOnes(k);
    CK.RangeForKeyExact(prefix, k, k, start);
  }

  lemma KeyScanOfScan(data: Contents, prefix: Bytes, k: Bytes, raws: seq<(Bytes, Bytes)>,
                      entries: seq<(CK.Int64, Bytes)>)
    requires |k| < CK.TWO32 && !CK.AllOnes(k)
    requires IsKeyRangeScan(data, prefix, k, raws) && DecodedUpTo(raws, |raws|, entries)
    ensures IsKeyScan(View(data, prefix), k, entries)
  {
    var view := View(data, prefix);
    forall i | 0 <= i < |raws|
      ensures prefix + raws[i].0 == RawKey(prefix, k, entries[i].0)
      ensures (k, entries[i].0) in view && view[(k, entries[i].0)] == entries[i].1
    {
      RawsAreEntries(data, prefix, k, raws[i].0);
    }
    forall s | (k, s) in view
      ensures exists i :: 0 <= i < |entries| && entries[i].0 == s
    {
      CK.RangeForKeyExact(prefix, k, k, s);
      assert Within(RawKey(prefix, k, s), prefix + CK.KeyLower(k), Some(prefix + CK.KeyUpper(k)));
      var i :| 0 <= i < |raws| && prefix + raws[i].0 == RawKey(prefix, k, s);
      RawKeyInjective(prefix, (k, entries[i].0), (k, s));
    }
    forall i, j | 0 <= i < j < |entries|
      ensures CK.Unsigned(entries[i].0) < CK.Unsigned(entries[j].0)
    {
      LessUnderPrefix(prefix, CK.Encode(k, entries[i].0), CK.Encode(k, entries[j].0));
      CK.EncodeOrder(k, entries[i].0, entries[j].0);
    }
  }
}
