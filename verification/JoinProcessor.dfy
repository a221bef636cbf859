/** The two join processors as the code runs them, on two byte stores of one database. Proved against
    `JoinTask.Process` and `JoinTask.Emits`. */
module JoinProcessor {
  import opened Wrappers
  import opened Collections
  import opened ByteOrder
  import CK = CompositeKey
  import opened Changelog
  import opened Stores
  import opened WindowProcessor
  import T = JoinTask

  /** The configuration fits int64, with headroom for `before + grace`. */
  predicate Fits(cfg: T.Config) {
    cfg.Valid() && cfg.before + cfg.grace < CK.TWO63 && cfg.after < CK.TWO63
  }

  function Bounds(cfg: T.Config, k: Bytes, ts: CK.Int64): (Bytes, Bytes)
    requires Fits(cfg)
  {
    CK.ScanBounds(k, ts, cfg.before, cfg.after, cfg.grace)
  }

  /** The byte bounds mean the join window, for every stored timestamp. */
  lemma BoundsAreWindow(cfg: T.Config, prefix: Bytes, k: Bytes, ts: CK.Int64, k': Bytes, s: CK.Int64)
    requires Fits(cfg) && |k| < CK.TWO32 && |k'| < CK.TWO32
    ensures Within(RawKey(prefix, k', s), prefix + Bounds(cfg, k, ts).0, Some(prefix + Bounds(cfg, k, ts).1))
       <==> k' == k && T.InWindow(cfg, ts, s)
  {
    CK.ScanBoundsExact(prefix, k, ts, cfg.before, cfg.after, cfg.grace, k', s);
  }

  /** `raws` is what the other store's scan returns for the record `(k, ts)`. */
  ghost predicate IsWindowScan(cfg: T.Config, data: Contents, prefix: Bytes, k: Bytes, ts: CK.Int64,
                               raws: seq<(Bytes, Bytes)>)
    requires Fits(cfg)
  {
    IsScan(data, prefix, prefix + Bounds(cfg, k, ts).0, Some(prefix + Bounds(cfg, k, ts).1), raws)
  }

  lemma RawOfScan(cfg: T.Config, data: Contents, prefix: Bytes, k: Bytes, ts: CK.Int64, raws: seq<(Bytes, Bytes)>,
                  i: nat)
    requires Fits(cfg) && |k| < CK.TWO32 && WellFormed(data, prefix)
    requires IsWindowScan(cfg, data, prefix, k, ts, raws) && i < |raws|
    ensures Decodes(raws[i].0)
    ensures var s := EntryKey(raws[i].0).1;
      prefix + raws[i].0 == RawKey(prefix, k, s) && T.InWindow(cfg, ts, s)
      && (k, s) in View(data, prefix) && View(data, prefix)[(k, s)] == raws[i].1
  {
    var raw := raws[i].0;
    assert (prefix + raw)[|prefix|..] == raw;
    assert IsEntry(prefix, prefix + raw);
    CK.EncodeOfDecode(raw);
    BoundsAreWindow(cfg, prefix, k, ts, EntryKey(raw).0, EntryKey(raw).1);
  }

  function Starts(raws: seq<(Bytes, Bytes)>): (starts: seq<int>)
    requires forall i :: 0 <= i < |raws| ==> Decodes(raws[i].0)
    ensures |starts| == |raws| && forall i :: 0 <= i < |raws| ==> starts[i] == EntryKey(raws[i].0).1
  {
    seq(|raws|, i requires 0 <= i < |raws| => EntryKey(raws[i].0).1)
  }

  ghost predicate ValuesDecode<A>(decode: Bytes -> Option<A>, raws: seq<(Bytes, Bytes)>) {
    forall i :: 0 <= i < |raws| ==> decode(raws[i].1).Some?
  }

  /** The scan visits exactly the partners, in the order of unsigned timestamps. */
  lemma ScanListsPartners<A>(cfg: T.Config, data: Contents, prefix: Bytes, k: Bytes, ts: CK.Int64,
                             raws: seq<(Bytes, Bytes)>,
                             decode: Bytes -> Option<A>)
    requires Fits(cfg) && |k| < CK.TWO32 && WellFormed(data, prefix)
    requires IsWindowScan(cfg, data, prefix, k, ts, raws) && ValuesDecode(decode, raws)
    ensures forall i :: 0 <= i < |raws| ==> Decodes(raws[i].0)
    ensures Starts(raws) == Listing(T.Partners(cfg, Side(data, prefix, decode), k, ts))
  {
    forall i | 0 <= i < |raws|
      ensures Decodes(raws[i].0) && prefix + raws[i].0 == RawKey(prefix, k, EntryKey(raws[i].0).1)
      ensures EntryKey(raws[i].0).1 in T.Partners(cfg, Side(data, prefix, decode), k, ts)
    {
      RawOfScan(cfg, data, prefix, k, ts, raws, i);
      assert (k, EntryKey(raws[i].0).1) in Side(data, prefix, decode);
    }
    var starts, partners := Starts(raws), T.Partners(cfg, Side(data, prefix, decode), k, ts);
    forall i, j | 0 <= i < j < |starts|
      ensures Before(starts[i], starts[j])
    {
      LessUnderPrefix(prefix, CK.Encode(k, starts[i]), CK.Encode(k, starts[j]));
      CK.EncodeOrder(k, starts[i], starts[j]);
    }
    forall t | t in partners
      ensures t in starts
    {
      PartnerIsScanned(cfg, data, prefix, k, ts, raws, t);
    }
    ListingUnique(starts, partners);
  }

  lemma PartnerIsScanned(cfg: T.Config, data: Contents, prefix: Bytes, k: Bytes, ts: CK.Int64,
                         raws: seq<(Bytes, Bytes)>, t: CK.Int64)
    requires Fits(cfg) && |k| < CK.TWO32 && WellFormed(data, prefix)
    requires IsWindowScan(cfg, data, prefix, k, ts, raws)
    requires (k, t) in View(data, prefix) && T.InWindow(cfg, ts, t)
    requires forall i :: 0 <= i < |raws| ==> Decodes(raws[i].0)
    ensures t in Starts(raws)
    ensures exists i :: 0 <= i < |raws| && View(data, prefix)[(k, t)] == raws[i].1
  {
    BoundsAreWindow(cfg, prefix, k, ts, k, t);
    var i :| 0 <= i < |raws| && prefix + raws[i].0 == RawKey(prefix, k, t);
    RawOfScan(cfg, data, prefix, k, ts, raws, i);
    RawKeyInjective(prefix, (k, EntryKey(raws[i].0).1), (k, t));
    assert Starts(raws)[i] == t;
  }

  /** Every stored value that a record at `ts` would join with decodes. */
  ghost predicate PartnersReadable<A>(cfg: T.Config, decode: Bytes -> Option<A>, data: Contents, prefix: Bytes,
                                      k: Bytes, ts: CK.Int64) {
    forall t: CK.Int64 {:trigger T.InWindow(cfg, ts, t)} ::
      (k, t) in View(data, prefix) && T.InWindow(cfg, ts, t) ==> decode(View(data, prefix)[(k, t)]).Some?
  }

  lemma DecodeIffReadable<A>(cfg: T.Config, data: Contents, prefix: Bytes, k: Bytes, ts: CK.Int64,
                             raws: seq<(Bytes, Bytes)>,
                             decode: Bytes -> Option<A>)
    requires Fits(cfg) && |k| < CK.TWO32 && WellFormed(data, prefix) && IsWindowScan(cfg, data, prefix, k, ts, raws)
    ensures ValuesDecode(decode, raws) <==> PartnersReadable(cfg, decode, data, prefix, k, ts)
  {
    forall i | 0 <= i < |raws|
      ensures Decodes(raws[i].0)
      ensures PartnersReadable(cfg, decode, data, prefix, k, ts) ==> decode(raws[i].1).Some?
    {
      RawOfScan(cfg, data, prefix, k, ts, raws, i);
    }
    if ValuesDecode(decode, raws) {
      forall t: CK.Int64 | (k, t) in View(data, prefix) && T.InWindow(cfg, ts, t)
        ensures decode(View(data, prefix)[(k, t)]).Some?
      {
        PartnerIsScanned(cfg, data, prefix, k, ts, raws, t);
      }
    }
  }

  ghost predicate SameValues<W>(out: seq<W>, emitted: seq<T.Emission<W>>) {
    |out| == |emitted| && forall i :: 0 <= i < |out| ==> out[i] == emitted[i].value
  }

  /** One side of the join, as the model sees it. */
  ghost function Side<V>(data: Contents, prefix: Bytes, decode: Bytes -> Option<V>): map<(Bytes, int), V> {
    TableOf(decode, View(data, prefix))
  }

  /** Buffering a record changes one entry of its own side... */
  lemma BufferedOwn<V>(data: Contents, prefix: Bytes, k: Bytes, ts: CK.Int64, bytes: Bytes, decode: Bytes -> Option<V>)
    requires |k| < CK.TWO32 && decode(bytes).Some? && WellFormed(data, prefix)
    ensures var data' := data[RawKey(prefix, k, ts) := bytes];
      && WellFormed(data', prefix)
      && Side(data', prefix, decode) == Side(data, prefix, decode)[(k, ts) := decode(bytes).value]
      && (AllReadable(decode, View(data, prefix)) ==> AllReadable(decode, View(data', prefix)))
  {
    ViewOfWrite(data, prefix, k, ts, Some(bytes));
    PairOfRawKey(prefix, k, ts);
    TableOfPut(decode, View(data, prefix), (k, ts), bytes);
    OneWritten(decode, View(data, prefix), (k, ts), bytes);
  }

  /** ... and nothing on the other. */
  lemma BufferedOther(data: Contents, name: Bytes, other: Bytes, k: Bytes, ts: CK.Int64, bytes: Bytes)
    requires CK.ValidName(name) && CK.ValidName(other) && name != other
    ensures var data' := data[RawKey(CK.StorePrefix(name), k, ts) := bytes];
      && View(data', CK.StorePrefix(other)) == View(data, CK.StorePrefix(other))
      && (WellFormed(data, CK.StorePrefix(other)) ==> WellFormed(data', CK.StorePrefix(other)))
  {
    var raw := RawKey(CK.StorePrefix(name), k, ts);
    assert CK.StorePrefix(name) <= raw;
    OtherStoreUntouched(name, other, data, data[raw := bytes]);
  }

  /** Decoding and joining the scanned values gives the emissions. */
  lemma ScanEmits<V, W>(cfg: T.Config, data: Contents, prefix: Bytes, k: Bytes, ts: CK.Int64, raws: seq<(Bytes, Bytes)>,
                        decode: Bytes -> Option<V>, join: V -> W)
    requires Fits(cfg) && |k| < CK.TWO32 && WellFormed(data, prefix)
    requires IsWindowScan(cfg, data, prefix, k, ts, raws) && ValuesDecode(decode, raws)
    ensures SameValues(seq(|raws|, i requires 0 <= i < |raws| => join(decode(raws[i].1).value)),
                       T.Scan(cfg, Side(data, prefix, decode), k, ts, join))
  {
    ScanListsPartners(cfg, data, prefix, k, ts, raws, decode);
    forall i | 0 <= i < |raws|
      ensures join(decode(raws[i].1).value) == T.Scan(cfg, Side(data, prefix, decode), k, ts, join)[i].value
    {
      SideAt(cfg, data, prefix, k, ts, raws, decode, i);
      assert Starts(raws)[i] == EntryKey(raws[i].0).1;
    }
  }

  lemma SideAt<V>(cfg: T.Config, data: Contents, prefix: Bytes, k: Bytes, ts: CK.Int64, raws: seq<(Bytes, Bytes)>,
                  decode: Bytes -> Option<V>, i: nat)
    requires Fits(cfg) && |k| < CK.TWO32 && WellFormed(data, prefix) && IsWindowScan(cfg, data, prefix, k, ts, raws)
    requires i < |raws| && decode(raws[i].1).Some?
    ensures Decodes(raws[i].0)
    ensures var p: (Bytes, int) := (k, EntryKey(raws[i].0).1);
      p in Side(data, prefix, decode) && Side(data, prefix, decode)[p] == decode(raws[i].1).value
  {
    RawOfScan(cfg, data, prefix, k, ts, raws, i);
  }

  /** The scan's callback; a value that does not decode stops it with an error. */
  method JoinEach<V, W>(raws: seq<(Bytes, Bytes)>, decode: Bytes -> Option<V>, join: V -> W)
    returns (ok: bool, out: seq<W>)
    ensures ok == ValuesDecode(decode, raws)
    ensures |out| <= |raws| && forall j :: 0 <= j < |out| ==>
            decode(raws[j].1).Some? && out[j] == join(decode(raws[j].1).value)
    ensures if ok then |out| == |raws| else |out| < |raws| && decode(raws[|out|].1).None?
  {
    out := [];
    for i := 0 to |raws|
      invariant |out| == i && forall j :: 0 <= j < i ==>
                decode(raws[j].1).Some? && out[j] == join(decode(raws[j].1).value)
    {
      var d := decode(raws[i].1);
      if d.None? { return false, out; }
      out := out + [join(d.value)];
    }
    ok := true;
  }

  /** The two branches of a step, spelled out. */
  lemma StepOf<V1, V2, W>(cfg: T.Config, joiner: (V1, V2) -> W, t: T.Task<Bytes, V1, V2>, e: T.Event<Bytes, V1, V2>)
    requires !e.Sweep?
    ensures var t', out, time := T.Process(cfg, t, e), T.Emits(cfg, joiner, t, e), Max(t.streamTime, e.ts);
      if e.ts < time - cfg.before - cfg.after - cfg.grace then t' == T.Task(time, t.left, t.right) && out == []
      else if e.L? then
        && t' == T.Task(time, t.left[(e.key, e.ts) := e.v1], t.right)
        && out == T.Scan(cfg, t.right, e.key, e.ts, T.WithLeft(joiner, e.v1))
      else
        && t' == T.Task(time, t.left, t.right[(e.key, e.ts) := e.v2])
        && out == T.Scan(cfg, t.left, e.key, e.ts, T.WithRight(joiner, e.v2))
  {
  }

  lemma SweptSide<V>(cfg: T.Config, decode: Bytes -> Option<V>, view: Entries, view': Entries, time: int)
    requires IsSwept(view, view', time - cfg.Retention())
    ensures TableOf(decode, view') == T.SweepStore(cfg, TableOf(decode, view), time)
    ensures AllReadable(decode, view) ==> AllReadable(decode, view')
  {
    SweptReadable(decode, view, view', time - cfg.Retention());
  }

  lemma AllPartnersReadable<A>(cfg: T.Config, decode: Bytes -> Option<A>, data: Contents, prefix: Bytes, k: Bytes,
                               ts: CK.Int64)
    requires AllReadable(decode, View(data, prefix))
    ensures PartnersReadable(cfg, decode, data, prefix, k, ts)
  {
    forall t: CK.Int64 | (k, t) in View(data, prefix) && T.InWindow(cfg, ts, t)
      ensures decode(View(data, prefix)[(k, t)]).Some?
    {
      assert Readable(decode, View(data, prefix), (k, t));
    }
  }

  class JoinProcessor<V1(!new), V2(!new), W> {
    const cfg: T.Config
    const joiner: (V1, V2) -> W
    const encode1: V1 -> Bytes
    const decode1: Bytes -> Option<V1>
    const encode2: V2 -> Bytes
    const decode2: Bytes -> Option<V2>
    const leftName: Bytes
    const rightName: Bytes
    const left: KeyValueStore
    const right: KeyValueStore
    var streamTime: int

    constructor (cfg: T.Config, joiner: (V1, V2) -> W, encode1: V1 -> Bytes, decode1: Bytes -> Option<V1>,
                 encode2: V2 -> Bytes, decode2: Bytes -> Option<V2>, leftName: Bytes, rightName: Bytes,
                 left: KeyValueStore, right: KeyValueStore)
      ensures this.cfg == cfg && this.joiner == joiner && this.left == left && this.right == right
      ensures this.encode1 == encode1 && this.decode1 == decode1 && this.encode2 == encode2 && this.decode2 == decode2
      ensures this.leftName == leftName && this.rightName == rightName && streamTime == 0
    {
      this.cfg, this.joiner, this.left, this.right := cfg, joiner, left, right;
      this.encode1, this.decode1, this.encode2, this.decode2 := encode1, decode1, encode2, decode2;
      this.leftName, this.rightName, streamTime := leftName, rightName, 0;
    }

    /** Two differently named stores of one database, each holding windowed entries only. */
    ghost predicate Valid()
      reads left, right, left.db
    {
      && Fits(cfg) && RoundTrips(encode1, decode1) && RoundTrips(encode2, decode2)
      && left != right && left.db == right.db && CK.ValidName(leftName) && CK.ValidName(rightName)
         && leftName != rightName
      && left.prefix == CK.StorePrefix(leftName) && right.prefix == CK.StorePrefix(rightName)
      && WellFormed(left.db.data, left.prefix) && WellFormed(left.db.data, right.prefix)
    }

    predicate Open()
      reads left, right, left.db, right.db
    {
      left.Open() && right.Open()
    }

    ghost function State(): T.Task<Bytes, V1, V2>
      reads this, left, right, left.db, right.db
    {
      T.Task(streamTime, Side(left.db.data, left.prefix, decode1), Side(right.db.data, right.prefix, decode2))
    }

    /** Everything stored on either side decodes. */
    ghost predicate Readable()
      reads left, right, left.db, right.db
    {
      AllReadable(decode1, left.Windows()) && AllReadable(decode2, right.Windows())
    }

    /** A left record at `(k, ts)` can be joined: both stores are open, and its partners decode. */
    ghost predicate CanJoinLeft(k: Bytes, ts: CK.Int64)
      reads left, right, left.db, right.db
    {
      Open() && PartnersReadable(cfg, decode2, right.db.data, right.prefix, k, ts)
    }

    ghost predicate CanJoinRight(k: Bytes, ts: CK.Int64)
      reads left, right, left.db, right.db
    {
      Open() && PartnersReadable(cfg, decode1, left.db.data, left.prefix, k, ts)
    }

    /** Buffers an encoded record. */
    method Buffer(store: KeyValueStore, k: Bytes, ts: CK.Int64, bytes: Bytes) returns (ok: bool)
      modifies store`mutations, store.db`data
      ensures ok == old(store.Open())
      ensures store.db.data == if ok then old(store.db.data)[RawKey(store.prefix, k,
                                                                    ts) := bytes] else old(store.db.data)
    {
      ok := store.WindowPut(k, ts, bytes);
    }

    /** Scans the other store and joins each partner found, up to one whose value does not decode. */
    method Probe<V>(store: KeyValueStore, k: Bytes, ts: CK.Int64, decode: Bytes -> Option<V>, join: V -> W)
      returns (ok: bool, out: seq<W>)
      requires Fits(cfg) && |k| < CK.TWO32 && WellFormed(store.db.data, store.prefix)
      ensures ok == (store.Open() && PartnersReadable(cfg, decode, store.db.data, store.prefix, k, ts))
      ensures ok ==> SameValues(out, T.Scan(cfg, Side(store.db.data, store.prefix, decode), k, ts, join))
    {
      var raws;
      var bounds := Bounds(cfg, k, ts);
      ok, raws := store.RangeCompositeBytes(bounds.0, bounds.1);
      if !ok { return false, []; }
      DecodeIffReadable(cfg, store.db.data, store.prefix, k, ts, raws, decode);
      ok, out := JoinEach(raws, decode, join);
      if ok {
        ScanEmits(cfg, store.db.data, store.prefix, k, ts, raws, decode, join);
        assert out == seq(|raws|, i requires 0 <= i < |raws| => join(decode(raws[i].1).value));
      }
    }

    /** The record is buffered on the left and joined with the partners found on the right. */
    method AcceptLeft(k: Bytes, v: V1, ts: CK.Int64) returns (ok: bool, out: seq<W>)
      requires Valid() && |k| < CK.TWO32
      modifies left`mutations, left.db`data
      ensures Valid() && Open() == old(Open())
      ensures ok == old(CanJoinLeft(k, ts))
      ensures old(Readable()) ==> Readable()
      ensures right.Windows() == old(right.Windows())
      ensures Side(left.db.data, left.prefix, decode1)
           == if old(left.Open()) then old(Side(left.db.data, left.prefix, decode1))[(k,
               ts) := v] else old(Side(left.db.data, left.prefix, decode1))
      ensures ok ==>
              SameValues(out, T.Scan(cfg, old(Side(left.db.data, right.prefix, decode2)), k, ts, T.WithLeft(joiner, v)))
    {
      var bytes := encode1(v);
      ghost var data := left.db.data;
      ok := Buffer(left, k, ts, bytes);
      assert Open() == old(Open()) && right.Open() == old(right.Open());
      if !ok { return false, []; }
      BufferedOwn(data, left.prefix, k, ts, bytes, decode1);
      BufferedOther(data, leftName, rightName, k, ts, bytes);
      ok, out := Probe(right, k, ts, decode2, T.WithLeft(joiner, v));
    }

    /** The left processor: late records only advance the clock; any other record is buffered, even if a partner
        found afterwards cannot be decoded. */
    method ProcessLeft(k: Bytes, v: V1, ts: CK.Int64) returns (ok: bool, out: seq<W>)
      requires Valid() && |k| < CK.TWO32
      modifies this`streamTime, left`mutations, left.db`data
      ensures Valid() && streamTime == Max(old(streamTime), ts) && Open() == old(Open())
      ensures ok == (T.Late(cfg, old(streamTime), ts) || old(CanJoinLeft(k, ts)))
      ensures old(left.Open()) ==> State() == T.Process(cfg, old(State()), T.L(k, ts, v))
      ensures ok ==> SameValues(out, T.Emits(cfg, joiner, old(State()), T.L(k, ts, v)))
      ensures old(Readable()) ==> Readable()
    {
      ghost var t, open, ready := State(), left.Open(), CanJoinLeft(k, ts);
      streamTime := if ts > streamTime then ts else streamTime;
      assert left.Open() == open && CanJoinLeft(k, ts) == ready && Readable() == old(Readable())
          && Open() == old(Open());
      assert Valid() && State() == T.Task(Max(t.streamTime, ts), t.left, t.right);
      StepOf(cfg, joiner, t, T.L(k, ts, v));
      if ts < streamTime - cfg.Retention() { return true, []; }
      ok, out := AcceptLeft(k, v, ts);
      assert open ==> State() == T.Process(cfg, t, T.L(k, ts, v));
      assert ok == ready;
    }

    method AcceptRight(k: Bytes, v: V2, ts: CK.Int64) returns (ok: bool, out: seq<W>)
      requires Valid() && |k| < CK.TWO32
      modifies right`mutations, right.db`data
      ensures Valid() && Open() == old(Open())
      ensures ok == old(CanJoinRight(k, ts))
      ensures old(Readable()) ==> Readable()
      ensures left.Windows() == old(left.Windows())
      ensures Side(left.db.data, right.prefix, decode2)
           == if old(right.Open()) then old(Side(left.db.data, right.prefix, decode2))[(k,
               ts) := v] else old(Side(left.db.data, right.prefix, decode2))
      ensures ok ==>
              SameValues(out, T.Scan(cfg, old(Side(left.db.data, left.prefix, decode1)), k, ts, T.WithRight(joiner, v)))
    {
      var bytes := encode2(v);
      ghost var data := left.db.data;
      ok := Buffer(right, k, ts, bytes);
      assert Open() == old(Open()) && left.Open() == old(left.Open());
      if !ok { return false, []; }
      BufferedOwn(data, right.prefix, k, ts, bytes, decode2);
      BufferedOther(data, rightName, leftName, k, ts, bytes);
      ok, out := Probe(left, k, ts, decode1, T.WithRight(joiner, v));
    }

    /** The right processor; the left value stays the first argument of the joiner. */
    method ProcessRight(k: Bytes, v: V2, ts: CK.Int64) returns (ok: bool, out: seq<W>)
      requires Valid() && |k| < CK.TWO32
      modifies this`streamTime, right`mutations, right.db`data
      ensures Valid() && streamTime == Max(old(streamTime), ts) && Open() == old(Open())
      ensures ok == (T.Late(cfg, old(streamTime), ts) || old(CanJoinRight(k, ts)))
      ensures old(right.Open()) ==> State() == T.Process(cfg, old(State()), T.R(k, ts, v))
      ensures ok ==> SameValues(out, T.Emits(cfg, joiner, old(State()), T.R(k, ts, v)))
      ensures old(Readable()) ==> Readable()
    {
      ghost var t, open, ready := State(), right.Open(), CanJoinRight(k, ts);
      streamTime := if ts > streamTime then ts else streamTime;
      assert right.Open() == open && CanJoinRight(k, ts) == ready && Readable() == old(Readable())
          && Open() == old(Open());
      assert Valid() && State() == T.Task(Max(t.streamTime, ts), t.left, t.right);
      StepOf(cfg, joiner, t, T.R(k, ts, v));
      if ts < streamTime - cfg.Retention() { return true, []; }
      ok, out := AcceptRight(k, v, ts);
      assert open ==> State() == T.Process(cfg, t, T.R(k, ts, v));
      assert ok == ready;
    }

    /** `sweepWindowStore` on one of the stores; the other one keeps all its entries. */
    method SweepSide(store: KeyValueStore, ghost name: Bytes, ghost other: Bytes, time: int) returns (ok: bool)
      requires CK.ValidName(name) && CK.ValidName(other) && name != other && store.prefix == CK.StorePrefix(name)
      modifies store`mutations, store.db`data
      ensures ok == (old(store.Open()) || time - cfg.Retention() <= 0)
      ensures ok ==> IsSwept(old(store.Windows()), store.Windows(), time - cfg.Retention())
      ensures !ok ==> store.db.data == old(store.db.data)
      ensures old(WellFormed(store.db.data, store.prefix)) ==> WellFormed(store.db.data, store.prefix)
      ensures View(store.db.data, CK.StorePrefix(other)) == old(View(store.db.data, CK.StorePrefix(other)))
      ensures old(WellFormed(store.db.data, CK.StorePrefix(other))) ==> WellFormed(store.db.data, CK.StorePrefix(other))
    {
      var count;
      ok, count := SweepWindowStore(store, cfg.Retention(), time);
      OtherStoreUntouched(name, other, old(store.db.data), store.db.data);
    }

    /** The retention sweep of both stores. */
    method Sweep() returns (ok: bool)
      requires Valid()
      modifies left`mutations, right`mutations, left.db`data
      ensures Valid() && Open() == old(Open())
      ensures ok == (old(Open()) || streamTime - cfg.before - cfg.after - cfg.grace <= 0)
      ensures ok ==> State() == T.Process(cfg, old(State()), T.Sweep)
      ensures ok && old(Readable()) ==> Readable()
    {
      assert Open() == (left.Open() && right.Open());
      assert right.db == left.db;
      ok := SweepLeft();
      if ok { ok := SweepRight(); }
    }

    method SweepLeft() returns (ok: bool)
      requires Valid()
      modifies left`mutations, left.db`data
      ensures Valid() && Open() == old(Open()) && right.Open() == old(right.Open())
      ensures ok == (old(left.Open()) || streamTime - cfg.Retention() <= 0)
      ensures ok ==> State() == old(State()).(left := T.SweepStore(cfg, old(State()).left, streamTime))
      ensures ok && old(Readable()) ==> Readable()
    {
      ghost var l := left.Windows();
      ok := SweepSide(left, leftName, rightName, streamTime);
      assert Open() == old(Open()) && right.Open() == old(right.Open()) && right.Windows() == old(right.Windows());
      if ok { SweptSide(cfg, decode1, l, left.Windows(), streamTime); }
    }

    method SweepRight() returns (ok: bool)
      requires Valid()
      modifies right`mutations, right.db`data
      ensures Valid() && Open() == old(Open())
      ensures ok == (old(right.Open()) || streamTime - cfg.Retention() <= 0)
      ensures ok ==> State() == old(State()).(right := T.SweepStore(cfg, old(State()).right, streamTime))
      ensures ok && old(Readable()) ==> Readable()
    {
      ghost var r := right.Windows();
      ok := SweepSide(right, rightName, leftName, streamTime);
      assert Open() == old(Open()) && left.Windows() == old(left.Windows());
      if ok { SweptSide(cfg, decode2, r, right.Windows(), streamTime); }
    }

    /** One event; an arrival hands over what it forwards. */
    method Handle(e: T.Event<Bytes, V1, V2>) returns (out: seq<W>)
      requires Valid() && Open() && Readable() && Bufferable(e)
      modifies this`streamTime, left`mutations, right`mutations, left.db`data
      ensures Valid() && Open() && Readable()
      ensures State() == T.Process(cfg, old(State()), e)
      ensures SameValues(out, T.Emits(cfg, joiner, old(State()), e))
    {
      match e
      case Sweep =>
        out := [];
        var ok := Sweep();
      case L(k, ts, v) => out := HandleLeft(k, v, ts);
      case R(k, ts, v) => out := HandleRight(k, v, ts);
    }

    method HandleLeft(k: Bytes, v: V1, ts: CK.Int64) returns (out: seq<W>)
      requires Valid() && Open() && Readable() && |k| < CK.TWO32
      modifies this`streamTime, left`mutations, left.db`data
      ensures Valid() && Open() && Readable()
      ensures State() == T.Process(cfg, old(State()), T.L(k, ts, v))
      ensures SameValues(out, T.Emits(cfg, joiner, old(State()), T.L(k, ts, v)))
    {
      AllPartnersReadable(cfg, decode2, right.db.data, right.prefix, k, ts);
      assert CanJoinLeft(k, ts);
      var ok;
      ok, out := ProcessLeft(k, v, ts);
    }

    method HandleRight(k: Bytes, v: V2, ts: CK.Int64) returns (out: seq<W>)
      requires Valid() && Open() && Readable() && |k| < CK.TWO32
      modifies this`streamTime, right`mutations, right.db`data
      ensures Valid() && Open() && Readable()
      ensures State() == T.Process(cfg, old(State()), T.R(k, ts, v))
      ensures SameValues(out, T.Emits(cfg, joiner, old(State()), T.R(k, ts, v)))
    {
      AllPartnersReadable(cfg, decode1, left.db.data, left.prefix, k, ts);
      assert CanJoinRight(k, ts);
      var ok;
      ok, out := ProcessRight(k, v, ts);
    }

    /** A whole run on the byte stores, sweeps included, from empty stores: the stores end with what the model's
        run ends with, and every arrival forwards what the model's arrival forwards. */
    method Run(events: seq<T.Event<Bytes, V1, V2>>) returns (outs: seq<seq<W>>)
      requires Valid() && Open() && left.Windows() == map[] && right.Windows() == map[]
      requires forall i :: 0 <= i < |events| ==> Bufferable(events[i])
      modifies this`streamTime, left`mutations, right`mutations, left.db`data
      ensures State() == T.Run(cfg, old(streamTime), events)
      ensures SameOutputs(outs, Emissions(cfg, joiner, old(streamTime), events))
    {
      ghost var time, emitted := streamTime, [];
      outs := [];
      EmptySides();
      assert events[..0] == [];
      for i := 0 to |events|
        invariant Valid() && Open() && Readable() && State() == T.Run(cfg, time, events[..i])
        invariant emitted == Emissions(cfg, joiner, time, events[..i]) && SameOutputs(outs, emitted)
      {
        RunNext(cfg, joiner, time, events, i);
        ghost var t := State();
        var out := Handle(events[i]);
        OneMore(outs, emitted, out, T.Emits(cfg, joiner, t, events[i]));
        outs, emitted := outs + [out], emitted + [T.Emits(cfg, joiner, t, events[i])];
      }
      assert events[..|events|] == events;
    }

    lemma EmptySides()
      requires left.Windows() == map[] && right.Windows() == map[]
      ensures Readable() && State() == T.Task(streamTime, map[], map[])
    {
    }
  }

  /** What each event of a run forwards. */
  ghost function Emissions<V1, V2, W>(cfg: T.Config, joiner: (V1, V2) -> W, time: int,
                                      events: seq<T.Event<Bytes, V1, V2>>): seq<seq<T.Emission<W>>> {
    if events == [] then []
    else
      var init, e := events[..|events| - 1], events[|events| - 1];
      Emissions(cfg, joiner, time, init) + [T.Emits(cfg, joiner, T.Run(cfg, time, init), e)]
  }

  ghost predicate SameOutputs<W>(outs: seq<seq<W>>, emitted: seq<seq<T.Emission<W>>>) {
    |outs| == |emitted| && forall i :: 0 <= i < |outs| ==> SameValues(outs[i], emitted[i])
  }

  lemma OneMore<W>(outs: seq<seq<W>>, emitted: seq<seq<T.Emission<W>>>, out: seq<W>, e: seq<T.Emission<W>>)
    requires SameOutputs(outs, emitted) && SameValues(out, e)
    ensures SameOutputs(outs + [out], emitted + [e])
  {
  }

  lemma RunNext<V1, V2, W>(cfg: T.Config, joiner: (V1, V2) -> W, time: int, events: seq<T.Event<Bytes, V1, V2>>, i: nat)
    requires i < |events|
    ensures var t := T.Run(cfg, time, events[..i]);
      && T.Run(cfg, time, events[..i + 1]) == T.Process(cfg, t, events[i])
      && Emissions(cfg, joiner, time, events[..i + 1])
         == Emissions(cfg, joiner, time, events[..i]) + [T.Emits(cfg, joiner, t, events[i])]
  {
    assert events[..i + 1][..i] == events[..i];
  }

  /** An event the model covers: a key whose length fits and an int64 timestamp. */
  predicate Bufferable<V1, V2>(e: T.Event<Bytes, V1, V2>) {
    !e.Sweep? ==> |e.key| < CK.TWO32 && -CK.TWO63 <= e.ts < CK.TWO63
  }
}
