/** The composite window key and the byte ranges built from it: internal/winkey,
    stores/pebble/window_key.go, the two `prefixUpperBound` loops and the join's scan bounds. */
module CompositeKey {
  import opened Wrappers
  import opened ByteOrder

  const TWO32: int := 0x1_0000_0000
  const TWO63: int := 0x8000_0000_0000_0000
  const TWO64: int := 0x1_0000_0000_0000_0000
  const MAX_INT64: Int64 := TWO63 - 1

  type Int64 = x: int | -0x8000_0000_0000_0000 <= x < 0x8000_0000_0000_0000

  /** `x + 1` in int64 arithmetic: MaxInt64 wraps to MinInt64. */
  function Next(x: Int64): Int64 {
    if x == MAX_INT64 then -TWO63 else x + 1
  }

  /** The conversion `uint64(x)`. */
  function Unsigned(x: Int64): (u: nat)
    ensures u < TWO64
  {
    if x < 0 then x + TWO64 else x
  }

  /** The conversion `int64(u)`. */
  function Signed(u: nat): Int64
    requires u < TWO64
  {
    if u < TWO63 then u else u - TWO64
  }

  lemma Widths()
    ensures Pow256(4) == TWO32 && Pow256(8) == TWO64
  {
    assert Pow256(1) == 256 && Pow256(2) == 256 * 256 && Pow256(3) == 256 * 256 * 256;
    assert Pow256(5) == 256 * Pow256(4) && Pow256(6) == 256 * Pow256(5) && Pow256(7) == 256 * Pow256(6);
  }

  /** `uint32(len(k))` big-endian: the cast drops the high bits. */
  function LengthPrefix(k: Bytes): (p: Bytes)
    ensures |p| == 4
  {
    Widths();
    BigEndian(|k| % TWO32, 4)
  }

  function Start8(start: Int64): (p: Bytes)
    ensures |p| == 8
  {
    Widths();
    BigEndian(Unsigned(start), 8)
  }

  /** `winkey.CompositeKey`. */
  function Encode(k: Bytes, start: Int64): Bytes {
    LengthPrefix(k) + k + Start8(start)
  }

  datatype Decoded = Malformed | Key(k: Bytes, start: Int64)

  /** `DecodeWindowCompositeKey` of stores/pebble: guards on four bytes, then on the exact length. */
  function DecodePebble(raw: Bytes): Decoded {
    if |raw| < 4 then Malformed else
    var n := BigEndianValue(raw[..4]);
    if |raw| != 4 + n + 8 then Malformed else
    Widths();
    Key(raw[4..4 + n], Signed(BigEndianValue(raw[4 + n..])))
  }

  /** `decodeCompositeKey` of stores/memory and `decodeWindowCompositeKey` of the runtime. */
  function DecodeMemory(raw: Bytes): Decoded {
    if |raw| < 12 then Malformed else
    var n := BigEndianValue(raw[..4]);
    if |raw| != 4 + n + 8 then Malformed else
    Widths();
    Key(raw[4..4 + n], Signed(BigEndianValue(raw[4 + n..])))
  }

  lemma DecodersAgree(raw: Bytes)
    ensures DecodePebble(raw) == DecodeMemory(raw)
  {
  }

  lemma LengthPrefixValue(k: Bytes)
    ensures BigEndianValue(LengthPrefix(k)) == |k| % TWO32
  {
    Widths();
    ValueOfBigEndian(|k| % TWO32, 4);
  }

  lemma Start8Value(start: Int64)
    ensures Signed(BigEndianValue(Start8(start))) == start
  {
    Widths();
    ValueOfBigEndian(Unsigned(start), 8);
  }

  /** Decoding undoes encoding exactly for the keys whose length fits the four-byte prefix. */
  lemma DecodeOfEncode(k: Bytes, start: Int64)
    ensures DecodeMemory(Encode(k, start)) == Key(k, start) <==> |k| < TWO32
  {
    var raw := Encode(k, start);
    assert raw[..4] == LengthPrefix(k);
    LengthPrefixValue(k);
    if |k| < TWO32 {
      assert raw[4..4 + |k|] == k && raw[4 + |k|..] == Start8(start);
      Start8Value(start);
    }
  }

  lemma EncodeOfDecode(raw: Bytes)
    requires DecodeMemory(raw).Key?
    ensures var d := DecodeMemory(raw); |d.k| < TWO32 && Encode(d.k, d.start) == raw
  {
    Widths();
    var n := BigEndianValue(raw[..4]);
    var d := DecodeMemory(raw);
    BigEndianOfValue(raw[..4]);
    BigEndianOfValue(raw[4 + n..]);
    assert LengthPrefix(d.k) == raw[..4] && Start8(d.start) == raw[4 + n..];
    assert raw == raw[..4] + raw[4..4 + n] + raw[4 + n..];
  }

  lemma EncodeInjective(k: Bytes, s: Int64, k': Bytes, s': Int64)
    requires |k| < TWO32 && |k'| < TWO32
    requires Encode(k, s) == Encode(k', s')
    ensures k == k' && s == s'
  {
    DecodeOfEncode(k, s);
    DecodeOfEncode(k', s');
  }

  /** Entries of one key sort by the unsigned reading of their start. */
  lemma EncodeOrder(k: Bytes, a: Int64, b: Int64)
    ensures Less(Encode(k, a), Encode(k, b)) <==> Unsigned(a) < Unsigned(b)
  {
    Widths();
    LessUnderPrefix(LengthPrefix(k) + k, Start8(a), Start8(b));
    BigEndianOrder(Unsigned(a), Unsigned(b), 8);
  }

  // prefixUpperBound

  /** The least string above every string that starts with `p`; none when `p` is all 0xff. */
  function PrefixUpperBound(p: Bytes): Option<Bytes> {
    if p == [] then None
    else if p[|p| - 1] < 255 then Some(p[..|p| - 1] + [p[|p| - 1] + 1])
    else PrefixUpperBound(p[..|p| - 1])
  }

  /** stores/memory: looks for the last byte that is not 0xff and increments it. */
  method PrefixUpperBoundMemory(prefix: Bytes) returns (r: Option<Bytes>)
    ensures r == PrefixUpperBound(prefix)
  {
    var upper := new Byte[|prefix|](i requires 0 <= i < |prefix| => prefix[i]);
    var index := |prefix| - 1;
    assert prefix[..|prefix|] == prefix;
    while index >= 0
      invariant -1 <= index < |prefix|
      invariant upper[..] == prefix
      invariant PrefixUpperBound(prefix) == PrefixUpperBound(prefix[..index + 1])
    {
      if upper[index] != 0xff {
        upper[index] := upper[index] + 1;
        assert upper[..index + 1] == prefix[..index] + [prefix[index] + 1];
        assert prefix[..index + 1][..index] == prefix[..index];
        return Some(upper[..index + 1]);
      }
      assert prefix[..index + 1][..index] == prefix[..index];
      index := index - 1;
    }
    return None;
  }

  /** stores/pebble: increments with byte overflow and stops at the first byte that did not wrap. */
  method PrefixUpperBoundPebble(prefix: Bytes) returns (r: Option<Bytes>)
    ensures r == PrefixUpperBound(prefix)
  {
    var ub := new Byte[|prefix|](i requires 0 <= i < |prefix| => prefix[i]);
    var i := |prefix| - 1;
    assert prefix[..|prefix|] == prefix;
    while i >= 0
      invariant -1 <= i < |prefix|
      invariant ub[..i + 1] == prefix[..i + 1]
      invariant PrefixUpperBound(prefix) == PrefixUpperBound(prefix[..i + 1])
    {
      assert ub[i] == ub[..i + 1][i] == prefix[i];
      ub[i] := if ub[i] == 0xff then 0 else ub[i] + 1;
      assert prefix[..i + 1][..i] == prefix[..i];
      assert ub[..i] == prefix[..i] by {
        assert forall j | 0 <= j < i :: ub[j] == prefix[..i + 1][j];
      }
      if ub[i] != 0 {
        assert ub[..i + 1] == ub[..i] + [ub[i]];
        return Some(ub[..i + 1]);
      }
      i := i - 1;
    }
    return None;
  }

  lemma {:induction false} LessExtends(x: Bytes, p: Bytes, z: Bytes)
    requires Less(x, p)
    ensures Less(x, p + z)
  {
    if x != [] && x[0] == p[0] {
      assert (p + z)[1..] == p[1..] + z;
      LessExtends(x[1..], p[1..], z);
    }
  }

  lemma {:induction false} PrefixNotAbove(p: Bytes, x: Bytes)
    requires p <= x
    ensures !Less(x, p)
  {
    if p != [] { PrefixNotAbove(p[1..], x[1..]); }
  }

  /** The range `[p, PrefixUpperBound(p))` holds exactly the strings that start with `p`. */
  lemma {:induction false} PrefixRange(p: Bytes, x: Bytes)
    ensures p <= x <==> !Less(x, p) && (PrefixUpperBound(p).None? || Less(x, PrefixUpperBound(p).value))
  {
    if p != [] {
      var q, c := p[..|p| - 1], p[|p| - 1];
      assert p == q + [c];
      if p <= x {
        PrefixNotAbove(p, x);
        if c < 255 {
          assert x == q + x[|q|..];
          LessUnderPrefix(q, x[|q|..], [c + 1]);
        } else {
          PrefixRange(q, x);
        }
      } else if !Less(x, p) {
        if c < 255 && Less(x, q + [c + 1]) {
          BetweenSharesPrefix(q, [c], [c + 1], x);
          assert x == q + x[|q|..];
          LessUnderPrefix(q, x[|q|..], [c + 1]);
          SharedPrefixDecides(q, c, x);
        } else if c == 255 {
          if Less(x, q) { LessExtends(x, q, [c]); }
          PrefixRange(q, x);
          if q <= x { SharedPrefixDecides(q, c, x); }
        }
      }
    }
  }

  lemma SharedPrefixDecides(q: Bytes, c: Byte, x: Bytes)
    requires q <= x && !Less(x, q + [c])
    ensures |x| > |q| && x[|q|] >= c
    ensures x[|q|] == c ==> q + [c] <= x
  {
    StripPrefix(q, c, x);
    FirstByteDecides(c, x[|q|..]);
    if x[|q|] == c { PrefixSnoc(q, c, x); }
  }

  lemma StripPrefix(q: Bytes, c: Byte, x: Bytes)
    requires q <= x && !Less(x, q + [c])
    ensures !Less(x[|q|..], [c])
  {
    var z := x[|q|..];
    LessUnderPrefix(q, z, [c]);
    assert q + z == x;
  }

  lemma PrefixSnoc(q: Bytes, c: Byte, x: Bytes)
    requires q <= x && |x| > |q| && x[|q|] == c
    ensures q + [c] <= x
  {
  }

  lemma FirstByteDecides(c: Byte, z: Bytes)
    requires !Less(z, [c])
    ensures z != [] && z[0] >= c
  {
  }

  /** There is no upper bound exactly for the strings of 0xff bytes. */
  lemma {:induction false} NoUpperBound(p: Bytes)
    ensures PrefixUpperBound(p).None? <==> Ones(p)
  {
    if p != [] {
      NoUpperBound(p[..|p| - 1]);
      assert forall i :: 0 <= i < |p| - 1 ==> p[..|p| - 1][i] == p[i];
    }
  }

  // Ranges over composite keys.

  /** A stored key under `prefix` lies in `[prefix + Encode(k, lo), prefix + Encode(k, hi))` exactly
      when it is an entry of `k` whose start, read unsigned, is in `[lo, hi)`. */
  lemma KeyRange(prefix: Bytes, k: Bytes, lo: Int64, hi: Int64, k': Bytes, s: Int64)
    requires |k| < TWO32 && |k'| < TWO32
    ensures InRange(prefix + Encode(k', s), prefix + Encode(k, lo), prefix + Encode(k, hi))
       <==> k' == k && Unsigned(lo) <= Unsigned(s) < Unsigned(hi)
  {
    LessUnderPrefix(prefix, Encode(k', s), Encode(k, lo));
    LessUnderPrefix(prefix, Encode(k', s), Encode(k, hi));
    if k' == k {
      EncodeOrder(k, s, lo);
      EncodeOrder(k, s, hi);
    } else if InRange(Encode(k', s), Encode(k, lo), Encode(k, hi)) {
      BetweenSharesPrefix(LengthPrefix(k) + k, Start8(lo), Start8(hi), Encode(k', s));
      SamePrefixSameKey(k, k', s);
    }
  }

  lemma SamePrefixSameKey(k: Bytes, k': Bytes, s: Int64)
    requires |k| < TWO32 && |k'| < TWO32
    requires LengthPrefix(k) + k <= Encode(k', s)
    ensures k == k'
  {
    var p, x := LengthPrefix(k) + k, Encode(k', s);
    assert p[..4] == LengthPrefix(k) && x[..4] == LengthPrefix(k');
    assert x[..4] == p[..4];
    LengthPrefixValue(k);
    LengthPrefixValue(k');
    assert p[4..] == k && x[4..4 + |k'|] == k';
    assert x[..|p|] == p;
    assert x[4..|p|] == p[4..];
  }

  /** The bytes `RangeForKey` hands to `RangeCompositeBytes`: a missing upper bound becomes the
      empty string. */
  function KeyLower(k: Bytes): Bytes { Encode(k, 0) }

  function KeyUpper(k: Bytes): Bytes {
    var ub := PrefixUpperBound(LengthPrefix(k) + k);
    if ub.Some? then ub.value else []
  }

  /** The one key for which `RangeForKey` has no upper bound. */
  predicate AllOnes(k: Bytes) {
    |k| == TWO32 - 1 && Ones(k)
  }

  lemma UpperBoundMissing(k: Bytes)
    requires |k| < TWO32
    ensures PrefixUpperBound(LengthPrefix(k) + k).None? <==> AllOnes(k)
  {
    NoUpperBound(LengthPrefix(k) + k);
    LengthPrefixOnes(k);
    OnesConcat(LengthPrefix(k), k);
  }

  predicate Ones(p: Bytes) {
    forall i :: 0 <= i < |p| ==> p[i] == 255
  }

  lemma OnesConcat(a: Bytes, b: Bytes)
    ensures Ones(a + b) <==> Ones(a) && Ones(b)
  {
    if Ones(a + b) {
      assert forall i :: 0 <= i < |a| ==> a[i] == (a + b)[i];
      assert forall i :: 0 <= i < |b| ==> b[i] == (a + b)[|a| + i];
    }
  }

  lemma LengthPrefixOnes(k: Bytes)
    requires |k| < TWO32
    ensures Ones(LengthPrefix(k)) <==> |k| == TWO32 - 1
  {
    var ones: Bytes := [255, 255, 255, 255];
    FourOnes();
    LengthPrefixValue(k);
    BigEndianOfValue(ones);
    BigEndianOfValue(LengthPrefix(k));
    assert LengthPrefix(k) == ones <==> |k| == TWO32 - 1;
    assert Ones(LengthPrefix(k)) <==> LengthPrefix(k) == ones;
  }

  lemma FourOnes()
    ensures BigEndianValue([255, 255, 255, 255]) == TWO32 - 1
  {
    assert [255][..0] == [];
    assert BigEndianValue([255]) == 255;
    assert [255, 255][..1] == [255];
    assert BigEndianValue([255, 255]) == 256 * 255 + 255;
    assert [255, 255, 255][..2] == [255, 255];
    assert BigEndianValue([255, 255, 255]) == 256 * (256 * 255 + 255) + 255;
    assert [255, 255, 255, 255][..3] == [255, 255, 255];
  }

  /** `RangeForKey(k)` selects exactly the entries of `k`, whatever their start, and nothing else;
      for the one all-0xff key of maximal length it selects nothing. */
  lemma RangeForKeyExact(prefix: Bytes, k: Bytes, k': Bytes, s: Int64)
    requires |k| < TWO32 && |k'| < TWO32
    ensures InRange(prefix + Encode(k', s), prefix + KeyLower(k), prefix + KeyUpper(k))
       <==> k' == k && !AllOnes(k)
  {
    var p, x := LengthPrefix(k) + k, Encode(k', s);
    LessUnderPrefix(prefix, x, KeyLower(k));
    LessUnderPrefix(prefix, x, KeyUpper(k));
    UpperBoundMissing(k);
    if !AllOnes(k) {
      PrefixRange(p, x);
      if k' == k {
        assert x[..|p|] == p;
        EncodeOrder(k, s, 0);
      } else if InRange(x, KeyLower(k), KeyUpper(k)) {
        if Less(x, p) { LessExtends(x, p, Start8(0)); }
        SamePrefixSameKey(k, k', s);
      }
    }
  }

  // ssJoinScanBounds

  /** Lower bound of the join's look-back, `max(0, ts - before - grace)`. */
  function ScanLo(ts: Int64, before: Int64, grace: Int64): (lo: Int64)
    requires before >= 0 && grace >= 0 && before + grace < TWO63
    ensures lo >= 0
  {
    var sub := before + grace;
    if ts > sub then ts - sub else 0
  }

  /** Upper bound of the join's look-ahead, `ts + after` capped at MaxInt64. */
  function ScanHi(ts: Int64, after: Int64): Int64
    requires after >= 0
  {
    if after > 0 && ts > MAX_INT64 - after then MAX_INT64 else ts + after
  }

  /** `ssJoinScanBounds`; the exclusive upper start is `hi + 1` in wrapping int64 arithmetic. */
  function ScanBounds(k: Bytes, ts: Int64, before: Int64, after: Int64, grace: Int64): (Bytes, Bytes)
    requires before >= 0 && after >= 0 && grace >= 0 && before + grace < TWO63
  {
    (Encode(k, ScanLo(ts, before, grace)), Encode(k, Next(ScanHi(ts, after))))
  }

  /** What the scan selects among the starts of the key: `[lo, hi]`, also where `hi + 1` wraps to MinInt64. An
      upper end below -1 is a large number as unsigned, so the range runs over all non-negative starts. */
  predicate Scans(lo: Int64, hi: Int64, s: Int64) {
    if hi >= -1 then lo <= s <= hi else s >= lo || s <= hi
  }

  lemma UnsignedRange(lo: Int64, hi: Int64, s: Int64)
    requires lo >= 0
    ensures Unsigned(lo) <= Unsigned(s) < Unsigned(Next(hi)) <==> Scans(lo, hi, s)
  {
  }

  /** For every timestamp and every stored key of any key and any start, the join's byte range means "this key,
      and a start the scan selects". */
  lemma ScanBoundsExact(prefix: Bytes, k: Bytes, ts: Int64, before: Int64, after: Int64, grace: Int64,
                        k': Bytes, s: Int64)
    requires before >= 0 && after >= 0 && grace >= 0 && before + grace < TWO63
    requires |k| < TWO32 && |k'| < TWO32
    ensures InRange(prefix + Encode(k', s),
                    prefix + ScanBounds(k, ts, before, after, grace).0,
                    prefix + ScanBounds(k, ts, before, after, grace).1)
       <==> k' == k && Scans(ScanLo(ts, before, grace), ScanHi(ts, after), s)
  {
    KeyRange(prefix, k, ScanLo(ts, before, grace), Next(ScanHi(ts, after)), k', s);
    UnsignedRange(ScanLo(ts, before, grace), ScanHi(ts, after), s);
  }

  /** So the range means `[lo, hi]` for all stored starts if and only if the upper end is at least -1, which it
      is for every non-negative timestamp. */
  lemma ScanIsWindowIff(lo: Int64, hi: Int64)
    requires lo >= 0
    ensures (forall s: Int64 {:trigger Scans(lo, hi, s)} :: Scans(lo, hi, s) <==> lo <= s <= hi) <==> hi >= -1
  {
    if hi < -1 { assert Scans(lo, hi, lo); }
  }

  // Store prefixes.

  predicate ValidName(name: Bytes) {
    name != [] && 0 !in name
  }

  function StorePrefix(name: Bytes): Bytes { name + [0] }

  /** `"\x00__gstream_ckpt__\x00" + name` and `"\x00__gstream_streamtime__\x00"`: all that matters is
      the leading NUL. */
  predicate IsMetadataKey(key: Bytes) {
    key != [] && key[0] == 0
  }

  /** `Range` over a store selects exactly the keys the store itself wrote: none of another store's
      and none of the checkpoint or stream-time keys. */
  lemma StoreRangeIsolated(name: Bytes, key: Bytes)
    requires ValidName(name)
    ensures PrefixUpperBound(StorePrefix(name)) == Some(name + [1])
    ensures InRange(key, StorePrefix(name), name + [1]) <==> StorePrefix(name) <= key
    ensures InRange(key, StorePrefix(name), name + [1]) ==> !IsMetadataKey(key)
    ensures forall other, rest ::
              ValidName(other) && other != name && key == StorePrefix(other) + rest
              ==> !InRange(key, StorePrefix(name), name + [1])
  {
    var p := StorePrefix(name);
    assert p[..|p| - 1] == name;
    PrefixRange(p, key);
    if p <= key { assert key[0] == p[0] == name[0]; }
    forall other, rest | ValidName(other) && other != name && key == StorePrefix(other) + rest
      ensures !(p <= key)
    {
      if p <= key { PrefixesDiffer(name, other, key); }
    }
  }

  lemma PrefixesDiffer(a: Bytes, b: Bytes, key: Bytes)
    requires ValidName(a) && ValidName(b)
    requires StorePrefix(a) <= key && StorePrefix(b) <= key
    ensures a == b
  {
    var p, q := StorePrefix(a), StorePrefix(b);
    assert key[|a|] == p[|a|] == 0 && key[|b|] == q[|b|] == 0;
    assert |a| == |b|;
    assert a == p[..|a|] == key[..|a|] && b == q[..|b|] == key[..|b|];
  }
}
