/** Byte strings, their lexicographic order and big-endian integers: the vocabulary in which
    every store key of the repository is written. */
module ByteOrder {
  type Byte = x: int | 0 <= x < 256
  type Bytes = seq<Byte>

  /** `bytes.Compare(a, b) < 0`. */
  predicate Less(a: Bytes, b: Bytes) {
    |b| != 0 && (|a| == 0 || a[0] < b[0] || (a[0] == b[0] && Less(a[1..], b[1..])))
  }

  /** Membership in the half-open byte range `[lower, upper)`. */
  predicate InRange(key: Bytes, lower: Bytes, upper: Bytes) {
    !Less(key, lower) && Less(key, upper)
  }

  lemma {:induction false} LessIrreflexive(a: Bytes)
    ensures !Less(a, a)
  {
    if |a| != 0 { LessIrreflexive(a[1..]); }
  }

  lemma {:induction false} LessTransitive(a: Bytes, b: Bytes, c: Bytes)
    requires Less(a, b) && Less(b, c)
    ensures Less(a, c)
  {
    if |a| != 0 && a[0] == b[0] && b[0] == c[0] { LessTransitive(a[1..], b[1..], c[1..]); }
  }

  lemma {:induction false} LessTotal(a: Bytes, b: Bytes)
    ensures a == b || Less(a, b) || Less(b, a)
  {
    if |a| != 0 && |b| != 0 && a[0] == b[0] {
      LessTotal(a[1..], b[1..]);
      assert a == [a[0]] + a[1..] && b == [b[0]] + b[1..];
    }
  }

  /** A shared prefix does not affect the comparison. */
  lemma {:induction false} LessUnderPrefix(p: Bytes, a: Bytes, b: Bytes)
    ensures Less(p + a, p + b) <==> Less(a, b)
  {
    if p == [] {
      assert p + a == a && p + b == b;
    } else {
      assert (p + a)[1..] == p[1..] + a && (p + b)[1..] == p[1..] + b;
      LessUnderPrefix(p[1..], a, b);
    }
  }

  /** Everything that sorts between two strings with a common prefix carries that prefix. */
  lemma {:induction false} BetweenSharesPrefix(p: Bytes, a: Bytes, b: Bytes, x: Bytes)
    requires InRange(x, p + a, p + b)
    ensures p <= x
  {
    if p != [] {
      assert (p + a)[1..] == p[1..] + a && (p + b)[1..] == p[1..] + b;
      assert x != [];
      BetweenSharesPrefix(p[1..], a, b, x[1..]);
      assert x == [x[0]] + x[1..] && p == [p[0]] + p[1..];
    }
  }

  lemma {:induction false} LessSnoc(a: Bytes, b: Bytes, x: Byte, y: Byte)
    requires |a| == |b|
    ensures Less(a + [x], b + [y]) <==> Less(a, b) || (a == b && x < y)
  {
    if a == [] {
      assert a + [x] == [x] && b + [y] == [y];
    } else {
      assert (a + [x])[1..] == a[1..] + [x] && (b + [y])[1..] == b[1..] + [y];
      LessSnoc(a[1..], b[1..], x, y);
      assert a == [a[0]] + a[1..] && b == [b[0]] + b[1..];
    }
  }

  // Big-endian unsigned integers.

  function Pow256(n: nat): (r: nat)
    ensures r > 0
  {
    if n == 0 then 1 else 256 * Pow256(n - 1)
  }

  /** `binary.BigEndian.PutUint*`: `x` in exactly `n` bytes. */
  function BigEndian(x: nat, n: nat): (s: Bytes)
    requires x < Pow256(n)
    ensures |s| == n
  {
    if n == 0 then [] else BigEndian(x / 256, n - 1) + [x % 256]
  }

  /** `binary.BigEndian.Uint*`. */
  function BigEndianValue(s: Bytes): (x: nat)
    ensures x < Pow256(|s|)
  {
    if s == [] then 0 else 256 * BigEndianValue(s[..|s| - 1]) + s[|s| - 1]
  }

  lemma {:induction false} ValueOfBigEndian(x: nat, n: nat)
    requires x < Pow256(n)
    ensures BigEndianValue(BigEndian(x, n)) == x
  {
    if n != 0 {
      var s := BigEndian(x, n);
      assert s[..n - 1] == BigEndian(x / 256, n - 1);
      ValueOfBigEndian(x / 256, n - 1);
    }
  }

  lemma {:induction false} BigEndianOfValue(s: Bytes)
    ensures BigEndian(BigEndianValue(s), |s|) == s
  {
    if s != [] {
      BigEndianOfValue(s[..|s| - 1]);
      var h := BigEndianValue(s[..|s| - 1]);
      assert (256 * h + s[|s| - 1]) / 256 == h && (256 * h + s[|s| - 1]) % 256 == s[|s| - 1];
      assert s == s[..|s| - 1] + [s[|s| - 1]];
    }
  }

  /** On strings of one length the byte order is the numeric order of the encoded integers. */
  lemma {:induction false} LessIsNumeric(a: Bytes, b: Bytes)
    requires |a| == |b|
    ensures Less(a, b) <==> BigEndianValue(a) < BigEndianValue(b)
  {
    if a != [] {
      var a', b' := a[..|a| - 1], b[..|b| - 1];
      LessIsNumeric(a', b');
      LessSnoc(a', b', a[|a| - 1], b[|b| - 1]);
      assert a == a' + [a[|a| - 1]] && b == b' + [b[|b| - 1]];
      if BigEndianValue(a') == BigEndianValue(b') {
        BigEndianOfValue(a');
        BigEndianOfValue(b');
      }
    }
  }

  lemma {:induction false} BigEndianOrder(x: nat, y: nat, n: nat)
    requires x < Pow256(n) && y < Pow256(n)
    ensures Less(BigEndian(x, n), BigEndian(y, n)) <==> x < y
    ensures BigEndian(x, n) == BigEndian(y, n) <==> x == y
  {
    ValueOfBigEndian(x, n);
    ValueOfBigEndian(y, n);
    LessIsNumeric(BigEndian(x, n), BigEndian(y, n));
  }

  // Ascending key lists: what a sorted scan visits.

  predicate Ascending(keys: seq<Bytes>) {
    forall i, j :: 0 <= i < j < |keys| ==> Less(keys[i], keys[j])
  }

  /** An ascending list is determined by its members. */
  lemma {:induction false} AscendingUnique(a: seq<Bytes>, b: seq<Bytes>)
    requires Ascending(a) && Ascending(b)
    requires forall k :: k in a <==> k in b
    ensures a == b
  {
    if a == [] || b == [] {
      assert |a + b| > 0 ==> exists k :: k in a || k in b by {
        if |a + b| > 0 { assert (a + b)[0] in a + b; }
      }
    } else {
      assert a[0] in b && b[0] in a;
      var i :| 0 <= i < |b| && b[i] == a[0];
      var j :| 0 <= j < |a| && a[j] == b[0];
      if i != 0 && j != 0 {
        LessTransitive(a[0], b[0], a[0]);
        LessIrreflexive(a[0]);
      }
      assert a[0] == b[0];
      forall k
        ensures k in a[1..] <==> k in b[1..]
      {
        LessIrreflexive(a[0]);
        assert k in a <==> k == a[0] || k in a[1..];
        assert k in b <==> k == b[0] || k in b[1..];
      }
      AscendingUnique(a[1..], b[1..]);
    }
  }

  /** Insertion into an ascending list. */
  function Insert(key: Bytes, keys: seq<Bytes>): (r: seq<Bytes>)
    requires Ascending(keys) && key !in keys
    ensures Ascending(r) && forall k :: k in r <==> k == key || k in keys
  {
    if keys == [] then [key]
    else if Less(key, keys[0]) then
      assert forall i | 1 <= i < |keys| :: Less(key, keys[i]) by {
        forall i | 1 <= i < |keys| ensures Less(key, keys[i]) { LessTransitive(key, keys[0], keys[i]); }
      }
      [key] + keys
    else
      var rest := Insert(key, keys[1..]);
      assert Less(keys[0], key) by { LessTotal(key, keys[0]); }
      assert forall k | k in rest :: Less(keys[0], k);
      [keys[0]] + rest
  }

  /** `sort.Slice(keys, bytes.Compare < 0)` on distinct keys. */
  function SortKeys(keys: seq<Bytes>): (r: seq<Bytes>)
    requires forall i, j :: 0 <= i < j < |keys| ==> keys[i] != keys[j]
    ensures Ascending(r) && forall k :: k in r <==> k in keys
  {
    if keys == [] then [] else
    var rest := SortKeys(keys[1..]);
    assert keys[0] !in rest;
    Insert(keys[0], rest)
  }
}
