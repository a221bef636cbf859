/** Small facts about sets and sequences that several modules need. */
module Collections {

  function Max(a: int, b: int): int { if a < b then b else a }

  ghost function Any<T>(s: set<T>): (x: T)
    requires |s| > 0
    ensures x in s
  {
    var x :| x in s; x
  }

  /** In any permutation of `a` the last element of `a` can be found and taken out. */
  lemma TakeOut<T>(a: seq<T>, b: seq<T>) returns (x: seq<T>, y: seq<T>)
    requires a != [] && multiset(a) == multiset(b)
    ensures b == x + [a[|a| - 1]] + y
    ensures multiset(a[..|a| - 1]) == multiset(x + y)
  {
    var init, r := a[..|a| - 1], a[|a| - 1];
    assert a == init + [r];
    assert r in multiset(b);
    var i :| 0 <= i < |b| && b[i] == r;
    x, y := b[..i], b[i + 1..];
    assert b == x + [r] + y;
    WithoutOne(init, r, x, y);
  }

  lemma WithoutOne<T>(a: seq<T>, r: T, x: seq<T>, y: seq<T>)
    requires multiset(a + [r]) == multiset(x + [r] + y)
    ensures multiset(a) == multiset(x + y)
  {
    assert multiset(a + [r]) == multiset(a) + multiset{r};
    assert multiset(x + [r] + y) == multiset(x) + multiset{r} + multiset(y) == multiset(x + y) + multiset{r};
    assert multiset(a) == multiset(a + [r]) - multiset{r};
    assert multiset(x + y) == multiset(x + [r] + y) - multiset{r};
  }

  lemma SameLength<T>(a: seq<T>, b: seq<T>)
    requires multiset(a) == multiset(b)
    ensures |a| == |b|
  {
    assert |multiset(a)| == |a| && |multiset(b)| == |b|;
  }

  ghost function Elements<T>(s: seq<T>): set<T>
  {
    set x | x in s
  }

  lemma RemoveNext<K, V>(m: map<K, V>, keys: seq<K>, i: nat)
    requires i < |keys|
    ensures m - Elements(keys[..i]) - {keys[i]} == m - Elements(keys[..i + 1])
  {
    assert keys[..i + 1] == keys[..i] + [keys[i]];
  }

  predicate Ascends(order: seq<int>) {
    forall i, j :: 0 <= i < j < |order| ==> order[i] < order[j]
  }

  predicate Distinct<T(==)>(s: seq<T>) {
    forall i, j :: 0 <= i < j < |s| ==> s[i] != s[j]
  }

  /** `order` enumerates `s` without repetition. */
  ghost predicate Lists(order: seq<int>, s: set<int>) {
    && (forall i :: 0 <= i < |order| ==> order[i] in s)
    && (forall x :: x in s ==> x in order)
    && Distinct(order)
  }

  /** The order in which starts are scanned: as unsigned, so that the negative ones come last. */
  predicate Before(a: int, b: int) {
    if (a < 0) == (b < 0) then a < b else b < 0
  }

  predicate InScanOrder(order: seq<int>) {
    forall i, j :: 0 <= i < j < |order| ==> Before(order[i], order[j])
  }

  ghost predicate IsFirst(x: int, s: set<int>) {
    x in s && forall y :: y in s ==> x == y || Before(x, y)
  }

  lemma {:induction false} HasFirst(s: set<int>) returns (x: int)
    requires |s| > 0
    ensures IsFirst(x, s)
  {
    var z := Any(s);
    if |s - {z}| == 0 {
      x := z;
      assert forall y :: y in s && y != z ==> y in s - {z};
    } else {
      var first := HasFirst(s - {z});
      x := if Before(z, first) then z else first;
      assert forall y :: y in s && y != z ==> y in s - {z};
    }
  }

  lemma FirstExists(s: set<int>)
    requires |s| > 0
    ensures exists x :: IsFirst(x, s)
  {
    var x := HasFirst(s);
  }

  /** The members of `s` in scan order. */
  ghost function Listing(s: set<int>): (order: seq<int>)
    ensures Lists(order, s)
    ensures InScanOrder(order)
    decreases s
  {
    if |s| == 0 then []
    else
      FirstExists(s);
      var x :| IsFirst(x, s);
      [x] + Listing(s - {x})
  }

  lemma {:induction false} ScanOrderSame(a: seq<int>, b: seq<int>)
    requires InScanOrder(a) && InScanOrder(b) && forall x :: x in a <==> x in b
    ensures a == b
  {
    assert |a| > 0 ==> a[0] in a;
    assert |b| > 0 ==> b[0] in b;
    if |a| > 0 && |b| > 0 {
      assert a[0] in b && b[0] in a;
      forall x ensures x in a[1..] <==> x in b[1..] {
        assert x in a <==> x == a[0] || x in a[1..];
        assert x in b <==> x == b[0] || x in b[1..];
      }
      ScanOrderSame(a[1..], b[1..]);
    }
  }

  /** An enumeration in scan order is the listing. */
  lemma ListingUnique(order: seq<int>, s: set<int>)
    requires Lists(order, s) && InScanOrder(order)
    ensures order == Listing(s)
  {
    ScanOrderSame(order, Listing(s));
  }
}
