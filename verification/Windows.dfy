/** Window assignment (window.go): tumbling and hopping windows. */
module Windows {
  import opened Collections

  // Integer division as the code has it.

  /** Go's `/` for a positive divisor: truncation towards zero. */
  function TruncDiv(a: int, b: int): int
    requires b > 0
  {
    if a >= 0 then a / b else -((-a) / b)
  }

  function FloorDiv(a: int, b: int): int
    requires b > 0
  {
    var q := TruncDiv(a, b);
    if a - q * b < 0 then q - 1 else q
  }

  /** `floorDiv` is division rounding towards minus infinity, for every dividend. */
  lemma FloorDivIsFloor(a: int, b: int)
    requires b > 0
    ensures FloorDiv(a, b) * b <= a < FloorDiv(a, b) * b + b
  {
  }

  // Window definitions.

  datatype WindowDef = Tumbling(size: int) | Hopping(size: int, advance: int) {
    predicate Valid() {
      size > 0 && (Hopping? ==> 0 < advance <= size)
    }

    function Pace(): int { if Tumbling? then size else advance }
  }

  datatype Window = Window(start: int, end: int)

  /** The starts from `s` up to `latest`, one pace apart. */
  function StartsFrom(pace: int, s: int, latest: int): seq<int>
    requires pace > 0
    decreases latest - s
  {
    if s > latest then [] else [s] + StartsFrom(pace, s + pace, latest)
  }

  /** The starts of the windows `Assign` returns, in order. */
  function Starts(def: WindowDef, ts: int): seq<int>
    requires def.Valid()
  {
    match def
    case Tumbling(size) => [TruncDiv(ts, size) * size]
    case Hopping(size, advance) =>
      var earliest := FloorDiv(ts - size + advance, advance) * advance;
      StartsFrom(advance, if earliest < 0 then 0 else earliest, FloorDiv(ts, advance) * advance)
  }

  /** `Assign`: one window for tumbling, a loop of windows for hopping. */
  method Assign(def: WindowDef, ts: int) returns (windows: seq<Window>)
    requires def.Valid()
    ensures |windows| == |Starts(def, ts)|
    ensures forall i :: 0 <= i < |windows| ==> windows[i] == Window(Starts(def, ts)[i], Starts(def, ts)[i] + def.size)
  {
    if def.Tumbling? {
      var start := TruncDiv(ts, def.size) * def.size;
      return [Window(start, start + def.size)];
    }
    var latest := FloorDiv(ts, def.advance) * def.advance;
    var earliest := FloorDiv(ts - def.size + def.advance, def.advance) * def.advance;
    if earliest < 0 { earliest := 0; }
    windows := AssignFrom(def.size, def.advance, earliest, latest);
  }

  /** The loop of the hopping `Assign`. */
  method AssignFrom(size: int, pace: int, earliest: int, latest: int) returns (windows: seq<Window>)
    requires pace > 0
    ensures |windows| == |StartsFrom(pace, earliest, latest)|
    ensures forall i :: 0 <= i < |windows| ==>
            windows[i] == Window(StartsFrom(pace, earliest, latest)[i], StartsFrom(pace, earliest, latest)[i] + size)
  {
    windows := [];
    var start := earliest;
    ghost var all, done := StartsFrom(pace, earliest, latest), [];
    assert done + StartsFrom(pace, start, latest) == all;
    while start <= latest
      invariant done + StartsFrom(pace, start, latest) == all
      invariant |windows| == |done|
      invariant forall i :: 0 <= i < |windows| ==> windows[i] == Window(done[i], done[i] + size)
      decreases latest - start
    {
      windows := windows + [Window(start, start + size)];
      done := done + [start];
      assert done + StartsFrom(pace, start + pace, latest)
          == done[..|done| - 1] + ([start] + StartsFrom(pace, start + pace, latest));
      start := start + pace;
    }
    assert done == all;
  }

  /** The windows of the definition that exist: aligned, non-negative starts. */
  predicate Aligned(def: WindowDef, s: int)
    requires def.Valid()
  {
    s >= 0 && s % def.Pace() == 0
  }

  predicate Contains(def: WindowDef, s: int, ts: int)
    requires def.Valid()
  {
    Aligned(def, s) && s <= ts < s + def.size
  }

  lemma {:induction false} StartsFromExact(pace: int, s: int, latest: int, x: int)
    requires pace > 0 && s % pace == 0
    ensures x in StartsFrom(pace, s, latest) <==> s <= x <= latest && x % pace == 0
    decreases latest - s
  {
    if s <= latest {
      NextMultiple(pace, s);
      StartsFromExact(pace, s + pace, latest, x);
      if s < x && x % pace == 0 { MultiplesApart(pace, s, x); }
    }
  }

  lemma NextMultiple(pace: int, s: int)
    requires pace > 0 && s % pace == 0
    ensures (s + pace) % pace == 0
  {
    assert (s + pace) == (s / pace + 1) * pace;
    MultipleOf(pace, s / pace + 1);
  }

  lemma MultipleOf(pace: int, q: int)
    requires pace > 0
    ensures (q * pace) % pace == 0
  {
    var r := (q * pace) % pace;
    var d := (q * pace) / pace;
    assert q * pace == d * pace + r;
    assert (q - d) * pace == r;
    ProductBounds(pace, q - d);
  }

  lemma ProductBounds(pace: int, d: int)
    requires pace > 0
    ensures d >= 1 ==> d * pace >= pace
    ensures d <= 0 ==> d * pace <= 0
    ensures d <= -1 ==> d * pace <= -pace
  {
  }

  lemma MultiplesApart(pace: int, s: int, x: int)
    requires pace > 0 && s % pace == 0 && x % pace == 0 && s < x
    ensures s + pace <= x
  {
    assert s == (s / pace) * pace && x == (x / pace) * pace;
    var d := x / pace - s / pace;
    assert x - s == d * pace;
    ProductBounds(pace, d);
  }

  lemma {:induction false} StartsFromAscend(pace: int, s: int, latest: int)
    requires pace > 0
    ensures var r := StartsFrom(pace, s, latest);
      Ascends(r) && (forall i :: 0 <= i < |r| ==> s <= r[i])
    decreases latest - s
  {
    if s <= latest {
      StartsFromAscend(pace, s + pace, latest);
      var r, rest := StartsFrom(pace, s, latest), StartsFrom(pace, s + pace, latest);
      assert r == [s] + rest;
      assert forall i :: 1 <= i < |r| ==> r[i] == rest[i - 1];
    }
  }

  /** `Assign` returns, in ascending order and without duplicates, exactly the aligned non-negative
      windows that contain the timestamp. */
  lemma AssignExact(def: WindowDef, ts: int, s: int)
    requires def.Valid() && ts >= 0
    ensures s in Starts(def, ts) <==> Contains(def, s, ts)
    ensures Ascends(Starts(def, ts))
  {
    if def.Tumbling? {
      TumblingExact(def.size, ts, s);
    } else {
      HoppingExact(def, ts, s);
      var earliest := FloorDiv(ts - def.size + def.advance, def.advance) * def.advance;
      StartsFromAscend(def.advance, if earliest < 0 then 0 else earliest, FloorDiv(ts, def.advance) * def.advance);
    }
  }

  lemma TumblingExact(size: int, ts: int, s: int)
    requires size > 0 && ts >= 0
    ensures s == TruncDiv(ts, size) * size <==> Contains(Tumbling(size), s, ts)
  {
    var start := TruncDiv(ts, size) * size;
    FloorDivIsFloor(ts, size);
    MultipleOf(size, TruncDiv(ts, size));
    assert start % size == 0 && start <= ts < start + size && start >= 0;
    if s % size == 0 {
      if s < start { MultiplesApart(size, s, start); }
      if s > start { MultiplesApart(size, start, s); }
    }
  }

  lemma StartsDistinct(def: WindowDef, ts: int)
    requires def.Valid()
    ensures Distinct(Starts(def, ts))
  {
    if def.Hopping? {
      var earliest := FloorDiv(ts - def.size + def.advance, def.advance) * def.advance;
      StartsFromAscend(def.advance, if earliest < 0 then 0 else earliest, FloorDiv(ts, def.advance) * def.advance);
    }
  }

  /** The assigned starts are no larger than the timestamp, so they fit wherever it fits. */
  lemma StartsBounded(def: WindowDef, ts: int, s: int)
    requires def.Valid() && s in Starts(def, ts)
    ensures (if ts < 0 then ts else 0) <= s <= (if ts < 0 then 0 else ts)
  {
    if def.Tumbling? {
      TruncBounded(def.size, ts);
    } else {
      HoppingExact(def, ts, s);
    }
  }

  lemma TruncBounded(size: int, ts: int)
    requires size > 0
    ensures (if ts < 0 then ts else 0) <= TruncDiv(ts, size) * size <= (if ts < 0 then 0 else ts)
  {
    var x := if ts < 0 then -ts else ts;
    FloorDivIsFloor(x, size);
    ProductBounds(size, FloorDiv(x, size));
    var q := FloorDiv(x, size);
    assert TruncDiv(ts, size) == if ts < 0 then -q else q;
    assert (-q) * size == -(q * size);
  }

  /** For hopping windows exactness holds at every timestamp, negative ones included. */
  lemma HoppingExact(def: WindowDef, ts: int, s: int)
    requires def.Valid() && def.Hopping?
    ensures s in Starts(def, ts) <==> Contains(def, s, ts)
  {
    var a := def.advance;
    var e, l := FloorDiv(ts - def.size + a, a) * a, FloorDiv(ts, a) * a;
    MultipleOf(a, FloorDiv(ts - def.size + a, a));
    MultipleOf(a, FloorDiv(ts, a));
    MultipleOf(a, 0);
    FloorDivIsFloor(ts - def.size + a, a);
    FloorDivIsFloor(ts, a);
    StartsFromExact(a, if e < 0 then 0 else e, l, s);
    if s % a == 0 {
      if s > l { MultiplesApart(a, l, s); }
      if s < e { MultiplesApart(a, s, e); }
    }
  }

  /** Tumbling assignment truncates towards zero, so its window contains a negative timestamp only
      when that timestamp is itself a multiple of the size. */
  lemma TumblingContainsIff(size: int, ts: int)
    requires size > 0
    ensures var s := Starts(Tumbling(size), ts)[0];
            s <= ts < s + size <==> ts >= 0 || (-ts) % size == 0
  {
    if ts >= 0 {
      FloorDivIsFloor(ts, size);
    } else {
      var q := (-ts) / size;
      assert -ts == q * size + (-ts) % size;
      assert TruncDiv(ts, size) * size == -(q * size);
    }
  }
}
