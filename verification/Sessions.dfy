/** Session aggregation (session.go) on one key: sessions as the connected components of the accepted
    timestamps, whatever the order of arrival. */
module Sessions {
  import opened Collections

  /** A stored session, filed under its start. */
  datatype Session<A> = Session(end: int, acc: A)
  type Store<A> = map<int, Session<A>>

  /** An accepted record of the key. */
  datatype Rec<V> = Rec(ts: int, value: V)

  /** `initFn`, `aggFn` and `mergeFn` with the key fixed. */
  datatype Fns<!V, !A> = Fns(init: A, agg: (V, A) -> A, merge: (A, A) -> A)

  // The processor's step.

  /** `sEnd+gapMs >= ts && sStart-gapMs <= ts`. */
  predicate Matches<A>(gap: int, start: int, s: Session<A>, ts: int) {
    s.end + gap >= ts && start - gap <= ts
  }

  function Matched<A>(gap: int, m: Store<A>, ts: int): set<int> {
    set s | s in m && Matches(gap, s, m[s], ts)
  }

  predicate AllIn<A>(order: seq<int>, m: Store<A>) {
    forall i :: 0 <= i < |order| ==> order[i] in m
  }

  function MergedStart(order: seq<int>, ts: int): int {
    if order == [] then ts
    else
      var rest := MergedStart(order[..|order| - 1], ts);
      if order[|order| - 1] < rest then order[|order| - 1] else rest
  }

  function MergedEnd<A>(m: Store<A>, order: seq<int>, ts: int): int
    requires AllIn(order, m)
  {
    if order == [] then ts
    else
      var rest := MergedEnd(m, order[..|order| - 1], ts);
      if m[order[|order| - 1]].end > rest then m[order[|order| - 1]].end else rest
  }

  /** Left fold of `mergeFn` over the matched accumulators; `initFn` only when nothing matched. */
  function MergedAcc<V, A>(f: Fns<V, A>, m: Store<A>, order: seq<int>): A
    requires AllIn(order, m)
  {
    if order == [] then f.init
    else if |order| == 1 then m[order[0]].acc
    else f.merge(MergedAcc(f, m, order[..|order| - 1]), m[order[|order| - 1]].acc)
  }

  function Written<V, A>(f: Fns<V, A>, m: Store<A>, order: seq<int>, r: Rec<V>): Session<A>
    requires AllIn(order, m)
  {
    Session(MergedEnd(m, order, r.ts), f.agg(r.value, MergedAcc(f, m, order)))
  }

  /** Deletes the matched sessions, writes the merged one. */
  ghost function Merge<V, A>(f: Fns<V, A>, m: Store<A>, order: seq<int>, r: Rec<V>): Store<A>
    requires AllIn(order, m)
  {
    (m - Elements(order))[MergedStart(order, r.ts) := Written(f, m, order, r)]
  }

  // Shape: the sessions as intervals over the timestamps seen.

  /** Every session starts and ends at a timestamp. */
  ghost predicate Anchored<A>(times: set<int>, m: Store<A>) {
    forall s :: s in m ==> s <= m[s].end && s in times && m[s].end in times
  }

  predicate Holds<A>(m: Store<A>, s: int, t: int) {
    s in m && s <= t <= m[s].end
  }

  ghost predicate InSome<A>(m: Store<A>, t: int) {
    exists s :: Holds(m, s, t)
  }

  /** Every timestamp is in a session. */
  ghost predicate Covered<A>(times: set<int>, m: Store<A>) {
    forall t {:trigger InSome(m, t)} :: t in times ==> InSome(m, t)
  }

  /** Distinct sessions are more than the gap apart. */
  ghost predicate Apart<A>(gap: int, m: Store<A>) {
    forall s, s' :: s in m && s' in m && s < s' ==> m[s].end + gap < s'
  }

  /** Some timestamp follows `x` within the gap, no later than `end`. */
  ghost predicate Follows(gap: int, times: set<int>, x: int, end: int) {
    exists t :: t in times && x < t <= x + gap && t <= end
  }

  /** No session has a hole wider than the gap. */
  ghost predicate Dense<A>(gap: int, times: set<int>, m: Store<A>) {
    forall s, x {:trigger s in m, Follows(gap, times, x, m[s].end)} ::
      s in m && s <= x < m[s].end ==> Follows(gap, times, x, m[s].end)
  }

  ghost predicate Shape<A>(gap: int, times: set<int>, m: Store<A>) {
    Anchored(times, m) && Covered(times, m) && Apart(gap, m) && Dense(gap, times, m)
  }

  /** At most two sessions match, one ending before the record and one starting after it. */
  lemma AtMostTwoMatch<A>(gap: int, times: set<int>, m: Store<A>, ts: int, a: int, b: int, c: int)
    requires gap > 0 && Anchored(times, m) && Apart(gap, m)
    requires a in Matched(gap, m, ts) && b in Matched(gap, m, ts) && c in Matched(gap, m, ts)
    ensures a == b || b == c || a == c
    ensures a < b ==> m[a].end < ts < b
  {
  }

  function LowHigh(order: seq<int>): (int, int)
    requires |order| == 2
  {
    if order[0] < order[1] then (order[0], order[1]) else (order[1], order[0])
  }

  /** The merged interval, case by case. */
  lemma MergedBounds<A>(gap: int, times: set<int>, m: Store<A>, ts: int, order: seq<int>)
    requires gap > 0 && Anchored(times, m) && Apart(gap, m) && Lists(order, Matched(gap, m, ts))
    ensures |order| <= 2 && AllIn(order, m)
    ensures order == [] ==> MergedStart(order, ts) == ts == MergedEnd(m, order, ts)
    ensures |order| == 1 ==> var s := order[0];
              && MergedStart(order, ts) == (if s < ts then s else ts)
              && MergedEnd(m, order, ts) == (if m[s].end > ts then m[s].end else ts)
    ensures |order| == 2 ==> var (a, b) := LowHigh(order);
              && a <= m[a].end < ts < b <= m[b].end
              && MergedStart(order, ts) == a && MergedEnd(m, order, ts) == m[b].end
  {
    if |order| > 2 {
      AtMostTwoMatch(gap, times, m, ts, order[0], order[1], order[2]);
    }
    if |order| == 1 {
      assert order[..0] == [];
    } else if |order| == 2 {
      var one := order[..1];
      assert one == [order[0]] && one[..0] == [];
      assert MergedStart(one, ts) == if order[0] < ts then order[0] else ts;
      assert MergedEnd(m, one, ts) == if m[order[0]].end > ts then m[order[0]].end else ts;
      AtMostTwoMatch(gap, times, m, ts, order[0], order[1], order[0]);
      AtMostTwoMatch(gap, times, m, ts, order[1], order[0], order[0]);
    }
  }

  /** A session that did not match stays clear of the merged interval by more than the gap, so the
      merged write never lands on it. */
  lemma UnmatchedStaysClear<A>(gap: int, times: set<int>, m: Store<A>, ts: int, order: seq<int>, s: int)
    requires gap > 0 && Anchored(times, m) && Apart(gap, m) && Lists(order, Matched(gap, m, ts))
    requires s in m && s !in order
    ensures AllIn(order, m)
    ensures m[s].end + gap < MergedStart(order, ts) || MergedEnd(m, order, ts) + gap < s
  {
    MergedBounds(gap, times, m, ts, order);
    assert !Matches(gap, s, m[s], ts);
  }

  lemma MergedAnchored<A>(gap: int, times: set<int>, m: Store<A>, ts: int, order: seq<int>)
    requires gap > 0 && Anchored(times, m) && Apart(gap, m) && Lists(order, Matched(gap, m, ts))
    ensures AllIn(order, m)
    ensures var lo, hi := MergedStart(order, ts), MergedEnd(m, order, ts);
      && lo <= ts <= hi && lo in times + {ts} && hi in times + {ts}
      && forall i :: 0 <= i < |order| ==> lo <= order[i] && m[order[i]].end <= hi
  {
    MergedBounds(gap, times, m, ts, order);
  }

  lemma DenseMerged<A>(gap: int, times: set<int>, m: Store<A>, ts: int, order: seq<int>, x: int)
    requires gap > 0 && Anchored(times, m) && Apart(gap, m) && Dense(gap, times, m)
    requires Lists(order, Matched(gap, m, ts)) && AllIn(order, m)
    requires MergedStart(order, ts) <= x < MergedEnd(m, order, ts)
    ensures Follows(gap, times + {ts}, x, MergedEnd(m, order, ts))
  {
    MergedBounds(gap, times, m, ts, order);
    if |order| == 1 {
      DenseFrom(gap, times, m, ts, order[0], order[0], x);
    } else if |order| == 2 {
      var (a, b) := LowHigh(order);
      DenseFrom(gap, times, m, ts, a, b, x);
    }
  }

  /** From the start of `a` over the record to the end of `b`, no hole is wider than the gap. */
  lemma DenseFrom<A>(gap: int, times: set<int>, m: Store<A>, ts: int, a: int, b: int, x: int)
    requires gap > 0 && Anchored(times, m) && Dense(gap, times, m)
    requires a in m && b in m && a <= b && Matches(gap, a, m[a], ts) && Matches(gap, b, m[b], ts)
    requires a != b ==> m[a].end < ts < b
    requires a <= x || ts <= x
    requires x < m[b].end || x < ts
    ensures Follows(gap, times + {ts}, x, if m[b].end > ts then m[b].end else ts)
  {
    var end := if m[b].end > ts then m[b].end else ts;
    if a <= x < m[a].end {
      assert Follows(gap, times, x, m[a].end);
      var t :| t in times && x < t <= x + gap && t <= m[a].end;
      assert t in times + {ts} && t <= end;
    } else if b <= x < m[b].end {
      assert Follows(gap, times, x, m[b].end);
      var t :| t in times && x < t <= x + gap && t <= m[b].end;
      assert t in times + {ts} && t <= end;
    } else {
      var t := if x < ts then ts else b;
      assert t in times + {ts} && x < t <= x + gap && t <= end;
    }
  }

  /** `m'` is `m` with the sessions in `gone` replaced by one session `[lo, hi]` that covers them and is
      more than the gap away from every other. */
  ghost predicate Absorbs<A>(gap: int, m: Store<A>, m': Store<A>, gone: set<int>, lo: int, hi: int) {
    && lo in m' && m'[lo].end == hi
    && (forall s :: s in m' ==> s == lo || (s in m && s !in gone))
    && (forall s :: s in m && s !in gone ==> s in m' && m'[s] == m[s] && (m[s].end + gap < lo || hi + gap < s))
    && (forall s :: s in gone ==> s in m && lo <= s && m[s].end <= hi)
  }

  lemma MergeAbsorbs<V, A>(gap: int, times: set<int>, f: Fns<V, A>, m: Store<A>, order: seq<int>, r: Rec<V>)
    requires gap > 0 && Anchored(times, m) && Apart(gap, m) && Lists(order, Matched(gap, m, r.ts)) && AllIn(order, m)
    ensures Absorbs(gap, m, Merge(f, m, order, r), Matched(gap, m, r.ts), MergedStart(order, r.ts),
                    MergedEnd(m, order, r.ts))
  {
    var m' := Merge(f, m, order, r);
    MergedAnchored(gap, times, m, r.ts, order);
    var gone := Matched(gap, m, r.ts);
    assert forall s :: s in order <==> s in gone;
    forall s | s in m && s !in gone
      ensures s in m' && m'[s] == m[s]
      ensures m[s].end + gap < MergedStart(order, r.ts) || MergedEnd(m, order, r.ts) + gap < s
    {
      UnmatchedStaysClear(gap, times, m, r.ts, order, s);
    }
  }

  lemma AbsorbedApart<A>(gap: int, times: set<int>, m: Store<A>, m': Store<A>, gone: set<int>, lo: int, hi: int)
    requires gap > 0 && lo <= hi && Anchored(times, m) && Apart(gap, m) && Absorbs(gap, m, m', gone, lo, hi)
    ensures Apart(gap, m')
  {
  }

  lemma AbsorbedCovered<A>(gap: int, times: set<int>, m: Store<A>, m': Store<A>, gone: set<int>, lo: int, hi: int,
                           ts: int)
    requires Covered(times, m) && lo <= ts <= hi && Absorbs(gap, m, m', gone, lo, hi)
    ensures Covered(times + {ts}, m')
  {
    forall t | t in times + {ts}
      ensures InSome(m', t)
    {
      if t == ts {
        assert Holds(m', lo, t);
      } else {
        assert InSome(m, t);
        var s :| Holds(m, s, t);
        assert if s in gone then Holds(m', lo, t) else Holds(m', s, t);
      }
    }
  }

  lemma AbsorbedDense<A>(gap: int, times: set<int>, m: Store<A>, m': Store<A>, gone: set<int>, lo: int, hi: int,
                         ts: int)
    requires Dense(gap, times, m) && Absorbs(gap, m, m', gone, lo, hi)
    requires forall x {:trigger Follows(gap, times + {ts}, x, hi)} :: lo <= x < hi ==> Follows(gap, times + {ts}, x, hi)
    ensures Dense(gap, times + {ts}, m')
  {
    forall s, x | s in m' && s <= x < m'[s].end
      ensures Follows(gap, times + {ts}, x, m'[s].end)
    {
      if s != lo {
        assert Follows(gap, times, x, m[s].end);
        var t :| t in times && x < t <= x + gap && t <= m[s].end;
        assert t in times + {ts};
      }
    }
  }

  lemma ShapeStep<V, A>(gap: int, times: set<int>, f: Fns<V, A>, m: Store<A>, order: seq<int>, r: Rec<V>)
    requires gap > 0 && Shape(gap, times, m) && Lists(order, Matched(gap, m, r.ts)) && AllIn(order, m)
    ensures Shape(gap, times + {r.ts}, Merge(f, m, order, r))
  {
    var m', gone := Merge(f, m, order, r), Matched(gap, m, r.ts);
    var lo, hi := MergedStart(order, r.ts), MergedEnd(m, order, r.ts);
    MergedAnchored(gap, times, m, r.ts, order);
    MergeAbsorbs(gap, times, f, m, order, r);
    AbsorbedApart(gap, times, m, m', gone, lo, hi);
    AbsorbedCovered(gap, times, m, m', gone, lo, hi, r.ts);
    forall x | lo <= x < hi
      ensures Follows(gap, times + {r.ts}, x, hi)
    {
      DenseMerged(gap, times, m, r.ts, order, x);
    }
    AbsorbedDense(gap, times, m, m', gone, lo, hi, r.ts);
    assert Anchored(times + {r.ts}, m');
  }

  // Accumulators: what the values of a session's records add up to.

  ghost function Times<V>(recs: seq<Rec<V>>): set<int> {
    set r | r in recs :: r.ts
  }

  ghost function ValuesIn<V>(recs: seq<Rec<V>>, lo: int, hi: int): multiset<V> {
    if recs == [] then multiset{}
    else
      var r := recs[|recs| - 1];
      ValuesIn(recs[..|recs| - 1], lo, hi) + if lo <= r.ts <= hi then multiset{r.value} else multiset{}
  }

  /** The functions fold over multisets: `meaning` says to what, for every non-empty multiset. */
  ghost predicate FoldsMultisets<V(!new), A(!new)>(f: Fns<V, A>, meaning: multiset<V> -> A) {
    && (forall v :: f.agg(v, f.init) == meaning(multiset{v}))
    && (forall v, x :: x != multiset{} ==> f.agg(v, meaning(x)) == meaning(x + multiset{v}))
    && (forall x, y :: x != multiset{} && y != multiset{} ==> f.merge(meaning(x), meaning(y)) == meaning(x + y))
  }

  ghost predicate Accumulated<V(!new), A>(recs: seq<Rec<V>>, meaning: multiset<V> -> A, m: Store<A>) {
    forall s :: s in m ==> m[s].acc == meaning(ValuesIn(recs, s, m[s].end))
  }

  lemma {:induction false} ValuesSplit<V>(recs: seq<Rec<V>>, lo: int, mid: int, hi: int)
    requires lo - 1 <= mid <= hi
    ensures ValuesIn(recs, lo, hi) == ValuesIn(recs, lo, mid) + ValuesIn(recs, mid + 1, hi)
  {
    if recs != [] { ValuesSplit(recs[..|recs| - 1], lo, mid, hi); }
  }

  lemma {:induction false} ValuesEmpty<V>(recs: seq<Rec<V>>, lo: int, hi: int)
    ensures ValuesIn(recs, lo, hi) == multiset{} <==> forall t :: t in Times(recs) ==> !(lo <= t <= hi)
  {
    if recs != [] {
      var init, r := recs[..|recs| - 1], recs[|recs| - 1];
      TimesSnoc(init, r);
      assert recs == init + [r];
      ValuesEmpty(init, lo, hi);
    }
  }

  lemma TimesSnoc<V>(recs: seq<Rec<V>>, r: Rec<V>)
    ensures Times(recs + [r]) == Times(recs) + {r.ts}
  {
    assert r in recs + [r];
    assert forall x :: x in recs ==> x in recs + [r];
    assert forall x :: x in recs + [r] ==> x in recs || x == r;
  }

  lemma ValuesWiden<V>(recs: seq<Rec<V>>, lo: int, a: int, e: int, hi: int)
    requires lo <= a <= e <= hi
    requires forall t :: t in Times(recs) && lo <= t <= hi ==> a <= t <= e
    ensures ValuesIn(recs, lo, hi) == ValuesIn(recs, a, e)
  {
    ValuesSplit(recs, lo, a - 1, hi);
    ValuesSplit(recs, a, e, hi);
    ValuesEmpty(recs, lo, a - 1);
    ValuesEmpty(recs, e + 1, hi);
  }

  lemma ValuesBridge<V>(recs: seq<Rec<V>>, a: int, ea: int, b: int, eb: int)
    requires a <= ea < b <= eb
    requires forall t :: t in Times(recs) && a <= t <= eb ==> t <= ea || b <= t
    ensures ValuesIn(recs, a, eb) == ValuesIn(recs, a, ea) + ValuesIn(recs, b, eb)
  {
    ValuesSplit(recs, a, ea, eb);
    DropBefore(recs, ea + 1, b, eb);
  }

  lemma DropBefore<V>(recs: seq<Rec<V>>, lo: int, b: int, hi: int)
    requires lo <= b <= hi && forall t :: t in Times(recs) ==> !(lo <= t <= b - 1)
    ensures ValuesIn(recs, lo, hi) == ValuesIn(recs, b, hi)
  {
    ValuesEmpty(recs, lo, b - 1);
    ValuesSplit(recs, lo, b - 1, hi);
  }

  /** The timestamps inside the merged interval are those of the matched sessions. */
  lemma OnlyMatchedInside<A>(gap: int, times: set<int>, m: Store<A>, ts: int, order: seq<int>, t: int)
    requires gap > 0 && Anchored(times, m) && Apart(gap, m) && Covered(times, m)
    requires Lists(order, Matched(gap, m, ts)) && AllIn(order, m)
    requires t in times && MergedStart(order, ts) <= t <= MergedEnd(m, order, ts)
    ensures exists i :: 0 <= i < |order| && Holds(m, order[i], t)
  {
    assert InSome(m, t);
    var s :| Holds(m, s, t);
    if s !in order { UnmatchedStaysClear(gap, times, m, ts, order, s); }
  }

  lemma ValuesMerged<V, A>(gap: int, recs: seq<Rec<V>>, m: Store<A>, ts: int, order: seq<int>)
    requires gap > 0 && Anchored(Times(recs), m) && Apart(gap, m) && Covered(Times(recs), m)
    requires Lists(order, Matched(gap, m, ts)) && AllIn(order, m)
    ensures |order| <= 2
    ensures ValuesIn(recs, MergedStart(order, ts), MergedEnd(m, order, ts))
         == if order == [] then multiset{}
            else if |order| == 1 then ValuesIn(recs, order[0], m[order[0]].end)
            else ValuesIn(recs, order[0], m[order[0]].end) + ValuesIn(recs, order[1], m[order[1]].end)
  {
    var lo, hi, times := MergedStart(order, ts), MergedEnd(m, order, ts), Times(recs);
    MergedBounds(gap, times, m, ts, order);
    if |order| == 0 {
      forall t | t in times ensures !(lo <= t <= hi) {
        if lo <= t <= hi { OnlyMatchedInside(gap, times, m, ts, order, t); }
      }
      ValuesEmpty(recs, lo, hi);
    } else if |order| == 1 {
      forall t | t in times && lo <= t <= hi ensures order[0] <= t <= m[order[0]].end {
        OnlyMatchedInside(gap, times, m, ts, order, t);
      }
      MergedAnchored(gap, times, m, ts, order);
      ValuesWiden(recs, lo, order[0], m[order[0]].end, hi);
    } else {
      ValuesMergedTwo(gap, recs, m, ts, order);
    }
  }

  lemma ValuesMergedTwo<V, A>(gap: int, recs: seq<Rec<V>>, m: Store<A>, ts: int, order: seq<int>)
    requires gap > 0 && Anchored(Times(recs), m) && Apart(gap, m) && Covered(Times(recs), m)
    requires Lists(order, Matched(gap, m, ts)) && AllIn(order, m) && |order| == 2
    ensures ValuesIn(recs, MergedStart(order, ts), MergedEnd(m, order, ts))
         == ValuesIn(recs, order[0], m[order[0]].end) + ValuesIn(recs, order[1], m[order[1]].end)
  {
    var hi, times := MergedEnd(m, order, ts), Times(recs);
    MergedBounds(gap, times, m, ts, order);
    var (a, b) := LowHigh(order);
    forall t | t in times && a <= t <= hi ensures t <= m[a].end || b <= t {
      NothingBetween(gap, times, m, ts, order, t);
    }
    ValuesBridge(recs, a, m[a].end, b, hi);
  }

  lemma NothingBetween<A>(gap: int, times: set<int>, m: Store<A>, ts: int, order: seq<int>, t: int)
    requires gap > 0 && Anchored(times, m) && Apart(gap, m) && Covered(times, m)
    requires Lists(order, Matched(gap, m, ts)) && AllIn(order, m) && |order| == 2
    requires t in times && MergedStart(order, ts) <= t <= MergedEnd(m, order, ts)
    ensures var (a, b) := LowHigh(order); t <= m[a].end || b <= t
  {
    OnlyMatchedInside(gap, times, m, ts, order, t);
  }

  lemma MergedAccMeaning<V(!new), A(!new)>(gap: int, recs: seq<Rec<V>>, f: Fns<V, A>, meaning: multiset<V> -> A,
                                           m: Store<A>, order: seq<int>, ts: int)
    requires gap > 0 && FoldsMultisets(f, meaning) && Accumulated(recs, meaning, m)
    requires Anchored(Times(recs), m) && Apart(gap, m) && Covered(Times(recs), m)
    requires Lists(order, Matched(gap, m, ts)) && AllIn(order, m)
    ensures var merged := ValuesIn(recs, MergedStart(order, ts), MergedEnd(m, order, ts));
      if order == [] then merged == multiset{}
      else merged != multiset{} && MergedAcc(f, m, order) == meaning(merged)
  {
    ValuesMerged(gap, recs, m, ts, order);
    if |order| == 1 {
      ValuesEmpty(recs, order[0], m[order[0]].end);
    } else if |order| == 2 {
      var x, y := ValuesIn(recs, order[0], m[order[0]].end), ValuesIn(recs, order[1], m[order[1]].end);
      ValuesEmpty(recs, order[0], m[order[0]].end);
      ValuesEmpty(recs, order[1], m[order[1]].end);
      assert order[..1] == [order[0]];
      assert MergedAcc(f, m, order) == f.merge(meaning(x), meaning(y));
    }
  }

  lemma AccumulatedStep<V(!new), A(!new)>(gap: int, recs: seq<Rec<V>>, f: Fns<V, A>, meaning: multiset<V> -> A,
                                          m: Store<A>, order: seq<int>, r: Rec<V>)
    requires gap > 0 && FoldsMultisets(f, meaning) && Accumulated(recs, meaning, m)
    requires Anchored(Times(recs), m) && Apart(gap, m) && Covered(Times(recs), m)
    requires Lists(order, Matched(gap, m, r.ts)) && AllIn(order, m)
    ensures Accumulated(recs + [r], meaning, Merge(f, m, order, r))
  {
    var m', lo, hi := Merge(f, m, order, r), MergedStart(order, r.ts), MergedEnd(m, order, r.ts);
    MergedAnchored(gap, Times(recs), m, r.ts, order);
    MergedAccMeaning(gap, recs, f, meaning, m, order, r.ts);
    MergeAbsorbs(gap, Times(recs), f, m, order, r);
    forall s | s in m'
      ensures m'[s].acc == meaning(ValuesIn(recs + [r], s, m'[s].end))
    {
      assert (recs + [r])[..|recs|] == recs;
      if s != lo {
        assert ValuesIn(recs + [r], s, m[s].end) == ValuesIn(recs, s, m[s].end);
      } else {
        var merged := ValuesIn(recs, lo, hi);
        assert ValuesIn(recs + [r], lo, hi) == merged + multiset{r.value};
        assert order == [] ==> merged + multiset{r.value} == multiset{r.value};
      }
    }
  }

  // A key's run: the accepted records in arrival order.

  ghost function Step<V, A>(gap: int, f: Fns<V, A>, m: Store<A>, r: Rec<V>): Store<A> {
    Merge(f, m, Listing(Matched(gap, m, r.ts)), r)
  }

  ghost function Aggregate<V, A>(gap: int, f: Fns<V, A>, recs: seq<Rec<V>>): Store<A> {
    if recs == [] then map[] else Step(gap, f, Aggregate(gap, f, recs[..|recs| - 1]), recs[|recs| - 1])
  }

  lemma {:induction false} AggregateShape<V, A>(gap: int, f: Fns<V, A>, recs: seq<Rec<V>>)
    requires gap > 0
    ensures Shape(gap, Times(recs), Aggregate(gap, f, recs))
  {
    if recs != [] {
      var init, r := recs[..|recs| - 1], recs[|recs| - 1];
      AggregateShape(gap, f, init);
      var m := Aggregate(gap, f, init);
      ShapeStep(gap, Times(init), f, m, Listing(Matched(gap, m, r.ts)), r);
      TimesSnoc(init, r);
      assert recs == init + [r];
    }
  }

  lemma {:induction false} AggregateAccumulates<V(!new), A(!new)>(gap: int, f: Fns<V, A>, meaning: multiset<V> -> A,
                                                                  recs: seq<Rec<V>>)
    requires gap > 0 && FoldsMultisets(f, meaning)
    ensures Accumulated(recs, meaning, Aggregate(gap, f, recs))
  {
    if recs != [] {
      var init, r := recs[..|recs| - 1], recs[|recs| - 1];
      AggregateAccumulates(gap, f, meaning, init);
      AggregateShape(gap, f, init);
      AccumulatedNext(gap, f, meaning, init, Aggregate(gap, f, init), r);
      assert recs == init + [r];
    }
  }

  lemma AccumulatedNext<V(!new), A(!new)>(gap: int, f: Fns<V, A>, meaning: multiset<V> -> A,
                                          recs: seq<Rec<V>>, m: Store<A>, r: Rec<V>)
    requires gap > 0 && FoldsMultisets(f, meaning) && Accumulated(recs, meaning, m) && Shape(gap, Times(recs), m)
    ensures Accumulated(recs + [r], meaning, Step(gap, f, m, r))
  {
    AccumulatedStep(gap, recs, f, meaning, m, Listing(Matched(gap, m, r.ts)), r);
  }

  // Connected components, defined on the timestamps alone.

  /** A path through the timestamps whose neighbours are at most the gap apart. */
  ghost predicate Chain(gap: int, times: set<int>, path: seq<int>) {
    && path != []
    && (forall i :: 0 <= i < |path| ==> path[i] in times)
    && (forall i :: 0 < i < |path| ==> -gap <= path[i] - path[i - 1] <= gap)
  }

  ghost predicate Connected(gap: int, times: set<int>, a: int, b: int) {
    exists path :: Chain(gap, times, path) && path[0] == a && path[|path| - 1] == b
  }

  ghost predicate SameSession<A>(m: Store<A>, a: int, b: int) {
    exists s :: Holds(m, s, a) && Holds(m, s, b)
  }

  lemma {:induction false} ChainStaysInside<A>(gap: int, times: set<int>, m: Store<A>, s: int, path: seq<int>)
    requires Shape(gap, times, m) && Chain(gap, times, path) && Holds(m, s, path[0])
    ensures Holds(m, s, path[|path| - 1])
  {
    if |path| > 1 {
      var init := path[..|path| - 1];
      ChainStaysInside(gap, times, m, s, init);
      var t := path[|path| - 1];
      assert InSome(m, t);
      var s' :| Holds(m, s', t);
      assert path[|path| - 2] == init[|init| - 1];
    }
  }

  lemma {:induction false} Climb<A>(gap: int, times: set<int>, m: Store<A>, s: int, a: int, b: int)
    requires Shape(gap, times, m) && Holds(m, s, a) && Holds(m, s, b) && a in times && b in times && a <= b
    ensures Connected(gap, times, a, b)
    decreases b - a
  {
    if a == b {
      assert Chain(gap, times, [a]);
    } else {
      assert Follows(gap, times, a, m[s].end);
      var t :| t in times && a < t <= a + gap && t <= m[s].end;
      var next := if t <= b then t else b;
      Climb(gap, times, m, s, next, b);
      var path :| Chain(gap, times, path) && path[0] == next && path[|path| - 1] == b;
      assert Chain(gap, times, [a] + path);
    }
  }

  lemma ConnectedSymmetric(gap: int, times: set<int>, a: int, b: int)
    requires Connected(gap, times, a, b)
    ensures Connected(gap, times, b, a)
  {
    var path :| Chain(gap, times, path) && path[0] == a && path[|path| - 1] == b;
    var back := seq(|path|, i requires 0 <= i < |path| => path[|path| - 1 - i]);
    forall i | 0 < i < |back|
      ensures -gap <= back[i] - back[i - 1] <= gap
    {
      assert -gap <= path[|path| - i] - path[|path| - i - 1] <= gap;
    }
    assert Chain(gap, times, back);
  }

  /** The stored sessions are exactly the connected components of the accepted timestamps: two
      timestamps share a session if and only if a chain of steps within the gap joins them, and a
      session starts and ends at timestamps of its component. */
  lemma SessionsAreComponents<V, A>(gap: int, f: Fns<V, A>, recs: seq<Rec<V>>)
    requires gap > 0
    ensures var m, times := Aggregate(gap, f, recs), Times(recs);
      && (forall a, b :: a in times && b in times ==> (SameSession(m, a, b) <==> Connected(gap, times, a, b)))
      && (forall s :: s in m ==> s in times && m[s].end in times && SameSession(m, s, m[s].end))
      && (forall t :: t in times ==> InSome(m, t))
  {
    var m, times := Aggregate(gap, f, recs), Times(recs);
    AggregateShape(gap, f, recs);
    forall a, b | a in times && b in times
      ensures SameSession(m, a, b) <==> Connected(gap, times, a, b)
    {
      if SameSession(m, a, b) {
        var s :| Holds(m, s, a) && Holds(m, s, b);
        if a <= b {
          Climb(gap, times, m, s, a, b);
        } else {
          Climb(gap, times, m, s, b, a);
          ConnectedSymmetric(gap, times, b, a);
        }
      } else if Connected(gap, times, a, b) {
        var path :| Chain(gap, times, path) && path[0] == a && path[|path| - 1] == b;
        assert InSome(m, a);
        var s :| Holds(m, s, a);
        ChainStaysInside(gap, times, m, s, path);
      }
    }
    forall s | s in m ensures SameSession(m, s, m[s].end) {
      assert Holds(m, s, s) && Holds(m, s, m[s].end);
    }
  }

  // The shape is determined by the timestamps, so the order of arrival does not matter.

  /** No timestamp lies just above a session's end. */
  lemma NothingAfterEnd<A>(gap: int, times: set<int>, m: Store<A>, s: int, t: int)
    requires gap > 0 && Shape(gap, times, m) && s in m && t in times && m[s].end < t
    ensures m[s].end + gap < t
  {
    assert InSome(m, t);
    var s' :| Holds(m, s', t);
  }

  lemma SameStarts<A, B>(gap: int, times: set<int>, m: Store<A>, n: Store<B>, s: int)
    requires gap > 0 && Shape(gap, times, m) && Shape(gap, times, n) && s in m
    ensures s in n && n[s].end <= m[s].end
  {
    assert InSome(n, s);
    var s2 :| Holds(n, s2, s);
    if s2 < s {
      assert InSome(m, s2);
      var s1 :| Holds(m, s1, s2);
      assert Follows(gap, times, m[s1].end, n[s2].end);
      var t :| t in times && m[s1].end < t <= m[s1].end + gap;
      NothingAfterEnd(gap, times, m, s1, t);
    }
    if n[s].end > m[s].end {
      assert Follows(gap, times, m[s].end, n[s].end);
      var t :| t in times && m[s].end < t <= m[s].end + gap;
      NothingAfterEnd(gap, times, m, s, t);
    }
  }

  lemma {:induction false} ValuesConcat<V>(a: seq<Rec<V>>, b: seq<Rec<V>>, lo: int, hi: int)
    ensures ValuesIn(a + b, lo, hi) == ValuesIn(a, lo, hi) + ValuesIn(b, lo, hi)
  {
    if b == [] {
      assert a + b == a;
    } else {
      assert (a + b)[..|a + b| - 1] == a + b[..|b| - 1];
      ValuesConcat(a, b[..|b| - 1], lo, hi);
    }
  }

  lemma {:induction false} ValuesPermute<V>(a: seq<Rec<V>>, b: seq<Rec<V>>, lo: int, hi: int)
    requires multiset(a) == multiset(b)
    ensures ValuesIn(a, lo, hi) == ValuesIn(b, lo, hi)
  {
    SameLength(a, b);
    if a != [] {
      var init, r := a[..|a| - 1], a[|a| - 1];
      var x, y := TakeOut(a, b);
      ValuesPermute(init, x + y, lo, hi);
      ValuesInsert(x, r, y, lo, hi);
      ValuesConcat(init, [r], lo, hi);
      assert a == init + [r];
    }
  }

  lemma ValuesInsert<V>(x: seq<Rec<V>>, r: Rec<V>, y: seq<Rec<V>>, lo: int, hi: int)
    ensures ValuesIn(x + [r] + y, lo, hi) == ValuesIn(x + y, lo, hi) + ValuesIn([r], lo, hi)
  {
    ValuesConcat(x, y, lo, hi);
    ValuesConcat(x + [r], y, lo, hi);
    ValuesConcat(x, [r], lo, hi);
  }

  lemma TimesPermute<V>(a: seq<Rec<V>>, b: seq<Rec<V>>)
    requires multiset(a) == multiset(b)
    ensures Times(a) == Times(b)
  {
    assert forall r :: r in a <==> r in multiset(a);
    assert forall r :: r in b <==> r in multiset(b);
  }

  /** Any permutation of the accepted records gives the same store. */
  lemma OrderOfArrivalIrrelevant<V(!new), A(!new)>(gap: int, f: Fns<V, A>, meaning: multiset<V> -> A,
                                                   a: seq<Rec<V>>, b: seq<Rec<V>>)
    requires gap > 0 && FoldsMultisets(f, meaning) && multiset(a) == multiset(b)
    ensures Aggregate(gap, f, a) == Aggregate(gap, f, b)
  {
    var m, n, times := Aggregate(gap, f, a), Aggregate(gap, f, b), Times(a);
    TimesPermute(a, b);
    AggregateShape(gap, f, a);
    AggregateShape(gap, f, b);
    AggregateAccumulates(gap, f, meaning, a);
    AggregateAccumulates(gap, f, meaning, b);
    forall s
      ensures s in m <==> s in n
      ensures s in m ==> m[s] == n[s]
    {
      if s in m { SameStarts(gap, times, m, n, s); }
      if s in n { SameStarts(gap, times, n, m, s); }
      if s in m { ValuesPermute(a, b, s, m[s].end); }
    }
  }

  // Count.

  function CountFns<V>(): Fns<V, int> {
    Fns(0, (v, acc) => acc + 1, (x, y) => x + y)
  }

  lemma CountFoldsMultisets<V(!new)>()
    ensures FoldsMultisets(CountFns<V>(), (x: multiset<V>) => |x|)
  {
    assert forall v: V, x: multiset<V> :: |x + multiset{v}| == |x| + 1;
    assert forall x: multiset<V>, y: multiset<V> :: |x + y| == |x| + |y|;
  }

  ghost function Total(m: Store<int>): int
    decreases m.Keys
  {
    if |m.Keys| == 0 then 0 else var s := Any(m.Keys); m[s].acc + Total(m - {s})
  }

  lemma {:induction false} TotalRemove(m: Store<int>, s: int)
    requires s in m
    ensures Total(m) == m[s].acc + Total(m - {s})
    decreases m.Keys
  {
    var x := Any(m.Keys);
    if x != s {
      TotalRemove(m - {x}, s);
      TotalRemove(m - {s}, x);
      assert m - {x} - {s} == m - {s} - {x};
    }
  }

  /** Conservation: the session counts add up to the number of accepted records. */
  lemma {:induction false} CountsAddUp<V(!new)>(gap: int, recs: seq<Rec<V>>)
    requires gap > 0
    ensures Total(Aggregate(gap, CountFns(), recs)) == |recs|
  {
    if recs != [] {
      var init, r := recs[..|recs| - 1], recs[|recs| - 1];
      CountsAddUp(gap, init);
      AggregateShape(gap, CountFns(), init);
      var m := Aggregate(gap, CountFns(), init);
      var order := Listing(Matched(gap, m, r.ts));
      MergedBounds(gap, Times(init), m, r.ts, order);
      MergeAbsorbs(gap, Times(init), CountFns(), m, order, r);
      TotalAfterMerge(gap, m, order, r);
    }
  }

  lemma TotalAfterMerge<V>(gap: int, m: Store<int>, order: seq<int>, r: Rec<V>)
    requires AllIn(order, m) && |order| <= 2 && (|order| == 2 ==> order[0] != order[1])
    requires MergedStart(order, r.ts) !in m - Elements(order)
    ensures Total(Merge(CountFns(), m, order, r)) == Total(m) + 1
  {
    var kept := m - Elements(order);
    var m', lo := Merge(CountFns(), m, order, r), MergedStart(order, r.ts);
    TotalRemove(m', lo);
    assert m' - {lo} == kept;
    TotalOfMatched<V>(m, order);
  }

  lemma TotalOfMatched<V>(m: Store<int>, order: seq<int>)
    requires AllIn(order, m) && |order| <= 2 && (|order| == 2 ==> order[0] != order[1])
    ensures Total(m) == MergedAcc(CountFns<V>(), m, order) + Total(m - Elements(order))
  {
    CountMerged<V>(m, order);
    if order == [] {
      assert m - Elements(order) == m;
    } else if |order| == 1 {
      TotalRemove(m, order[0]);
      ElementsOfOne(order);
    } else {
      TotalRemoveTwo(m, order[0], order[1]);
      ElementsOfTwo(order);
    }
  }

  lemma ElementsOfOne(order: seq<int>)
    requires |order| == 1
    ensures Elements(order) == {order[0]}
  {
  }

  lemma ElementsOfTwo(order: seq<int>)
    requires |order| == 2
    ensures Elements(order) == {order[0], order[1]}
  {
  }

  lemma CountMerged<V>(m: Store<int>, order: seq<int>)
    requires AllIn(order, m) && |order| <= 2
    ensures MergedAcc(CountFns<V>(), m, order)
         == if order == [] then 0 else if |order| == 1 then m[order[0]].acc else m[order[0]].acc + m[order[1]].acc
  {
    if |order| == 2 {
      var one := order[..1];
      assert MergedAcc(CountFns<V>(), m, one) == m[one[0]].acc;
    }
  }

  lemma TotalRemoveTwo(m: Store<int>, a: int, b: int)
    requires a in m && b in m && a != b
    ensures Total(m) == m[a].acc + m[b].acc + Total(m - {a, b})
  {
    TotalRemove(m, a);
    TotalRemove(m - {a}, b);
    assert m - {a} - {b} == m - {a, b};
  }
}
