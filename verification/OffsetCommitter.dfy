/** `aloOffsetCommitter` of internal/kafka/client.go. */
module OffsetCommitter {
  import opened Wrappers
  import opened Changelog

  type TopicPartition = (string, int)

  datatype Record = Record(tp: TopicPartition, offset: int)

  /** The highest offset of a topic partition among the records, if it has any. */
  function MaxOffset(records: seq<Record>, tp: TopicPartition): Option<int> {
    if records == [] then None
    else
      var before, last := MaxOffset(records[..|records| - 1], tp), records[|records| - 1];
      if last.tp == tp && (before.None? || last.offset > before.value) then Some(last.offset) else before
  }

  lemma {:induction false} MaxOffsetIsMax(records: seq<Record>, tp: TopicPartition)
    ensures var m := MaxOffset(records, tp);
      && (forall i :: 0 <= i < |records| && records[i].tp == tp ==> m.Some? && records[i].offset <= m.value)
      && (m.Some? ==> Record(tp, m.value) in records)
  {
    if records != [] {
      MaxOffsetIsMax(records[..|records| - 1], tp);
      assert records == records[..|records| - 1] + [records[|records| - 1]];
    }
  }

  lemma {:induction false} MaxOffsetConcat(a: seq<Record>, b: seq<Record>, tp: TopicPartition)
    ensures var x, y := MaxOffset(a, tp), MaxOffset(b, tp);
      MaxOffset(a + b, tp) == if y.None? || (x.Some? && x.value >= y.value) then x else y
  {
    if b == [] {
      assert a + b == a;
    } else {
      assert (a + b)[..|a + b| - 1] == a + b[..|b| - 1];
      MaxOffsetConcat(a, b[..|b| - 1], tp);
    }
  }

  /** The order in which records are added does not matter, nor do repetitions. */
  lemma MaxOffsetOfSet(a: seq<Record>, b: seq<Record>, tp: TopicPartition)
    requires forall r :: r in a <==> r in b
    ensures MaxOffset(a, tp) == MaxOffset(b, tp)
  {
    MaxOffsetIsMax(a, tp);
    MaxOffsetIsMax(b, tp);
    var x, y := MaxOffset(a, tp), MaxOffset(b, tp);
    if x.Some? { assert Record(tp, x.value) in b; }
    if y.Some? { assert Record(tp, y.value) in a; }
  }

  /** The broker's answer to `CommitRecords`: success, or an error after taking the offsets of some topic
      partitions. */
  datatype Answer = Accepted | Failed(taken: set<TopicPartition>)

  class Committer {
    var pending: map<TopicPartition, int>
    var last: int
    const interval: int
    ghost var added: seq<Record>

    ghost predicate Valid()
      reads this
    {
      forall tp :: Lookup(pending, tp) == MaxOffset(added, tp)
    }

    constructor (interval: int, now: int)
      ensures Valid() && added == [] && pending == map[] && this.interval == interval && last == now
    {
      pending, last, this.interval, added := map[], now, interval, [];
    }

    /** `add` keeps, for every topic partition, the highest offset seen. */
    method Add(records: seq<Record>)
      requires Valid()
      modifies this`pending, this`added
      ensures Valid() && added == old(added) + records
    {
      for i := 0 to |records|
        invariant Valid() && added == old(added) + records[..i]
      {
        var r := records[i];
        if r.tp !in pending || r.offset > pending[r.tp] {
          pending := pending[r.tp := r.offset];
        }
        assert (added + [r])[..|added|] == added;
        added := added + [r];
      }
    }

    /** `due`: something has been added and the interval has passed. */
    method Due(now: int) returns (due: bool)
      requires Valid()
      ensures due <==> added != [] && now - last >= interval
    {
      Emptiness();
      due := |pending| > 0 && now - last >= interval;
    }

    lemma Emptiness()
      requires Valid()
      ensures |pending| > 0 <==> added != []
    {
      if added != [] {
        var tp := added[0].tp;
        MaxOffsetIsMax(added, tp);
        assert Lookup(pending, tp).Some?;
        assert tp in pending;
      } else {
        forall tp ensures tp !in pending { assert Lookup(pending, tp) == MaxOffset(added, tp); }
        assert pending == map[];
      }
    }

    /** `commit`: sends one past the highest offset of every topic partition. Only success clears. */
    method Commit(answer: Answer, now: int, offsets: map<TopicPartition, int>)
      returns (ok: bool, offsets': map<TopicPartition, int>)
      requires Valid()
      modifies this`pending, this`added, this`last
      ensures Valid() && ok == (old(added) == [] || answer.Accepted?)
      ensures ok ==> added == [] && last == if old(added) == [] then old(last) else now
      ensures !ok ==> added == old(added) && last == old(last)
      ensures forall tp :: Lookup(offsets', tp)
                == var m := MaxOffset(old(added), tp);
                   if m.Some? && (answer.Accepted? || tp in answer.taken) then Some(m.value + 1)
                   else Lookup(offsets, tp)
    {
      offsets' := offsets;
      Emptiness();
      forall tp ensures added == [] ==> MaxOffset(added, tp).None? {}
      if |pending| == 0 { return true, offsets; }
      ghost var before := added;
      var taken := if answer.Accepted? then pending.Keys else answer.taken * pending.Keys;
      offsets' := offsets + (map tp | tp in taken :: pending[tp] + 1);
      forall tp
        ensures Lookup(offsets', tp) == var m := MaxOffset(before, tp);
                  if m.Some? && (answer.Accepted? || tp in answer.taken) then Some(m.value + 1) else Lookup(offsets, tp)
      {
        assert Lookup(pending, tp) == MaxOffset(before, tp);
      }
      if answer.Failed? { return false, offsets'; }
      pending, added, last := map[], [], now;
      ok := true;
    }
  }
}
