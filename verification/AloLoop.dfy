/** The `runALO` loop as the code runs it, against a broker whose answers arrive as a script. Every execution
    is a run of the machine in `Alo`, so at-least-once holds of it. */
module AloLoop {
  import opened Wrappers
  import opened Changelog
  import E = Eos
  import opened Alo
  import OC = OffsetCommitter

  /** One return of `PollFetches` and what then happens. A batch names the partition of each fetched record
      in the order of processing; `failAt`, `flushed` and `produced` say how far processing, the changelog
      flush and the produce request get before they fail. */
  datatype Poll =
    | Closed
    | Cancelled(answer: OC.Answer)
    | Empty(now: int, answer: OC.Answer)
    | Batch(records: seq<nat>, failAt: Option<nat>, flushed: Option<nat>, produced: Option<nat>, now: int,
            answer: OC.Answer)

  /** A poll that returns, and whose records are processed, flushed and produced. */
  predicate Succeeds(poll: Poll) {
    match poll
    case Closed => false
    case Cancelled(_) => false
    case Empty(_, _) => true
    case Batch(_, failAt, flushed, produced, _, _) => failAt.None? && flushed.None? && produced.None?
  }

  /** Processing stops at a record of the batch. */
  predicate Fails(records: seq<nat>, failAt: Option<nat>) {
    failAt.Some? && failAt.value < |records|
  }

  function Records(poll: Poll): seq<nat> { if poll.Batch? then poll.records else [] }

  ghost predicate Reaches<O(!new)>(app: E.App<O>, s: State<O>, s': State<O>) {
    exists steps :: IsRun(app, s, steps) && After(app, s, steps) == s'
  }

  lemma {:induction false} RunSnoc<O(!new)>(app: E.App<O>, s: State<O>, steps: seq<Step>, step: Step)
    requires IsRun(app, s, steps) && Enabled(After(app, s, steps), step)
    ensures IsRun(app, s, steps + [step]) && After(app, s, steps + [step]) == Do(app, After(app, s, steps), step)
    decreases |steps|
  {
    if steps == [] {
      assert steps + [step] == [step] && [step][1..] == [];
    } else {
      assert (steps + [step])[1..] == steps[1..] + [step];
      RunSnoc(app, Do(app, s, steps[0]), steps[1..], step);
    }
  }

  lemma Advance<O(!new)>(app: E.App<O>, s0: State<O>, s: State<O>, step: Step)
    requires E.NonEmpty(app) && Reaches(app, s0, s) && Inv(app, s) && Enabled(s, step)
    ensures Reaches(app, s0, Do(app, s, step)) && Inv(app, Do(app, s, step))
  {
    var steps :| IsRun(app, s0, steps) && After(app, s0, steps) == s;
    RunSnoc(app, s0, steps, step);
    StepKeeps(app, s, step);
  }

  lemma ReachedInventsNothing<O(!new)>(app: E.App<O>, s0: State<O>, s: State<O>)
    requires E.NonEmpty(app) && Reaches(app, s0, s) && Inv(app, s0) && NothingInvented(app, s0)
    ensures Inv(app, s) && NothingInvented(app, s)
  {
    var steps :| IsRun(app, s0, steps) && After(app, s0, steps) == s;
    RunInventsNothing(app, s0, steps);
  }

  lemma NextState<O(!new)>(app: E.App<O>, s0: State<O>, s: State<O>, step: Step)
    requires Reaches(app, s0, s) && Enabled(s, step)
    ensures Reaches(app, s0, Do(app, s, step))
  {
    var steps :| IsRun(app, s0, steps) && After(app, s0, steps) == s;
    RunSnoc(app, s0, steps, step);
  }

  /** At least once is not exactly once: a crash between the changelog flush and the offset commit leaves
      an input in the changelog, and the restarted client applies it again on top. */
  lemma FlushedButNotCommitted<O(!new)>(app: E.App<O>, r: E.In)
    ensures exists s :: Reaches(app, Initial(1), s) && AppliedTwice(s)
  {
    var s0: State<O> := Initial(1);
    assert IsRun(app, s0, []) && After(app, s0, []) == s0;
    var s1 := Do(app, s0, Arrive(0, r));
    NextState(app, s0, s0, Arrive(0, r));
    var s4 := Attempted(app, s0, s1);
    NextState(app, s0, s4, Crash);
    var s5 := Do(app, s4, Crash);
    var s8 := Attempted(app, s0, s5);
    assert AppliedTwice(s8);
  }

  predicate AppliedTwice<O>(s: State<O>) {
    |s.broker.log| == 1 && |s.broker.committed| == 1 && s.broker.committed[0] == 0 && Offsets(s.broker.log[0]) == [0, 0]
  }

  /** Start, process the first input, flush it. */
  lemma Attempted<O(!new)>(app: E.App<O>, s0: State<O>, s: State<O>) returns (s': State<O>)
    requires Reaches(app, s0, s) && Shaped(s) && s.client.Down? && |s.broker.inputs| == 1 && s.broker.inputs[0] != []
             && s.broker.committed == [0]
    ensures Reaches(app, s0, s') && Shaped(s') && s'.client.Up?
    ensures s'.broker.inputs == s.broker.inputs && s'.broker.committed == [0]
    ensures |s'.broker.log| == 1 && Offsets(s'.broker.log[0]) == Offsets(s.broker.log[0]) + [0]
  {
    NextState(app, s0, s, Start);
    var a := Do(app, s, Start);
    NextState(app, s0, a, Process(0));
    var b := Do(app, a, Process(0));
    NextState(app, s0, b, Flush(0));
    s' := Do(app, b, Flush(0));
    OffsetsSnoc(s.broker.log[0], b.client.unflushed[0][0]);
  }

  class Client<O(!new)> {
    const app: E.App<O>
    const topic: string
    const committer: OC.Committer
    ghost const origin: State<O>
    var broker: Broker<O>
    var tables: seq<Contents>
    var position: seq<nat>
    var unflushed: seq<seq<Entry>>
    var outs: seq<Output<O>>
    var running: bool
    ghost var ready: seq<nat>
    ghost var producing: bool

    ghost function S(): State<O>
      reads this
    {
      State(broker, if running then Up(tables, position, unflushed, outs, ready, producing) else Down)
    }

    /** The committer holds, per partition, the last offset below `ready`, unless that one is committed. */
    ghost predicate Remembers()
      reads this, committer
    {
      && committer.Valid() && |ready| == |broker.committed|
      && forall p: nat :: p < |ready| ==>
           var m := OC.MaxOffset(committer.added, (topic, p));
           ready[p] == if m.Some? then m.value + 1 else broker.committed[p]
    }

    ghost predicate Sound()
      reads this
    {
      E.NonEmpty(app) && Reaches(app, origin, S()) && Inv(app, S())
    }

    ghost predicate Valid()
      reads this, committer
    {
      Sound() && (running ==> Remembers())
    }

    constructor (app: E.App<O>, topic: string, broker: Broker<O>, committer: OC.Committer)
      requires E.NonEmpty(app) && Inv(app, State(broker, Down)) && committer.Valid() && committer.added == []
      ensures Valid() && running && !producing && outs == [] && this.app == app && origin == State(broker, Down)
      ensures S() == Do(app, origin, Start)
    {
      this.app, this.topic, this.committer, this.broker, origin := app, topic, committer, broker, State(broker, Down);
      var n := |broker.inputs|;
      tables := seq(n, p requires 0 <= p < n => Restore(broker, p));
      position, unflushed, outs := broker.committed, seq(n, _ => []), [];
      running, ready, producing := true, broker.committed, false;
      new;
      assert IsRun(app, origin, []) && After(app, origin, []) == origin;
      Advance(app, origin, origin, Start);
    }

    method ProcessRecord(p: nat)
      requires Valid() && running && !producing && p < |broker.inputs| && position[p] < |broker.inputs[p]|
      modifies this`tables, this`position, this`unflushed, this`outs
      ensures Valid() && position == old(position)[p := old(position)[p] + 1]
    {
      Advance(app, origin, S(), Step.Process(p));
      var r, o := broker.inputs[p][position[p]], position[p];
      var acc := app.agg(r.key, r.value, if r.key in tables[p] then Some(tables[p][r.key]) else None);
      unflushed := unflushed[p := unflushed[p] + [Entry(o, Mutation(r.key, Some(acc)))]];
      outs := outs + Sent(p, o, app.outs(r.key, acc));
      tables, position := tables[p := tables[p][r.key := acc]], position[p := o + 1];
    }

    /** Neither inputs nor committed offsets have moved. */
    ghost predicate SameOffsets(before: Broker<O>)
      reads this`broker
    {
      broker.inputs == before.inputs && broker.committed == before.committed
    }

    /** Flushes one partition's collector, up to `limit` records. */
    method FlushPartition(p: nat, limit: Option<nat>) returns (ok: bool)
      requires Valid() && running && !producing && p < |unflushed|
      modifies this`broker, this`unflushed
      ensures Valid() && (ok ==> unflushed == old(unflushed)[p := []]) && |unflushed| == |old(unflushed)|
              && SameOffsets(old(broker))
      ensures limit.None? ==> ok
    {
      var n := 0;
      while unflushed[p] != []
        invariant Valid() && |unflushed| == |old(unflushed)| && unflushed == old(unflushed)[p := unflushed[p]]
        invariant SameOffsets(old(broker))
        decreases |unflushed[p]|
      {
        if limit == Some(n) { return false; }
        Advance(app, origin, S(), Step.Flush(p));
        broker := broker.(log := broker.log[p := broker.log[p] + [unflushed[p][0]]]);
        unflushed := unflushed[p := unflushed[p][1..]];
        n := n + 1;
      }
      ok := true;
    }

    /** `PostBatch`: every collector is flushed. */
    method FlushAll(limit: Option<nat>) returns (ok: bool)
      requires Valid() && running && !producing
      modifies this`broker, this`unflushed
      ensures Valid() && (ok ==> forall p :: 0 <= p < |unflushed| ==> unflushed[p] == [])
              && SameOffsets(old(broker))
      ensures limit.None? ==> ok
    {
      for p := 0 to |unflushed|
        invariant Valid() && |unflushed| == |old(unflushed)| && SameOffsets(old(broker))
        invariant forall q :: 0 <= q < p ==> unflushed[q] == []
      {
        ok := FlushPartition(p, limit);
        if !ok { return; }
      }
      ok := true;
    }

    /** `ProduceSync` of the batch's outputs. */
    method ProduceAll(limit: Option<nat>) returns (ok: bool)
      requires Valid() && running && producing
      modifies this`broker, this`outs
      ensures Valid() && (ok ==> outs == []) && SameOffsets(old(broker))
      ensures ok <==> limit.None? || limit.value >= |old(outs)|
    {
      var n := 0;
      while outs != []
        invariant Valid() && SameOffsets(old(broker))
        invariant n + |outs| == |old(outs)| && (limit.Some? ==> n <= limit.value)
        decreases |outs|
      {
        if limit == Some(n) { return false; }
        Advance(app, origin, S(), Step.Produce);
        broker := broker.(sinks := broker.sinks + [outs[0]]);
        outs := outs[1..];
        n := n + 1;
      }
      ok := true;
    }

    /** Nothing is in flight: every processed record has been handed to the committer. */
    ghost predicate Quiet()
      reads this
    {
      !producing && ready == position && outs == [] && forall p :: 0 <= p < |unflushed| ==> unflushed[p] == []
    }

    /** The records of a batch end where their partitions now stand. */
    ghost predicate Fetched(from: seq<nat>, to: seq<nat>, records: seq<OC.Record>) {
      && |from| == |to|
      && forall p: nat :: p < |to| ==>
           var m := OC.MaxOffset(records, (topic, p));
           from[p] <= to[p] && (m.None? ==> to[p] == from[p]) && (m.Some? ==> to[p] > from[p] && m.value == to[p] - 1)
    }

    method ProcessBatch(records: seq<nat>, failAt: Option<nat>) returns (ok: bool, fetched: seq<OC.Record>)
      requires Valid() && running && !producing
      modifies this`tables, this`position, this`unflushed, this`outs
      ensures Valid() && Fetched(old(position), position, fetched) && (ok <==> !Fails(records, failAt))
      ensures ok ==> position == E.Consumed(broker.inputs, old(position), records)
    {
      ghost var from := position;
      fetched := [];
      assert Underway(from, records, 0, fetched);
      for i := 0 to |records|
        invariant Valid() && Underway(from, records, i, fetched) && (failAt.Some? ==> i <= failAt.value)
      {
        if failAt.Some? && failAt.value == i { return false, fetched; }
        E.ConsumedNext(broker.inputs, from, records, i);
        fetched := ProcessFetched(records[i], from, fetched);
      }
      assert records[..|records|] == records;
      ok := true;
    }

    /** The first `i` records of the batch have been consumed, and `fetched` are those that were there. */
    ghost predicate Underway(from: seq<nat>, records: seq<nat>, i: nat, fetched: seq<OC.Record>)
      reads this
      requires i <= |records|
    {
      Fetched(from, position, fetched) && position == E.Consumed(broker.inputs, from, records[..i])
    }

    method ProcessFetched(p: nat, ghost from: seq<nat>, before: seq<OC.Record>) returns (fetched: seq<OC.Record>)
      requires Valid() && running && !producing && Fetched(from, position, before)
      modifies this`tables, this`position, this`unflushed, this`outs
      ensures Valid() && Fetched(from, position, fetched)
      ensures position == E.ConsumedOne(broker.inputs, old(position), p)
    {
      fetched := before;
      if p < |broker.inputs| && position[p] < |broker.inputs[p]| {
        ghost var was := position;
        fetched := before + [OC.Record((topic, p), position[p])];
        ProcessRecord(p);
        FetchedNext(from, was, before, p);
      }
    }

    lemma FetchedNext(from: seq<nat>, to: seq<nat>, records: seq<OC.Record>, p: nat)
      requires Fetched(from, to, records) && p < |to|
      ensures Fetched(from, to[p := to[p] + 1], records + [OC.Record((topic, p), to[p])])
    {
      var r := OC.Record((topic, p), to[p]);
      assert (records + [r])[..|records|] == records;
    }

    /** The batch's records go to the committer. */
    method Remember(fetched: seq<OC.Record>)
      requires Valid() && running && producing && outs == [] && Fetched(ready, position, fetched)
      modifies this`ready, this`producing, committer`pending, committer`added
      ensures Valid() && Quiet()
    {
      forall p: nat | p < |unflushed| ensures unflushed[p] == [] {
        assert TaskOk(app, broker, S().client, p);
      }
      Advance(app, origin, S(), Step.Add);
      ghost var before := committer.added;
      committer.Add(fetched);
      forall p: nat | p < |ready|
        ensures var m := OC.MaxOffset(committer.added, (topic, p));
                position[p] == if m.Some? then m.value + 1 else broker.committed[p]
      {
        OC.MaxOffsetConcat(before, fetched, (topic, p));
      }
      ready, producing := position, false;
    }

    method Stop()
      requires Valid() && running
      modifies this`running
      ensures Valid() && !running
    {
      Advance(app, origin, S(), Step.Crash);
      running := false;
    }

    /** What a commit request moves: the offsets that were not committed yet, all or those taken. */
    ghost predicate Moved(before: seq<nat>, answer: OC.Answer)
      reads this
    {
      && |before| == |broker.committed| == |position|
      && forall p: nat :: p < |position| ==>
           broker.committed[p]
           == if answer.Accepted? || (topic, p) in answer.taken then position[p] else before[p]
    }

    /** The broker takes the offsets it is sent, all or some. */
    method CommitOffsets(answer: OC.Answer, now: int) returns (ok: bool)
      requires Valid() && running && Quiet()
      modifies this`broker, committer`pending, committer`added, committer`last
      ensures Valid() && Quiet() && broker.inputs == old(broker.inputs) && Moved(old(broker.committed), answer)
      ensures committer.last == if old(committer.added) != [] && answer.Accepted? then now else old(committer.last)
    {
      var offsets;
      ghost var added := committer.added;
      ok, offsets := committer.Commit(answer, now, map[]);
      forall p: nat | p < |ready|
        ensures Lookup(offsets, (topic, p))
                == var m := OC.MaxOffset(added, (topic, p));
                   if m.Some? && (answer.Accepted? || (topic, p) in answer.taken) then Some(ready[p]) else None
      {
      }
      Take(offsets);
    }

    /** The broker's side of a commit request. */
    method Take(offsets: map<OC.TopicPartition, int>)
      requires Sound() && running && Quiet()
      requires forall p: nat :: p < |ready| && (topic, p) in offsets ==> offsets[(topic, p)] == ready[p]
      modifies this`broker
      ensures Sound() && Quiet() && broker.inputs == old(broker.inputs) && |broker.committed| == |old(broker.committed)|
      ensures forall p: nat :: p < |broker.committed| ==>
                broker.committed[p] == if (topic, p) in offsets then position[p] else old(broker.committed[p])
    {
      for p := 0 to |broker.inputs|
        invariant Sound() && Quiet() && |broker.inputs| == |ready| && broker.inputs == old(broker.inputs)
        invariant |broker.committed| == |old(broker.committed)| == |ready|
        invariant forall q: nat :: q < |broker.committed| ==>
                    broker.committed[q]
                    == if q < p && (topic, q) in offsets then position[q] else old(broker.committed[q])
      {
        if (topic, p) in offsets {
          Advance(app, origin, S(), Step.Commit(p));
          broker := broker.(committed := broker.committed[p := offsets[(topic, p)]]);
        }
      }
    }

    /** Commits when the interval has passed; then the committed offsets are the positions, unless the broker
        refuses. */
    method CommitWhenDue(now: int, answer: OC.Answer)
      requires Valid() && running && Quiet()
      modifies this`broker, committer`pending, committer`added, committer`last
      ensures Valid() && Quiet() && broker.inputs == old(broker.inputs)
      ensures Ticked(old(broker.committed), old(committer.last), now, answer)
    {
      var due := committer.Due(now);
      if due { var ok := CommitOffsets(answer, now); }
    }

    /** Before the interval has passed nothing is committed. After it, everything processed is, or what the
        broker takes. The interval starts again only with a commit that succeeds. */
    ghost predicate Ticked(before: seq<nat>, last: int, now: int, answer: OC.Answer)
      reads this, committer
    {
      && (if now - last >= committer.interval then Moved(before, answer) else broker.committed == before)
      && (committer.last == last || (committer.last == now && answer.Accepted? && now - last >= committer.interval))
    }

    /** One batch: process, flush, produce, remember, and commit when due. A failure stops the loop. */
    method HandleBatch(records: seq<nat>, failAt: Option<nat>, flushed: Option<nat>, produced: Option<nat>, now: int,
                       answer: OC.Answer)
      requires Valid() && running && Quiet()
      modifies this, committer`pending, committer`added, committer`last
      ensures Valid() && (running ==> Quiet()) && broker.inputs == old(broker.inputs)
      ensures failAt.None? && flushed.None? && produced.None? ==>
                && running && position == E.Consumed(old(broker.inputs), old(position), records)
                && Ticked(old(broker.committed), old(committer.last), now, answer)
      ensures Fails(records, failAt) ==> !running
      ensures !running ==> broker.committed == old(broker.committed)
    {
      var ok, fetched := ProcessBatch(records, failAt);
      if !ok { Stop(); return; }
      ok := FlushAll(flushed);
      if !ok { Stop(); return; }
      ok := Publish(produced, fetched);
      if !ok { Stop(); return; }
      CommitWhenDue(now, answer);
    }

    /** After the flush: produce, then remember. */
    method Publish(produced: Option<nat>, fetched: seq<OC.Record>) returns (ok: bool)
      requires Valid() && running && !producing && Fetched(ready, position, fetched)
      requires forall p :: 0 <= p < |unflushed| ==> unflushed[p] == []
      modifies this`broker, this`outs, this`ready, this`producing, committer`pending, committer`added
      ensures Valid() && (ok ==> Quiet()) && SameOffsets(old(broker))
      ensures ok <==> produced.None? || produced.value >= |old(outs)|
    {
      Advance(app, origin, S(), Step.Flushed);
      producing := true;
      ok := ProduceAll(produced);
      if ok { Remember(fetched); }
    }

    /** Upstream producers append inputs while the loop is busy. */
    method Receive(arrivals: seq<(nat, E.In)>)
      requires Valid() && running && Quiet()
      modifies this`broker
      ensures Valid() && Quiet() && broker == old(broker).(inputs := E.Arrived(old(broker.inputs), arrivals))
    {
      for i := 0 to |arrivals|
        invariant Valid() && Quiet() && broker == old(broker).(inputs := E.Arrived(old(broker.inputs), arrivals[..i]))
      {
        E.ArrivedNext(old(broker.inputs), arrivals, i);
        var (p, r) := arrivals[i];
        if p < |broker.inputs| {
          Advance(app, origin, S(), Step.Arrive(p, r));
          broker := broker.(inputs := broker.inputs[p := broker.inputs[p] + [r]]);
        }
      }
      assert arrivals[..|arrivals|] == arrivals;
    }

    /** One poll. */
    method HandlePoll(poll: Poll)
      requires Valid() && running && Quiet()
      modifies this, committer`pending, committer`added, committer`last
      ensures Valid() && (running ==> Quiet()) && broker.inputs == old(broker.inputs)
      ensures Succeeds(poll) ==>
                && running && position == E.Consumed(old(broker.inputs), old(position), Records(poll))
                && Ticked(old(broker.committed), old(committer.last), poll.now, poll.answer)
      ensures poll.Closed? ==> !running && broker.committed == old(broker.committed)
      ensures poll.Cancelled? ==> !running && position == old(position) && Moved(old(broker.committed), poll.answer)
      ensures poll.Batch? && Fails(poll.records, poll.failAt) ==> !running && broker.committed == old(broker.committed)
    {
      match poll {
        case Closed => Stop();
        case Cancelled(answer) =>
          var ok := CommitOffsets(answer, 0);
          Stop();
        case Empty(now, answer) =>
          CommitWhenDue(now, answer);
        case Batch(records, failAt, flushed, produced, now, answer) =>
          HandleBatch(records, failAt, flushed, produced, now, answer);
      }
    }

    /** One pass: take what has arrived, poll. */
    method HandleRound(round: Round)
      requires Valid() && running && Quiet()
      modifies this, committer`pending, committer`added, committer`last
      ensures Valid() && (running ==> Quiet()) && broker.inputs == E.Arrived(old(broker.inputs), round.arrivals)
      ensures Succeeds(round.poll) ==>
                && running && position == E.Consumed(broker.inputs, old(position), Records(round.poll))
                && Ticked(old(broker.committed), old(committer.last), round.poll.now, round.poll.answer)
      ensures round.poll.Cancelled? ==>
                !running && position == old(position) && Moved(old(broker.committed), round.poll.answer)
    {
      Receive(round.arrivals);
      HandlePoll(round.poll);
    }

    /** What the first `n` rounds have done. */
    ghost predicate Ran(inputs: seq<seq<E.In>>, from: seq<nat>, last: int, rounds: seq<Round>, n: nat)
      reads this, committer
      requires n <= |rounds|
    {
      && (AllSucceed(rounds, n) ==> running && LastAmong(rounds, n, last, committer.last))
      && (AllSucceed(rounds, n) || (n == |rounds| && EndsInShutdown(rounds)) ==>
            position == PositionAfter(inputs, from, rounds, n))
      && (n == |rounds| && (EndsInShutdown(rounds) || EndsInCommit(rounds, last, committer.interval)) ==>
            broker.committed == position)
    }

    method NextRound(ghost inputs: seq<seq<E.In>>, ghost from: seq<nat>, ghost last: int, rounds: seq<Round>, n: nat)
      requires Valid() && running && Quiet() && n < |rounds|
      requires broker.inputs == InputsAfter(inputs, rounds, n) && Ran(inputs, from, last, rounds, n)
      modifies this, committer`pending, committer`added, committer`last
      ensures Valid() && (running ==> Quiet())
      ensures broker.inputs == InputsAfter(inputs, rounds, n + 1) && Ran(inputs, from, last, rounds, n + 1)
    {
      HandleRound(rounds[n]);
    }

    /** `runALO`, with inputs arriving before every poll. Whatever happens, the broker ends in a state the machine
        reaches, with at-least-once over all inputs that arrived in the `n` rounds it ran. While the polls succeed,
        everything they fetch is consumed. If the script ends in a shutdown, or in a poll by which the interval has
        passed since every earlier one, and the broker accepts that commit, everything consumed is committed. */
    method RunALO(rounds: seq<Round>) returns (n: nat)
      requires Valid() && running && Quiet()
      modifies this, committer`pending, committer`added, committer`last
      ensures Valid() && Reaches(app, origin, S())
      ensures forall p :: 0 <= p < |broker.inputs| ==> PartitionOk(app, broker, p)
      ensures Inv(app, origin) && NothingInvented(app, origin) ==> NothingInvented(app, S())
      ensures n <= |rounds| && broker.inputs == InputsAfter(old(broker.inputs), rounds, n)
      ensures n == |rounds| || !running
      ensures AllSucceed(rounds, |rounds|) ==> running
      ensures AllSucceed(rounds, |rounds|) || EndsInShutdown(rounds) ==>
                n == |rounds| && position == PositionAfter(old(broker.inputs), old(position), rounds, n)
      ensures EndsInShutdown(rounds) || EndsInCommit(rounds, old(committer.last), committer.interval) ==>
                broker.committed == position
    {
      n := 0;
      ghost var inputs, from, last := broker.inputs, position, committer.last;
      while n < |rounds| && running
        invariant n <= |rounds| && Valid() && (running ==> Quiet())
        invariant broker.inputs == InputsAfter(inputs, rounds, n) && Ran(inputs, from, last, rounds, n)
        decreases |rounds| - n
      {
        NextRound(inputs, from, last, rounds, n);
        n := n + 1;
      }
      if Inv(app, origin) && NothingInvented(app, origin) { ReachedInventsNothing(app, origin, S()); }
    }
  }

  /** What arrives before a poll, and the poll. */
  datatype Round = Round(arrivals: seq<(nat, E.In)>, poll: Poll)

  /** The inputs after the arrivals of the first `n` rounds. */
  function InputsAfter(inputs: seq<seq<E.In>>, rounds: seq<Round>, n: nat): seq<seq<E.In>>
    requires n <= |rounds|
  {
    if n == 0 then inputs else E.Arrived(InputsAfter(inputs, rounds, n - 1), rounds[n - 1].arrivals)
  }

  predicate AllSucceed(rounds: seq<Round>, n: nat)
    requires n <= |rounds|
  {
    forall i :: 0 <= i < n ==> Succeeds(rounds[i].poll)
  }

  /** Where the partitions stand after the first `n` rounds: every record fetched has been consumed. */
  function PositionAfter(inputs: seq<seq<E.In>>, position: seq<nat>, rounds: seq<Round>, n: nat): seq<nat>
    requires n <= |rounds|
  {
    if n == 0 then position
    else E.Consumed(InputsAfter(inputs, rounds, n), PositionAfter(inputs, position, rounds, n - 1),
                    Records(rounds[n - 1].poll))
  }

  /** After polls that succeed the context is cancelled, and the broker accepts the last commit. */
  predicate EndsInShutdown(rounds: seq<Round>) {
    && rounds != [] && AllSucceed(rounds, |rounds| - 1)
    && rounds[|rounds| - 1].poll == Cancelled(OC.Accepted)
  }

  /** All polls succeed, and at the last one the interval has passed since the start and since every earlier poll,
      and the broker accepts the commit. */
  predicate EndsInCommit(rounds: seq<Round>, last: int, interval: int) {
    && rounds != [] && AllSucceed(rounds, |rounds|)
    && var poll := rounds[|rounds| - 1].poll;
       && poll.answer.Accepted? && poll.now - last >= interval
       && forall i :: 0 <= i < |rounds| - 1 ==> poll.now - rounds[i].poll.now >= interval
  }

  /** The interval started at the beginning or at one of the first `n` polls. */
  predicate LastAmong(rounds: seq<Round>, n: nat, first: int, last: int)
    requires n <= |rounds| && AllSucceed(rounds, n)
  {
    last == first || exists i :: 0 <= i < n && last == rounds[i].poll.now
  }
}
