/** The `runEOS` loop as the code runs it, against a broker whose answers arrive as a script. Every
    execution is a run of the machine in `Eos`, so exactly-once holds of it. */
module EosLoop {
  import opened Wrappers
  import opened Changelog
  import opened Eos

  /** The ways `End(TryCommit)` can go: committed, aborted by the session, or an error that leaves the
      outcome unknown, whether or not the request reached the coordinator. */
  datatype Outcome = Commits | SessionAborts | UnknownLost | UnknownReached

  /** One return of `PollFetches` and what then happens to it. A batch names the partition of each fetched
      record in the order of processing; `failAt` records are processed before one fails; `produced`
      records reach the log before one fails. `late` says that the transaction deadline has passed. */
  datatype Poll =
    | Closed
    | Cancelled
    | Empty(late: bool, outcome: Outcome)
    | Batch(records: seq<nat>, failAt: Option<nat>, hookOk: bool, produced: Option<nat>, late: bool, outcome: Outcome)

  /** The commit request failed without an answer. */
  predicate Unknown(outcome: Outcome) { outcome.UnknownLost? || outcome.UnknownReached? }

  /** A poll that returns, whose records are processed and produced, and whose commit, if one is due, is
      acknowledged. */
  predicate Succeeds(poll: Poll) {
    match poll
    case Closed => false
    case Cancelled => false
    case Empty(late, outcome) => late ==> outcome.Commits?
    case Batch(_, failAt, hookOk, produced, late, outcome) =>
      failAt.None? && hookOk && produced.None? && (late ==> outcome.Commits?)
  }

  /** Processing or the post-batch hook fails. */
  predicate Fails(records: seq<nat>, failAt: Option<nat>, hookOk: bool) {
    !hookOk || (failAt.Some? && failAt.value < |records|)
  }

  /** A poll that ends the loop. */
  predicate Stops(poll: Poll) {
    poll.Closed? || poll.Cancelled? || (poll.Batch? && Fails(poll.records, poll.failAt, poll.hookOk))
  }

  predicate Late(poll: Poll) { (poll.Empty? || poll.Batch?) && poll.late }

  function Records(poll: Poll): seq<nat> { if poll.Batch? then poll.records else [] }

  predicate LastIs<O(==)>(b: Broker<O>, status: Status) {
    b.txns != [] && b.txns[|b.txns| - 1].status == status
  }

  ghost predicate Reaches<O(!new)>(app: App<O>, s: State<O>, s': State<O>) {
    exists steps :: IsRun(app, s, steps) && After(app, s, steps) == s'
  }

  lemma {:induction false} RunSnoc<O(!new)>(app: App<O>, s: State<O>, steps: seq<Step<O>>, step: Step<O>)
    requires IsRun(app, s, steps) && Enabled(After(app, s, steps), step)
    ensures IsRun(app, s, steps + [step]) && After(app, s, steps + [step]) == Do(app, After(app, s, steps), step)
    decreases |steps|
  {
    if steps == [] {
      assert steps + [step] == [step] && [step][1..] == [];
    } else {
      assert (steps + [step])[1..] == steps[1..] + [step];
      RunSnoc(app, Do(app, s, steps[0]), steps[1..], step);
    }
  }

  /** The machine never stops being reachable and never loses its invariant. */
  lemma Advance<O(!new)>(app: App<O>, s0: State<O>, s: State<O>, step: Step<O>)
    requires NonEmpty(app) && Reaches(app, s0, s) && Inv(app, s) && Enabled(s, step)
    ensures Reaches(app, s0, Do(app, s, step)) && Inv(app, Do(app, s, step))
  {
    var steps :| IsRun(app, s0, steps) && After(app, s0, steps) == s;
    RunSnoc(app, s0, steps, step);
    StepKeeps(app, s, step);
  }

  function Only<O>(items: seq<Item<O>>, writes: bool): seq<Item<O>> {
    if items == [] then []
    else
      var last := items[|items| - 1];
      Only(items[..|items| - 1], writes) + if last.Write? == writes then [last] else []
  }

  lemma {:induction false} OnlyCounts<O>(items: seq<Item<O>>)
    ensures |Only(items, false)| + |Only(items, true)| == |items|
  {
    if items != [] { OnlyCounts(items[..|items| - 1]); }
  }

  /** Sink records first, then changelog records: no channel notices. */
  lemma {:induction false} SinksThenLogs<O>(items: seq<Item<O>>, c: Channel)
    ensures Project(Only(items, false) + Only(items, true), c) == Project(items, c)
  {
    ProjectConcat(Only(items, false), Only(items, true), c);
    OnlyChannel(items, c);
  }

  lemma {:induction false} OnlyChannel<O>(items: seq<Item<O>>, c: Channel)
    ensures Project(Only(items, c.Log?), c) == Project(items, c) && Project(Only(items, !c.Log?), c) == []
  {
    if items != [] {
      var init, last := items[..|items| - 1], items[|items| - 1];
      OnlyChannel(init, c);
      ProjectConcat(Only(init, c.Log?), if last.Write? == c.Log? then [last] else [], c);
      ProjectConcat(Only(init, !c.Log?), if last.Write? == !c.Log? then [last] else [], c);
      assert [last][..0] == [];
    }
  }

  class Session<O(!new)> {
    const app: App<O>
    ghost const origin: State<O>
    var broker: Broker<O>
    var tables: seq<Contents>
    var position: seq<nat>
    var pending: seq<Item<O>>
    var mutated: bool
    var running: bool
    ghost var phase: Phase<O>

    ghost function S(): State<O>
      reads this
    {
      State(broker, if running then Up(tables, position, pending, mutated, phase) else Down)
    }

    ghost predicate Valid()
      reads this
    {
      NonEmpty(app) && Reaches(app, origin, S()) && Inv(app, S())
    }

    /** A process that starts on a settled broker: `openTask` restores every partition. */
    constructor (app: App<O>, broker: Broker<O>)
      requires NonEmpty(app) && Inv(app, State(broker, Down)) && Settled(broker.txns)
      ensures Valid() && this.app == app && origin == State(broker, Down) && S() == Do(app, origin, Start)
    {
      this.app, this.broker, origin := app, broker, State(broker, Down);
      tables := seq(|broker.inputs|, p requires 0 <= p < |broker.inputs| => Restore(broker, p));
      position, pending, mutated, running, phase := broker.committed, [], false, true, Idle;
      new;
      assert IsRun(app, origin, []) && After(app, origin, []) == origin;
      Advance(app, origin, origin, Start);
    }

    method EndLast(status: Status)
      requires broker.txns != []
      modifies this`broker
      ensures broker == old(broker).(txns := SetLast(old(broker).txns,
                                                     old(broker).txns[|old(broker).txns| - 1].(status := status)))
    {
      broker := broker.(txns := broker.txns[..|broker.txns| - 1] + [broker.txns[|broker.txns| - 1].(status := status)]);
    }

    method Begin()
      requires Valid() && running && phase.Idle?
      modifies this`broker, this`mutated, this`phase
      ensures Valid() && phase.Polling? && !mutated && pending == []
      ensures broker == old(broker).(txns := old(broker).txns + [Txn(Open, [])])
    {
      Advance(app, origin, S(), Step.Begin);
      broker := broker.(txns := broker.txns + [Txn(Open, [])]);
      mutated, phase := false, Polling;
    }

    /** `process`: the aggregate reads and writes its task's store and forwards the new accumulator. */
    method ProcessRecord(p: nat)
      requires Valid() && running && phase.Polling? && p < |broker.inputs| && position[p] < |broker.inputs[p]|
      modifies this`tables, this`position, this`pending, this`mutated
      ensures Valid() && mutated && position == old(position)[p := old(position)[p] + 1]
    {
      ghost var next := Do(app, S(), Step.Process(p));
      Advance(app, origin, S(), Step.Process(p));
      var r := broker.inputs[p][position[p]];
      var acc := app.agg(r.key, r.value, if r.key in tables[p] then Some(tables[p][r.key]) else None);
      pending := pending + ([Write(p, Mutation(r.key, Some(acc)))] + Emitted(p, app.outs(r.key, acc)));
      tables := tables[p := tables[p][r.key := acc]];
      position, mutated := position[p := position[p] + 1], true;
      assert S() == next;
    }

    method ProcessFetched(p: nat)
      requires Valid() && running && phase.Polling?
      modifies this`tables, this`position, this`pending, this`mutated
      ensures Valid() && position == ConsumedOne(broker.inputs, old(position), p)
      ensures (old(mutated) ==> mutated) && (position != old(position) ==> mutated)
    {
      if p < |broker.inputs| && position[p] < |broker.inputs[p]| { ProcessRecord(p); }
    }

    /** The polled batch; records that are not there are not fetched. */
    method ProcessBatch(records: seq<nat>, failAt: Option<nat>) returns (ok: bool)
      requires Valid() && running && phase.Polling?
      modifies this`tables, this`position, this`pending, this`mutated
      ensures Valid() && running && phase.Polling? && (ok <==> !Fails(records, failAt, true))
      ensures ok ==> position == Consumed(broker.inputs, old(position), records)
      ensures position != old(position) ==> mutated
    {
      ghost var from := position;
      assert Underway(from, records, 0);
      ok := true;
      for i := 0 to |records|
        invariant Valid() && Underway(from, records, i) && (failAt.Some? ==> i <= failAt.value)
      {
        if failAt.Some? && failAt.value == i { return false; }
        ProcessNext(records, i, from);
      }
      assert records[..|records|] == records;
    }

    /** The first `i` records of the batch have been consumed. */
    ghost predicate Underway(from: seq<nat>, records: seq<nat>, i: nat)
      reads this
      requires i <= |records|
    {
      position == Consumed(broker.inputs, from, records[..i]) && (position != from ==> mutated)
    }

    method ProcessNext(records: seq<nat>, i: nat, ghost from: seq<nat>)
      requires Valid() && running && phase.Polling? && i < |records| && Underway(from, records, i)
      modifies this`tables, this`position, this`pending, this`mutated
      ensures Valid() && Underway(from, records, i + 1)
    {
      ConsumedNext(broker.inputs, from, records, i);
      ProcessFetched(records[i]);
    }

    method Drain() returns (queue: seq<Item<O>>)
      requires Valid() && running && phase.Polling? && mutated
      modifies this`pending, this`phase
      ensures Valid() && phase == Producing(queue) && pending == [] && |queue| == |old(pending)|
    {
      queue := Only(pending, false) + Only(pending, true);
      OnlyCounts(pending);
      forall c ensures Project(queue, c) == Project(pending, c) { SinksThenLogs(pending, c); }
      Advance(app, origin, S(), Step.Drain(queue));
      pending, phase := [], Producing(queue);
    }

    method ProduceOne(item: Item<O>, ghost rest: seq<Item<O>>)
      requires Valid() && running && phase == Producing([item] + rest)
      modifies this`broker, this`phase
      ensures Valid() && phase == Producing(rest) && SameOffsets(old(broker))
    {
      assert ([item] + rest)[1..] == rest;
      Advance(app, origin, S(), Step.Produce);
      var t := broker.txns[|broker.txns| - 1];
      broker := broker.(txns := broker.txns[..|broker.txns| - 1] + [t.(items := t.items + [item])]);
      phase := Producing(rest);
    }

    /** `DrainChangelogRecords` and `ProduceSync` of sinks and changelog in one request, of which only the
        first records may get through. */
    method DrainAndProduce(limit: Option<nat>) returns (ok: bool)
      requires Valid() && running && phase.Polling? && mutated
      modifies this`broker, this`pending, this`phase
      ensures Valid() && (phase.Polling? || phase.Producing?) && (ok ==> phase.Polling? && pending == [])
              && SameOffsets(old(broker))
      ensures ok <==> limit.None? || limit.value >= |old(pending)|
    {
      ghost var before := broker;
      var queue := Drain();
      assert queue[0..] == queue;
      for n := 0 to |queue|
        invariant Valid() && phase == Producing(queue[n..]) && pending == [] && SameOffsets(before)
        invariant limit.Some? ==> n <= limit.value
      {
        if limit.Some? && limit.value == n { return false; }
        assert queue[n..] == [queue[n]] + queue[n + 1..];
        ProduceOne(queue[n], queue[n + 1..]);
      }
      Produced();
      ok := true;
    }

    ghost method Produced()
      requires Valid() && running && phase == Producing([])
      modifies this`phase
      ensures Valid() && phase.Polling?
    {
      Advance(app, origin, S(), Step.Produced);
      phase := Polling;
    }

    /** Neither inputs nor committed offsets have moved. */
    ghost predicate SameOffsets(before: Broker<O>)
      reads this`broker
    {
      broker.inputs == before.inputs && broker.committed == before.committed
    }

    /** The loop has been left with nothing committed, and the transaction has ended as `status`. */
    ghost predicate Left(before: Broker<O>, status: Status)
      reads this`broker, this`running
    {
      !running && SameOffsets(before) && LastIs(broker, status)
    }

    /** Leaves the loop; what is open stays for the coordinator. */
    method Stop()
      requires Valid() && running
      modifies this`running
      ensures Valid() && !running
    {
      Advance(app, origin, S(), Step.Crash);
      running := false;
    }

    /** `End(TryAbort)` before leaving the loop. */
    method AbortAndStop()
      requires Valid() && running && (phase.Polling? || phase.Producing?)
      modifies this`running, this`broker
      ensures Valid() && Left(old(broker), Aborted)
    {
      Stop();
      Advance(app, origin, S(), Step.Resolve);
      EndLast(Aborted);
    }

    /** `commitEOSTransaction`. */
    method CommitTransaction(outcome: Outcome) returns (ok: bool)
      requires Valid() && running && phase.Polling? && mutated && pending == []
      modifies this`running, this`broker, this`phase
      ensures Valid() && running == ok && (ok ==> phase.Idle?) && broker.inputs == old(broker.inputs)
      ensures ok == outcome.Commits?
      ensures ok ==> broker.committed == position && LastIs(broker, Committed)
      ensures outcome.SessionAborts? ==> Left(old(broker), Aborted)
      ensures outcome.UnknownLost? ==> Left(old(broker), Open)
      ensures outcome.UnknownReached? ==> Left(old(broker), Prepared(position))
    {
      if outcome.SessionAborts? { AbortAndStop(); return false; }
      if outcome.UnknownLost? { Stop(); return false; }
      Prepare();
      if outcome.UnknownReached? { Stop(); return false; }
      Complete();
      ok := true;
    }

    method Prepare()
      requires Valid() && running && phase.Polling? && mutated && pending == []
      modifies this`broker, this`phase
      ensures Valid() && phase.Ending? && LastIs(broker, Prepared(position)) && SameOffsets(old(broker))
    {
      Advance(app, origin, S(), Step.SendCommit);
      EndLast(Prepared(position));
      phase := Ending;
    }

    method Complete()
      requires Valid() && running && phase.Ending? && LastIs(broker, Prepared(position))
      modifies this`broker, this`phase
      ensures Valid() && phase.Idle? && broker.committed == position && broker.inputs == old(broker.inputs)
              && LastIs(broker, Committed)
    {
      Advance(app, origin, S(), Step.Complete);
      EndLast(Committed);
      broker := broker.(committed := position);
      Acknowledge();
    }

    ghost method Acknowledge()
      requires Valid() && running && phase.Ending? && LastIs(broker, Committed)
      modifies this`phase
      ensures Valid() && phase.Idle?
    {
      Advance(app, origin, S(), Step.Acknowledge);
      phase := Idle;
    }

    /** An interval without records: `End(TryAbort)` and go on. */
    method AbortEmptyInterval()
      requires Valid() && running && phase.Polling? && !mutated
      modifies this`broker, this`phase
      ensures Valid() && running && phase.Idle? && SameOffsets(old(broker)) && broker.committed == position
    {
      Advance(app, origin, S(), Step.AbortEmpty);
      EndLast(Aborted);
      phase := Idle;
    }

    /** Where the loop stands after a poll: inside the transaction, between two, or stopped. */
    ghost predicate Stands(open: bool)
      reads this
    {
      (open ==> running && phase.Polling? && pending == []) && (!open && running ==> phase.Idle?)
    }

    /** A successful poll has consumed the records. If it is late, everything consumed is committed and the
        transaction is over; otherwise it stays open and the committed offsets are as they were. */
    ghost predicate Advanced(before: Broker<O>, from: seq<nat>, records: seq<nat>, late: bool, open: bool)
      reads this
    {
      && running && open == !late
      && position == Consumed(before.inputs, from, records)
      && broker.committed == if late then position else before.committed
    }

    /** One poll inside a transaction. `open` says whether the transaction goes on; otherwise the next one
        may begin or the loop has stopped. */
    method HandlePoll(poll: Poll) returns (open: bool)
      requires Valid() && running && phase.Polling? && pending == []
      modifies this`broker, this`tables, this`position, this`pending, this`mutated, this`running, this`phase
      ensures Valid() && Stands(open) && broker.inputs == old(broker.inputs)
      ensures Succeeds(poll) ==> Advanced(old(broker), old(position), Records(poll), Late(poll), open)
      ensures poll.Closed? ==> Left(old(broker), Open)
      ensures poll.Cancelled? ==> Left(old(broker), Aborted)
      ensures poll.Batch? && Fails(poll.records, poll.failAt, poll.hookOk) ==> Left(old(broker), Aborted)
      ensures !open && running ==> broker.committed == position
    {
      match poll
      case Closed =>
        Stop();
        return false;
      case Cancelled =>
        AbortAndStop();
        return false;
      case Empty(late, outcome) =>
        if !late { return true; }
        EndInterval(outcome);
        return false;
      case Batch(records, failAt, hookOk, produced, late, outcome) =>
        open := HandleBatch(records, failAt, hookOk, produced, late, outcome);
    }

    /** The deadline has passed: commit, or abort an interval without records. */
    method EndInterval(outcome: Outcome)
      requires Valid() && running && phase.Polling? && pending == []
      modifies this`broker, this`running, this`phase
      ensures Valid() && (running ==> phase.Idle?) && broker.inputs == old(broker.inputs)
      ensures running <==> !mutated || outcome.Commits?
      ensures broker.committed == if running then position else old(broker.committed)
      ensures !running && !Unknown(outcome) ==> Left(old(broker), Aborted)
    {
      if !mutated { AbortEmptyInterval(); return; }
      var ok := CommitTransaction(outcome);
    }

    method HandleBatch(records: seq<nat>, failAt: Option<nat>, hookOk: bool, produced: Option<nat>, late: bool,
                       outcome: Outcome)
      returns (open: bool)
      requires Valid() && running && phase.Polling? && pending == []
      modifies this`broker, this`tables, this`position, this`pending, this`mutated, this`running, this`phase
      ensures Valid() && Stands(open) && broker.inputs == old(broker.inputs)
      ensures Succeeds(Batch(records, failAt, hookOk, produced, late, outcome)) ==>
                Advanced(old(broker), old(position), records, late, open)
      ensures Fails(records, failAt, hookOk) ==> Left(old(broker), Aborted)
      ensures !running && !(late && Unknown(outcome)) ==> Left(old(broker), Aborted)
      ensures !open && running ==> broker.committed == position
    {
      var ok := ProcessBatch(records, failAt);
      if !ok || !hookOk { AbortAndStop(); return false; }
      if mutated {
        ok := DrainAndProduce(produced);
        if !ok { AbortAndStop(); return false; }
      }
      if !late { return true; }
      EndInterval(outcome);
      return false;
    }

    /** Upstream producers append inputs while the loop is busy. */
    method Receive(arrivals: seq<(nat, In)>)
      requires Valid()
      modifies this`broker
      ensures Valid() && broker == old(broker).(inputs := Arrived(old(broker.inputs), arrivals))
    {
      for i := 0 to |arrivals|
        invariant Valid() && broker == old(broker).(inputs := Arrived(old(broker.inputs), arrivals[..i]))
      {
        ArrivedNext(old(broker.inputs), arrivals, i);
        var (p, r) := arrivals[i];
        if p < |broker.inputs| {
          Advance(app, origin, S(), Step.Arrive(p, r));
          broker := broker.(inputs := broker.inputs[p := broker.inputs[p] + [r]]);
        }
      }
      assert arrivals[..|arrivals|] == arrivals;
    }

    /** `runEOS`: transactions of many polls each, until the loop stops or the process dies at the end of the
        script, with inputs arriving before every poll. Whatever happens, the broker ends in a state the machine
        reaches, with exactly-once on every channel, over all inputs that arrived in the `n` rounds it ran. While
        the polls succeed, everything they fetch is consumed, and everything consumed up to the last poll past a
        deadline is committed. A poll that ends the loop then leaves the committed offsets as they are. */
    method RunEOS(rounds: seq<Round>) returns (n: nat)
      requires Valid() && running && phase.Idle?
      modifies this`broker, this`tables, this`position, this`pending, this`mutated, this`running, this`phase
      ensures Valid() && Reaches(app, origin, S()) && AllDelivered(app, broker)
      ensures n <= |rounds| && (n == |rounds| || !running) && Ran(old(broker.inputs), old(position), rounds, n)
    {
      n := 0;
      var open := false;
      ghost var inputs, from := broker.inputs, position;
      assert Ran(inputs, from, rounds, 0);
      while n < |rounds| && running
        invariant n <= |rounds| && Valid() && Stands(open) && Ran(inputs, from, rounds, n)
        decreases |rounds| - n
      {
        open := NextRound(open, rounds, n, inputs, from);
        n := n + 1;
      }
      InvIsDelivered(app, S());
    }

    /** What the first `n` rounds have done. If all their polls succeeded, the loop runs, everything they fetched
        is consumed, and what was consumed up to the last late poll is committed. If a poll that stops the loop
        follows such rounds, it is the last, and the committed offsets are those it found. */
    ghost predicate Ran(inputs: seq<seq<In>>, from: seq<nat>, rounds: seq<Round>, n: nat)
      reads this
      requires n <= |rounds|
    {
      && broker.inputs == InputsAfter(inputs, rounds, n)
      && (AllSucceed(rounds, n) ==>
            && running && position == PositionAfter(inputs, from, rounds, n)
            && broker.committed == CommittedAfter(inputs, from, rounds, n))
      && forall i :: 0 <= i < n && AllSucceed(rounds, i) && Stops(rounds[i].poll) ==>
           n == i + 1 && !running && broker.committed == CommittedAfter(inputs, from, rounds, i)
    }

    method NextRound(wasOpen: bool, rounds: seq<Round>, n: nat, ghost inputs: seq<seq<In>>, ghost from: seq<nat>)
      returns (open: bool)
      requires Valid() && running && Stands(wasOpen) && n < |rounds| && Ran(inputs, from, rounds, n)
      modifies this`broker, this`tables, this`position, this`pending, this`mutated, this`running, this`phase
      ensures Valid() && Stands(open) && Ran(inputs, from, rounds, n + 1)
    {
      open := HandleRound(wasOpen, rounds[n]);
    }

    /** One pass: begin a transaction unless one is open, take what has arrived, poll. */
    method HandleRound(wasOpen: bool, round: Round) returns (open: bool)
      requires Valid() && running && if wasOpen then phase.Polling? && pending == [] else phase.Idle?
      modifies this`broker, this`tables, this`position, this`pending, this`mutated, this`running, this`phase
      ensures Valid() && Stands(open) && broker.inputs == Arrived(old(broker.inputs), round.arrivals)
      ensures Succeeds(round.poll) ==>
                Advanced(old(broker).(inputs := Arrived(old(broker.inputs), round.arrivals)), old(position),
                         Records(round.poll), Late(round.poll), open)
      ensures Stops(round.poll) ==> !running && broker.committed == old(broker.committed)
    {
      if !wasOpen { Begin(); }
      Receive(round.arrivals);
      open := HandlePoll(round.poll);
    }
  }

  /** What arrives before a poll, and the poll. */
  datatype Round = Round(arrivals: seq<(nat, In)>, poll: Poll)

  /** The inputs after the arrivals of the first `n` rounds. */
  function InputsAfter(inputs: seq<seq<In>>, rounds: seq<Round>, n: nat): seq<seq<In>>
    requires n <= |rounds|
  {
    if n == 0 then inputs else Arrived(InputsAfter(inputs, rounds, n - 1), rounds[n - 1].arrivals)
  }

  predicate AllSucceed(rounds: seq<Round>, n: nat)
    requires n <= |rounds|
  {
    forall i :: 0 <= i < n ==> Succeeds(rounds[i].poll)
  }

  /** Where the partitions stand after the first `n` rounds: every record fetched has been consumed. */
  function PositionAfter(inputs: seq<seq<In>>, position: seq<nat>, rounds: seq<Round>, n: nat): seq<nat>
    requires n <= |rounds|
  {
    if n == 0 then position
    else Consumed(InputsAfter(inputs, rounds, n), PositionAfter(inputs, position, rounds, n - 1),
                  Records(rounds[n - 1].poll))
  }

  /** What has been committed after the first `n` rounds: what was consumed up to the last late poll. */
  function CommittedAfter(inputs: seq<seq<In>>, position: seq<nat>, rounds: seq<Round>, n: nat): seq<nat>
    requires n <= |rounds|
  {
    if n == 0 then position
    else if Late(rounds[n - 1].poll) then PositionAfter(inputs, position, rounds, n)
    else CommittedAfter(inputs, position, rounds, n - 1)
  }
}
