/** At-least-once delivery (`runALO` in internal/kafka/client.go, `PostBatch`) as a step machine: process,
    flush the changelog, produce the outputs, remember the offsets, commit them now and then. Every step
    may be the last before a crash. */
module Alo {
  import opened Wrappers
  import opened ByteOrder
  import opened Changelog
  import E = Eos

  /** A changelog record with the input offset it came from. */
  datatype Entry = Entry(offset: nat, u: Mutation)

  /** An output of the input at `offset` of partition `p`. */
  datatype Output<O> = Output(p: nat, offset: nat, dest: nat, out: O)

  datatype Broker<O> = Broker(inputs: seq<seq<E.In>>, log: seq<seq<Entry>>, sinks: seq<Output<O>>, committed: seq<nat>)

  /** `ready` are the offsets handed to the committer: below them everything has been flushed and
      produced. */
  datatype Client<O> =
    | Down
    | Up(tables: seq<Contents>, position: seq<nat>, unflushed: seq<seq<Entry>>, outs: seq<Output<O>>, ready: seq<nat>,
         producing: bool)

  datatype State<O> = State(broker: Broker<O>, client: Client<O>)

  // What a sequence of attempts means: inputs may be processed more than once.

  function Acc<O>(app: E.App<O>, table: Contents, r: E.In): Bytes {
    app.agg(r.key, r.value, Lookup(table, r.key))
  }

  /** The aggregation applied to the inputs at the given offsets, in that order. */
  function Fold<O>(app: E.App<O>, ins: seq<E.In>, offsets: seq<nat>): Contents
    requires forall i :: 0 <= i < |offsets| ==> offsets[i] < |ins|
  {
    if offsets == [] then map[]
    else E.Update(app, Fold(app, ins, offsets[..|offsets| - 1]), ins[offsets[|offsets| - 1]])
  }

  function Picked(ins: seq<E.In>, offsets: seq<nat>): seq<E.In>
    requires forall i :: 0 <= i < |offsets| ==> offsets[i] < |ins|
  {
    seq(|offsets|, i requires 0 <= i < |offsets| => ins[offsets[i]])
  }

  /** The fold of attempts is the exactly-once table of the inputs in the order in which they were attempted. */
  lemma {:induction false} FoldIsTable<O>(app: E.App<O>, ins: seq<E.In>, offsets: seq<nat>)
    requires forall i :: 0 <= i < |offsets| ==> offsets[i] < |ins|
    ensures Fold(app, ins, offsets) == E.Table(app, Picked(ins, offsets))
  {
    if offsets != [] {
      var init := offsets[..|offsets| - 1];
      FoldIsTable(app, ins, init);
      assert Picked(ins, offsets)[..|init|] == Picked(ins, init);
    }
  }

  function Offsets(log: seq<Entry>): (offsets: seq<nat>)
    ensures |offsets| == |log| && forall i :: 0 <= i < |log| ==> offsets[i] == log[i].offset
  {
    seq(|log|, i requires 0 <= i < |log| => log[i].offset)
  }

  predicate InLog(ins: seq<E.In>, log: seq<Entry>) {
    forall i :: 0 <= i < |log| ==> log[i].offset < |ins|
  }

  /** The entries are those of the attempts they name, each on top of the ones before. */
  predicate Genuine<O>(app: E.App<O>, ins: seq<E.In>, log: seq<Entry>) {
    log == []
    || (Genuine(app, ins, log[..|log| - 1]) && InLog(ins, log)
        && var r := ins[log[|log| - 1].offset];
           log[|log| - 1].u == Mutation(r.key, Some(Acc(app, Fold(app, ins, Offsets(log[..|log| - 1])), r))))
  }

  /** Some attempt at offset `o` is in the log and all its outputs are in `sinks`. */
  predicate Done<O(==)>(app: E.App<O>, log: seq<Entry>, sinks: seq<Output<O>>, p: nat, o: nat) {
    exists i :: 0 <= i < |log| && AttemptDone(app, log[i], sinks, p, o)
  }

  predicate AttemptDone<O(==)>(app: E.App<O>, e: Entry, sinks: seq<Output<O>>, p: nat, o: nat) {
    && e.offset == o && e.u.value.Some?
    && multiset(Sent(p, o, app.outs(e.u.key, e.u.value.value))) <= multiset(sinks)
  }

  function Mutations(log: seq<Entry>): (us: seq<Mutation>)
    ensures |us| == |log| && forall i :: 0 <= i < |log| ==> us[i] == log[i].u
  {
    seq(|log|, i requires 0 <= i < |log| => log[i].u)
  }

  function Restore<O>(b: Broker<O>, p: nat): Contents
    requires p < |b.log|
  {
    Replay(map[], RestoredAll(Mutations(b.log[p])))
  }

  // The machine.

  function Initial<O>(n: nat): State<O> {
    State(Broker(seq(n, _ => []), seq(n, _ => []), [], seq(n, _ => 0)), Down)
  }

  datatype Step =
    | Arrive(p: nat, record: E.In)   // an upstream producer appends an input
    | Start                          // restore every task, seek to the committed offsets
    | Process(p: nat)                // one fetched record of partition p is processed
    | Flush(p: nat)                  // one mutation of partition p reaches the changelog
    | Flushed                        // the post-batch hook returns
    | Produce                        // one output reaches the sink topic
    | Add                            // the batch's records go to the offset committer
    | Commit(p: nat)                 // the broker takes the offset of partition p
    | Crash                          // at any time

  function Sent<O>(p: nat, o: nat, outs: seq<(nat, O)>): (sent: seq<Output<O>>)
    ensures |sent| == |outs| && forall i :: 0 <= i < |outs| ==> sent[i] == Output(p, o, outs[i].0, outs[i].1)
  {
    seq(|outs|, i requires 0 <= i < |outs| => Output(p, o, outs[i].0, outs[i].1))
  }

  predicate Shaped<O>(s: State<O>) {
    && |s.broker.inputs| == |s.broker.log| == |s.broker.committed|
    && (s.client.Up? ==>
       |s.client.tables| == |s.client.position| == |s.client.unflushed| == |s.client.ready| == |s.broker.inputs|)
  }

  predicate Enabled<O>(s: State<O>, step: Step) {
    var b, c := s.broker, s.client;
    Shaped(s)
    && match step
       case Arrive(p, _) => p < |b.inputs|
       case Start => c.Down?
       case Process(p) => c.Up? && !c.producing && p < |b.inputs| && c.position[p] < |b.inputs[p]|
       case Flush(p) => c.Up? && p < |b.inputs| && c.unflushed[p] != []
       case Flushed => c.Up? && !c.producing && forall p :: 0 <= p < |c.unflushed| ==> c.unflushed[p] == []
       case Produce => c.Up? && c.producing && c.outs != []
       case Add => c.Up? && c.producing && c.outs == []
       case Commit(p) => c.Up? && p < |b.inputs|
       case Crash => c.Up?
  }

  function Processed<O>(app: E.App<O>, c: Client<O>, p: nat, r: E.In): Client<O>
    requires c.Up? && p < |c.tables| == |c.position| == |c.unflushed|
  {
    var acc, o := Acc(app, c.tables[p], r), c.position[p];
    c.(tables := c.tables[p := E.Update(app, c.tables[p], r)],
       position := c.position[p := o + 1],
       unflushed := c.unflushed[p := c.unflushed[p] + [Entry(o, Mutation(r.key, Some(acc)))]],
       outs := c.outs + Sent(p, o, app.outs(r.key, acc)))
  }

  function Do<O>(app: E.App<O>, s: State<O>, step: Step): (s': State<O>)
    requires Enabled(s, step)
    ensures Shaped(s') && |s'.broker.inputs| == |s.broker.inputs|
  {
    var b, c := s.broker, s.client;
    match step
    case Arrive(p, r) => State(b.(inputs := b.inputs[p := b.inputs[p] + [r]]), c)
    case Start =>
      var n := |b.inputs|;
      State(b, Up(seq(n, p requires 0 <= p < n => Restore(b, p)), b.committed, seq(n, _ => []), [], b.committed, false))
    case Process(p) => State(b, Processed(app, c, p, b.inputs[p][c.position[p]]))
    case Flush(p) =>
      State(b.(log := b.log[p := b.log[p] + [c.unflushed[p][0]]]),
            c.(unflushed := c.unflushed[p := c.unflushed[p][1..]]))
    case Flushed => State(b, c.(producing := true))
    case Produce => State(b.(sinks := b.sinks + [c.outs[0]]), c.(outs := c.outs[1..]))
    case Add => State(b, c.(ready := c.position, producing := false))
    case Commit(p) => State(b.(committed := b.committed[p := c.ready[p]]), c)
    case Crash => State(b, Down)
  }

  predicate IsRun<O>(app: E.App<O>, s: State<O>, steps: seq<Step>)
    decreases |steps|
  {
    steps == [] || (Enabled(s, steps[0]) && IsRun(app, Do(app, s, steps[0]), steps[1..]))
  }

  function After<O>(app: E.App<O>, s: State<O>, steps: seq<Step>): State<O>
    requires IsRun(app, s, steps)
    decreases |steps|
  {
    if steps == [] then s else After(app, Do(app, s, steps[0]), steps[1..])
  }

  // What every step keeps.

  predicate DoneBelow<O(==)>(app: E.App<O>, log: seq<Entry>, sinks: seq<Output<O>>, p: nat, n: nat) {
    forall o: nat {:trigger Done(app, log, sinks, p, o)} :: o < n ==> Done(app, log, sinks, p, o)
  }

  predicate PartitionOk<O(==)>(app: E.App<O>, b: Broker<O>, p: nat)
    requires p < |b.inputs| == |b.log| == |b.committed|
  {
    && b.committed[p] <= |b.inputs[p]| && Genuine(app, b.inputs[p], b.log[p]) && InLog(b.inputs[p], b.log[p])
    && DoneBelow(app, b.log[p], b.sinks, p, b.committed[p])
  }

  /** A task that has made the attempts in `log`: its table is their fold, and every input below
      `position` has been attempted with its outputs among `outs`. */
  predicate Progress<O(==)>(app: E.App<O>, ins: seq<E.In>, log: seq<Entry>, table: Contents, outs: seq<Output<O>>,
                            p: nat, position: nat) {
    && Genuine(app, ins, log) && InLog(ins, log)
    && table == Fold(app, ins, Offsets(log))
    && DoneBelow(app, log, outs, p, position)
  }

  /** One partition of a running client. */
  predicate TaskOk<O(==)>(app: E.App<O>, b: Broker<O>, c: Client<O>, p: nat)
    requires c.Up? && Shaped(State(b, c)) && p < |b.inputs|
  {
    var ins, all := b.inputs[p], b.log[p] + c.unflushed[p];
    && b.committed[p] <= c.ready[p] <= c.position[p] <= |ins|
    && Progress(app, ins, all, c.tables[p], b.sinks + c.outs, p, c.position[p])
    && DoneBelow(app, b.log[p], b.sinks, p, c.ready[p])
    && (c.producing ==> c.unflushed[p] == [])
  }

  predicate Inv<O(==)>(app: E.App<O>, s: State<O>) {
    Shaped(s)
    && (forall p :: 0 <= p < |s.broker.inputs| ==> PartitionOk(app, s.broker, p))
    && (s.client.Up? ==> forall p :: 0 <= p < |s.broker.inputs| ==> TaskOk(app, s.broker, s.client, p))
  }

  predicate Within<O(==)>(a: seq<Output<O>>, b: seq<Output<O>>) {
    multiset(a) <= multiset(b)
  }

  /** What is done stays done as logs grow. */
  lemma DoneGrows<O>(app: E.App<O>, log: seq<Entry>, log': seq<Entry>, sinks: seq<Output<O>>, sinks': seq<Output<O>>,
                     p: nat, n: nat)
    requires DoneBelow(app, log, sinks, p, n) && log <= log' && Within(sinks, sinks')
    ensures DoneBelow(app, log', sinks', p, n)
  {
    forall o: nat | o < n
      ensures Done(app, log', sinks', p, o)
    {
      assert Done(app, log, sinks, p, o);
      var i :| 0 <= i < |log| && AttemptDone(app, log[i], sinks, p, o);
      assert log'[i] == log[i];
      assert AttemptDone(app, log'[i], sinks', p, o);
    }
  }

  lemma {:induction false} GenuinePrefix<O>(app: E.App<O>, ins: seq<E.In>, log: seq<Entry>, n: nat)
    requires Genuine(app, ins, log) && n <= |log|
    ensures Genuine(app, ins, log[..n])
  {
    if n == |log| {
      assert log[..n] == log;
    } else {
      assert log[..|log| - 1][..n] == log[..n];
      GenuinePrefix(app, ins, log[..|log| - 1], n);
    }
  }

  lemma {:induction false} FoldOfLonger<O>(app: E.App<O>, ins: seq<E.In>, r: E.In, offsets: seq<nat>)
    requires forall i :: 0 <= i < |offsets| ==> offsets[i] < |ins|
    ensures Fold(app, ins + [r], offsets) == Fold(app, ins, offsets)
  {
    if offsets != [] { FoldOfLonger(app, ins, r, offsets[..|offsets| - 1]); }
  }

  lemma {:induction false} GenuineOfLonger<O>(app: E.App<O>, ins: seq<E.In>, r: E.In, log: seq<Entry>)
    requires Genuine(app, ins, log)
    ensures Genuine(app, ins + [r], log)
  {
    if log != [] {
      var init := log[..|log| - 1];
      GenuineOfLonger(app, ins, r, init);
      FoldOfLonger(app, ins, r, Offsets(init));
    }
  }

  lemma OffsetsSnoc(log: seq<Entry>, e: Entry)
    ensures Offsets(log + [e]) == Offsets(log) + [e.offset]
  {
  }

  lemma FoldSnoc<O>(app: E.App<O>, ins: seq<E.In>, offsets: seq<nat>, o: nat)
    requires o < |ins| && forall i :: 0 <= i < |offsets| ==> offsets[i] < |ins|
    ensures Fold(app, ins, offsets + [o]) == E.Update(app, Fold(app, ins, offsets), ins[o])
  {
    assert (offsets + [o])[..|offsets|] == offsets;
  }

  /** The changelog record of an attempt at offset `o`, on top of `table`. */
  function Attempt<O>(app: E.App<O>, ins: seq<E.In>, table: Contents, o: nat): Entry
    requires o < |ins|
  {
    Entry(o, Mutation(ins[o].key, Some(Acc(app, table, ins[o]))))
  }

  /** One more attempt. */
  lemma AttemptAppended<O>(app: E.App<O>, ins: seq<E.In>, log: seq<Entry>, o: nat)
    requires Genuine(app, ins, log) && InLog(ins, log) && o < |ins|
    ensures var table := Fold(app, ins, Offsets(log));
      var log' := log + [Attempt(app, ins, table, o)];
      Genuine(app, ins, log') && InLog(ins, log') && Fold(app, ins, Offsets(log')) == E.Update(app, table, ins[o])
  {
    var e := Attempt(app, ins, Fold(app, ins, Offsets(log)), o);
    OffsetsSnoc(log, e);
    FoldSnoc(app, ins, Offsets(log), o);
    GenuineSnoc(app, ins, log, e);
  }

  lemma GenuineSnoc<O>(app: E.App<O>, ins: seq<E.In>, log: seq<Entry>, e: Entry)
    requires Genuine(app, ins, log) && InLog(ins, log) && e.offset < |ins|
    requires e == Attempt(app, ins, Fold(app, ins, Offsets(log)), e.offset)
    ensures Genuine(app, ins, log + [e])
  {
    assert (log + [e])[..|log|] == log;
  }

  /** The changelog replays to the fold of the attempts that were flushed. */
  lemma {:induction false} LogIsFold<O>(app: E.App<O>, ins: seq<E.In>, log: seq<Entry>)
    requires E.NonEmpty(app) && Genuine(app, ins, log) && InLog(ins, log)
    ensures Replay(map[], RestoredAll(Mutations(log))) == Fold(app, ins, Offsets(log))
  {
    if log == [] {
      assert RestoredAll(Mutations(log)) == [];
    } else {
      var init, e := log[..|log| - 1], log[|log| - 1];
      LogIsFold(app, ins, init);
      OffsetsSnoc(init, e);
      assert log == init + [e];
      FoldSnoc(app, ins, Offsets(init), e.offset);
      ReplaySnoc(init, e);
    }
  }

  lemma ReplaySnoc(log: seq<Entry>, e: Entry)
    requires e.u.value != Some([])
    ensures Replay(map[], RestoredAll(Mutations(log + [e]))) == Apply(Replay(map[], RestoredAll(Mutations(log))), e.u)
  {
    var before := RestoredAll(Mutations(log));
    assert RestoredAll(Mutations(log + [e])) == before + [e.u];
    assert (before + [e.u])[..|log|] == before;
  }

  lemma ArriveKeeps<O>(app: E.App<O>, s: State<O>, p: nat, r: E.In)
    requires Inv(app, s) && Enabled(s, Arrive(p, r))
    ensures Inv(app, Do(app, s, Arrive(p, r)))
  {
    var b, c := s.broker, s.client;
    var b' := Do(app, s, Arrive(p, r)).broker;
    forall q: nat | q < |b.inputs|
      ensures PartitionOk(app, b', q) && (c.Up? ==> TaskOk(app, b', c, q))
    {
      assert PartitionOk(app, b, q);
      if c.Up? { assert TaskOk(app, b, c, q); }
      if q == p {
        GenuineOfLonger(app, b.inputs[p], r, b.log[p]);
        if c.Up? {
          GenuineOfLonger(app, b.inputs[p], r, b.log[p] + c.unflushed[p]);
          FoldOfLonger(app, b.inputs[p], r, Offsets(b.log[p] + c.unflushed[p]));
        }
      }
    }
  }

  lemma StartKeeps<O>(app: E.App<O>, s: State<O>)
    requires E.NonEmpty(app) && Inv(app, s) && Enabled(s, Start)
    ensures Inv(app, Do(app, s, Start))
  {
    var b, c := s.broker, Do(app, s, Start).client;
    forall p: nat | p < |b.inputs|
      ensures TaskOk(app, b, c, p)
    {
      assert PartitionOk(app, b, p);
      LogIsFold(app, b.inputs[p], b.log[p]);
      assert b.log[p] + c.unflushed[p] == b.log[p] && b.sinks + c.outs == b.sinks;
    }
  }

  lemma ProcessedTask<O>(app: E.App<O>, b: Broker<O>, c: Client<O>, p: nat)
    requires c.Up? && Shaped(State(b, c)) && p < |b.inputs| && TaskOk(app, b, c, p) && !c.producing
             && c.position[p] < |b.inputs[p]|
    ensures TaskOk(app, b, Processed(app, c, p, b.inputs[p][c.position[p]]), p)
  {
    var o, ins, all := c.position[p], b.inputs[p], b.log[p] + c.unflushed[p];
    var c', e := Processed(app, c, p, ins[o]), Attempt(app, ins, c.tables[p], o);
    assert b.log[p] + c'.unflushed[p] == all + [e];
    ProgressNext(app, ins, all, c.tables[p], b.sinks + c.outs, p, o);
    assert b.sinks + c'.outs == b.sinks + c.outs + Sent(p, o, app.outs(e.u.key, e.u.value.value));
  }

  lemma ProgressNext<O>(app: E.App<O>, ins: seq<E.In>, log: seq<Entry>, table: Contents, outs: seq<Output<O>>, p: nat,
                        o: nat)
    requires Progress(app, ins, log, table, outs, p, o) && o < |ins|
    ensures var e := Attempt(app, ins, table, o);
      Progress(app, ins, log + [e], E.Update(app, table, ins[o]),
               outs + Sent(p, o, app.outs(e.u.key, e.u.value.value)), p, o + 1)
  {
    AttemptAppended(app, ins, log, o);
    AttemptIsDone(app, log, outs, p, o, Attempt(app, ins, table, o));
  }

  lemma AttemptIsDone<O>(app: E.App<O>, log: seq<Entry>, sinks: seq<Output<O>>, p: nat, o: nat, e: Entry)
    requires DoneBelow(app, log, sinks, p, o) && e.offset == o && e.u.value.Some?
    ensures DoneBelow(app, log + [e], sinks + Sent(p, o, app.outs(e.u.key, e.u.value.value)), p, o + 1)
  {
    var sinks' := sinks + Sent(p, o, app.outs(e.u.key, e.u.value.value));
    DoneGrows(app, log, log + [e], sinks, sinks', p, o);
    SentAvailable(sinks, p, o, app.outs(e.u.key, e.u.value.value));
    assert AttemptDone(app, (log + [e])[|log|], sinks', p, o);
    assert Done(app, log + [e], sinks', p, o);
  }

  lemma SentAvailable<O>(sinks: seq<Output<O>>, p: nat, o: nat, outs: seq<(nat, O)>)
    ensures Within(sinks, sinks + Sent(p, o, outs)) && Within(Sent(p, o, outs), sinks + Sent(p, o, outs))
  {
    assert multiset(sinks + Sent(p, o, outs)) == multiset(sinks) + multiset(Sent(p, o, outs));
  }

  lemma ProcessKeeps<O>(app: E.App<O>, s: State<O>, p: nat)
    requires Inv(app, s) && Enabled(s, Process(p))
    ensures Inv(app, Do(app, s, Process(p)))
  {
    var b, c := s.broker, s.client;
    var c' := Do(app, s, Process(p)).client;
    assert TaskOk(app, b, c, p);
    ProcessedTask(app, b, c, p);
    forall q: nat | q < |b.inputs| && q != p
      ensures TaskOk(app, b, c', q)
    {
      assert TaskOk(app, b, c, q);
      var all := b.log[q] + c.unflushed[q];
      DoneGrows(app, all, all, b.sinks + c.outs, b.sinks + c'.outs, q, c.position[q]);
    }
  }

  lemma FlushedTask<O>(app: E.App<O>, b: Broker<O>, c: Client<O>, p: nat)
    requires c.Up? && Shaped(State(b, c)) && p < |b.inputs| && c.unflushed[p] != []
    requires TaskOk(app, b, c, p) && PartitionOk(app, b, p)
    ensures var s' := Do(app, State(b, c), Flush(p));
      TaskOk(app, s'.broker, s'.client, p) && PartitionOk(app, s'.broker, p)
  {
    var s' := Do(app, State(b, c), Flush(p));
    var all, n, log := b.log[p] + c.unflushed[p], |b.log[p]| + 1, s'.broker.log[p];
    assert log + s'.client.unflushed[p] == all && log == all[..n];
    GenuinePrefix(app, b.inputs[p], all, n);
    DoneGrows(app, b.log[p], log, b.sinks, b.sinks, p, c.ready[p]);
    DoneGrows(app, b.log[p], log, b.sinks, b.sinks, p, b.committed[p]);
  }

  lemma FlushKeeps<O>(app: E.App<O>, s: State<O>, p: nat)
    requires Inv(app, s) && Enabled(s, Flush(p))
    ensures Inv(app, Do(app, s, Flush(p)))
  {
    var b, c := s.broker, s.client;
    var b', c' := Do(app, s, Flush(p)).broker, Do(app, s, Flush(p)).client;
    assert TaskOk(app, b, c, p) && PartitionOk(app, b, p);
    FlushedTask(app, b, c, p);
    forall q: nat | q < |b.inputs| && q != p
      ensures TaskOk(app, b', c', q) && PartitionOk(app, b', q)
    {
      assert TaskOk(app, b, c, q) && PartitionOk(app, b, q);
    }
  }

  lemma ProduceKeeps<O>(app: E.App<O>, s: State<O>)
    requires Inv(app, s) && Enabled(s, Produce)
    ensures Inv(app, Do(app, s, Produce))
  {
    var b, c := s.broker, s.client;
    var b', c' := Do(app, s, Produce).broker, Do(app, s, Produce).client;
    assert b'.sinks + c'.outs == b.sinks + c.outs;
    forall p: nat | p < |b.inputs|
      ensures TaskOk(app, b', c', p) && PartitionOk(app, b', p)
    {
      assert TaskOk(app, b, c, p) && PartitionOk(app, b, p);
      DoneGrows(app, b.log[p], b.log[p], b.sinks, b'.sinks, p, c.ready[p]);
    }
  }

  lemma AddKeeps<O>(app: E.App<O>, s: State<O>)
    requires Inv(app, s) && Enabled(s, Add)
    ensures Inv(app, Do(app, s, Add))
  {
    var b, c := s.broker, s.client;
    forall p: nat | p < |b.inputs|
      ensures TaskOk(app, b, Do(app, s, Add).client, p)
    {
      assert TaskOk(app, b, c, p);
      assert b.log[p] + c.unflushed[p] == b.log[p] && b.sinks + c.outs == b.sinks;
    }
  }

  lemma CommitKeeps<O>(app: E.App<O>, s: State<O>, p: nat)
    requires Inv(app, s) && Enabled(s, Commit(p))
    ensures Inv(app, Do(app, s, Commit(p)))
    ensures Do(app, s, Commit(p)).broker.committed[p] >= s.broker.committed[p]
  {
    var b, c := s.broker, s.client;
    var b' := Do(app, s, Commit(p)).broker;
    forall q: nat | q < |b.inputs|
      ensures TaskOk(app, b', c, q) && PartitionOk(app, b', q)
    {
      assert TaskOk(app, b, c, q) && PartitionOk(app, b, q);
    }
    assert TaskOk(app, b, c, p);
  }

  lemma FlushedKeeps<O>(app: E.App<O>, s: State<O>)
    requires Inv(app, s) && Enabled(s, Flushed)
    ensures Inv(app, Do(app, s, Flushed))
  {
    forall p: nat | p < |s.broker.inputs|
      ensures TaskOk(app, s.broker, Do(app, s, Flushed).client, p)
    {
      assert TaskOk(app, s.broker, s.client, p);
    }
  }

  /** Every step keeps the invariant, and no step lowers a committed offset. */
  lemma StepKeeps<O>(app: E.App<O>, s: State<O>, step: Step)
    requires E.NonEmpty(app) && Inv(app, s) && Enabled(s, step)
    ensures Inv(app, Do(app, s, step))
    ensures forall p :: 0 <= p < |s.broker.committed| ==> Do(app, s, step).broker.committed[p] >= s.broker.committed[p]
  {
    match step
    case Arrive(p, r) => ArriveKeeps(app, s, p, r);
    case Start => StartKeeps(app, s);
    case Process(p) => ProcessKeeps(app, s, p);
    case Flush(p) => FlushKeeps(app, s, p);
    case Flushed => FlushedKeeps(app, s);
    case Produce => ProduceKeeps(app, s);
    case Add => AddKeeps(app, s);
    case Commit(p) => CommitKeeps(app, s, p);
    case Crash =>
  }

  // Nothing is invented.

  function MadeBy<O>(app: E.App<O>, p: nat, e: Entry): seq<Output<O>> {
    if e.u.value.Some? then Sent(p, e.offset, app.outs(e.u.key, e.u.value.value)) else []
  }

  /** All outputs of the attempts in the log. */
  ghost function Made<O>(app: E.App<O>, p: nat, log: seq<Entry>): multiset<Output<O>> {
    if log == [] then multiset{}
    else Made(app, p, log[..|log| - 1]) + multiset(MadeBy(app, p, log[|log| - 1]))
  }

  lemma MadeSnoc<O>(app: E.App<O>, p: nat, log: seq<Entry>, e: Entry)
    ensures Made(app, p, log + [e]) == Made(app, p, log) + multiset(MadeBy(app, p, e))
  {
    assert (log + [e])[..|log|] == log;
  }

  lemma MadeElsewhere<O>(app: E.App<O>, p: nat, e: Entry, x: Output<O>)
    requires x.p != p
    ensures multiset(MadeBy(app, p, e))[x] == 0
  {
  }

  /** No output occurs more often than the attempts make it. */
  ghost predicate Sourced<O(!new)>(app: E.App<O>, logs: seq<seq<Entry>>, outs: multiset<Output<O>>) {
    forall x :: x in outs ==> x.p < |logs| && outs[x] <= Made(app, x.p, logs[x.p])[x]
  }

  /** What has been flushed and what waits to be. */
  function Attempts<O>(b: Broker<O>, c: Client<O>): (logs: seq<seq<Entry>>)
    requires c.Up? && |c.unflushed| == |b.log|
    ensures |logs| == |b.log| && forall p :: 0 <= p < |logs| ==> logs[p] == b.log[p] + c.unflushed[p]
  {
    seq(|b.log|, p requires 0 <= p < |b.log| => b.log[p] + c.unflushed[p])
  }

  ghost predicate NothingInvented<O(!new)>(app: E.App<O>, s: State<O>)
    requires Shaped(s)
  {
    && Sourced(app, s.broker.log, multiset(s.broker.sinks))
    && (s.client.Up? ==> Sourced(app, Attempts(s.broker, s.client), multiset(s.broker.sinks + s.client.outs)))
  }

  /** One more attempt in one of the logs. */
  lemma SourcedGrows<O(!new)>(app: E.App<O>, logs: seq<seq<Entry>>, p: nat, e: Entry, outs: seq<Output<O>>)
    requires Sourced(app, logs, multiset(outs)) && p < |logs|
    ensures Sourced(app, logs[p := logs[p] + [e]], multiset(outs))
    ensures Sourced(app, logs[p := logs[p] + [e]], multiset(outs + MadeBy(app, p, e)))
  {
    MadeSnoc(app, p, logs[p], e);
    var made := MadeBy(app, p, e);
    assert multiset(outs + made) == multiset(outs) + multiset(made);
    forall x | x in multiset(outs + made)
      ensures x.p < |logs| && multiset(outs + made)[x] <= Made(app, x.p, logs[p := logs[p] + [e]][x.p])[x]
    {
      if x.p != p { MadeElsewhere(app, p, e, x); }
    }
  }

  lemma ProcessInventsNothing<O(!new)>(app: E.App<O>, s: State<O>, p: nat)
    requires Enabled(s, Process(p)) && NothingInvented(app, s)
    ensures NothingInvented(app, Do(app, s, Process(p)))
  {
    var b, c := s.broker, s.client;
    var c' := Do(app, s, Process(p)).client;
    var e := Attempt(app, b.inputs[p], c.tables[p], c.position[p]);
    SourcedGrows(app, Attempts(b, c), p, e, b.sinks + c.outs);
    assert c'.unflushed[p] == c.unflushed[p] + [e] && c'.outs == c.outs + MadeBy(app, p, e);
    Extended(b, c, c', p, e);
    assert b.sinks + c'.outs == b.sinks + c.outs + MadeBy(app, p, e);
  }

  lemma Extended<O>(b: Broker<O>, c: Client<O>, c': Client<O>, p: nat, e: Entry)
    requires c.Up? && c'.Up? && p < |c.unflushed| == |b.log|
    requires c'.unflushed == c.unflushed[p := c.unflushed[p] + [e]]
    ensures Attempts(b, c') == Attempts(b, c)[p := Attempts(b, c)[p] + [e]]
  {
    assert b.log[p] + (c.unflushed[p] + [e]) == b.log[p] + c.unflushed[p] + [e];
  }

  lemma FlushInventsNothing<O(!new)>(app: E.App<O>, s: State<O>, p: nat)
    requires Enabled(s, Flush(p)) && NothingInvented(app, s)
    ensures NothingInvented(app, Do(app, s, Flush(p)))
  {
    var s' := Do(app, s, Flush(p));
    var log, unflushed := s.broker.log[p], s.client.unflushed[p];
    SourcedGrows(app, s.broker.log, p, unflushed[0], s.broker.sinks);
    assert log + [unflushed[0]] + unflushed[1..] == log + unflushed;
    assert Attempts(s'.broker, s'.client) == Attempts(s.broker, s.client);
  }

  lemma ProduceInventsNothing<O(!new)>(app: E.App<O>, s: State<O>)
    requires Enabled(s, Produce) && Inv(app, s) && NothingInvented(app, s)
    ensures NothingInvented(app, Do(app, s, Produce))
  {
    var b, c := s.broker, s.client;
    forall p: nat | p < |b.log| ensures b.log[p] + c.unflushed[p] == b.log[p] { assert TaskOk(app, b, c, p); }
    assert Attempts(b, c) == b.log;
    assert b.sinks + [c.outs[0]] + c.outs[1..] == b.sinks + c.outs;
    assert multiset(b.sinks + [c.outs[0]]) <= multiset(b.sinks + c.outs) by {
      assert multiset(b.sinks + c.outs) == multiset(b.sinks + [c.outs[0]]) + multiset(c.outs[1..]);
    }
  }

  lemma StartInventsNothing<O(!new)>(app: E.App<O>, s: State<O>)
    requires Enabled(s, Start) && NothingInvented(app, s)
    ensures NothingInvented(app, Do(app, s, Start))
  {
    var b, c := s.broker, Do(app, s, Start).client;
    forall p: nat | p < |b.log| ensures b.log[p] + c.unflushed[p] == b.log[p] {}
    assert Attempts(b, c) == b.log && b.sinks + c.outs == b.sinks;
  }

  lemma StepInventsNothing<O(!new)>(app: E.App<O>, s: State<O>, step: Step)
    requires Inv(app, s) && Enabled(s, step) && NothingInvented(app, s)
    ensures NothingInvented(app, Do(app, s, step))
  {
    match step
    case Start => StartInventsNothing(app, s);
    case Process(p) => ProcessInventsNothing(app, s, p);
    case Flush(p) => FlushInventsNothing(app, s, p);
    case Produce => ProduceInventsNothing(app, s);
    case _ =>
  }

  lemma {:induction false} RunInventsNothing<O(!new)>(app: E.App<O>, s: State<O>, steps: seq<Step>)
    requires E.NonEmpty(app) && Inv(app, s) && IsRun(app, s, steps) && NothingInvented(app, s)
    ensures Inv(app, After(app, s, steps)) && NothingInvented(app, After(app, s, steps))
    decreases |steps|
  {
    if steps != [] {
      StepKeeps(app, s, steps[0]);
      StepInventsNothing(app, s, steps[0]);
      RunInventsNothing(app, Do(app, s, steps[0]), steps[1..]);
    }
  }

  lemma {:induction false} RunKeeps<O>(app: E.App<O>, s: State<O>, steps: seq<Step>)
    requires E.NonEmpty(app) && Inv(app, s) && IsRun(app, s, steps)
    ensures Inv(app, After(app, s, steps))
    ensures |After(app, s, steps).broker.committed| == |s.broker.committed|
    ensures forall p :: 0 <= p < |s.broker.committed| ==>
            After(app, s, steps).broker.committed[p] >= s.broker.committed[p]
    decreases |steps|
  {
    if steps != [] {
      StepKeeps(app, s, steps[0]);
      RunKeeps(app, Do(app, s, steps[0]), steps[1..]);
    }
  }

  /** At least once. In every state of every run, with crashes anywhere and commits that fail or are only
      partly taken: every input below a committed offset has had an attempt whose changelog record and
      outputs are all on the broker, and a restart restores the fold of attempts that include every one
      of them, so nothing is lost. Every changelog record is that of its attempt on top of the ones before, and
      no output is there more often than the attempts in the changelog make it, so nothing is invented. */
  lemma AtLeastOnce<O(!new)>(app: E.App<O>, n: nat, steps: seq<Step>, p: nat)
    requires E.NonEmpty(app) && IsRun(app, Initial(n), steps) && p < n
    ensures var b := After(app, Initial(n), steps).broker;
      && |b.inputs| == |b.log| == |b.committed| == n && b.committed[p] <= |b.inputs[p]| && InLog(b.inputs[p], b.log[p])
      && (forall o: nat {:trigger Done(app, b.log[p], b.sinks, p, o)} :: o < b.committed[p] ==>
         Done(app, b.log[p], b.sinks, p, o))
      && Restore(b, p) == Fold(app, b.inputs[p], Offsets(b.log[p]))
      && (forall o: nat :: o < b.committed[p] ==> o in Offsets(b.log[p]))
      && Genuine(app, b.inputs[p], b.log[p])
      && (forall x: Output<O> :: x.p == p ==> multiset(b.sinks)[x] <= Made(app, p, b.log[p])[x])
  {
    RunKeeps(app, Initial(n), steps);
    RunInventsNothing(app, Initial(n), steps);
    var s := After(app, Initial(n), steps);
    assert PartitionOk(app, s.broker, p);
    LogIsFold(app, s.broker.inputs[p], s.broker.log[p]);
    forall o: nat | o < s.broker.committed[p]
      ensures o in Offsets(s.broker.log[p])
    {
      assert Done(app, s.broker.log[p], s.broker.sinks, p, o);
      var i :| 0 <= i < |s.broker.log[p]| && AttemptDone(app, s.broker.log[p][i], s.broker.sinks, p, o);
      assert Offsets(s.broker.log[p])[i] == o;
    }
  }
}
