/** Exactly-once delivery (`runEOS`, `commitEOSTransaction` in internal/kafka/client.go,
    `DrainChangelogRecords`, the flat `Aggregate` of grouped.go) as a step machine against a broker with
    atomic transactions. Every step may be the last before a crash. */
module Eos {
  import opened Wrappers
  import opened ByteOrder
  import opened Changelog

  datatype In = In(key: Bytes, value: Bytes)

  /** The aggregation on serialised accumulators, and the records that reach sinks for a new accumulator,
      each with the topic partition it is sent to. */
  datatype App<O> = App(agg: (Bytes, Bytes, Option<Bytes>) -> Bytes, outs: (Bytes, Bytes) -> seq<(nat, O)>)

  /** A produced record: a changelog write of the task of partition `p`, or an output that task sends to
      topic partition `dest`. */
  datatype Item<O> = Write(p: nat, u: Mutation) | Emit(p: nat, dest: nat, out: O)

  /** The order of records is kept within a channel. */
  datatype Channel = Log(p: nat) | Sink(p: nat, dest: nat)

  function ChannelOf<O>(i: Item<O>): Channel {
    if i.Write? then Log(i.p) else Sink(i.p, i.dest)
  }

  /** `Prepared`: the commit request has reached the coordinator, with the consumed offsets. */
  datatype Status = Open | Prepared(offsets: seq<nat>) | Committed | Aborted

  datatype Txn<O> = Txn(status: Status, items: seq<Item<O>>)

  datatype Broker<O> = Broker(inputs: seq<seq<In>>, txns: seq<Txn<O>>, committed: seq<nat>)

  datatype Phase<O> = Idle | Polling | Producing(queue: seq<Item<O>>) | Ending

  /** `pending` is what has been processed and not yet handed to the producer: sink outputs and the
      mutations in the collectors. */
  datatype Client<O> =
    | Down
    | Up(tables: seq<Contents>, position: seq<nat>, pending: seq<Item<O>>, mutated: bool, phase: Phase<O>)

  datatype State<O> = State(broker: Broker<O>, client: Client<O>)

  // What processing the inputs of a partition means.

  function Table<O>(app: App<O>, ins: seq<In>): Contents {
    if ins == [] then map[] else Update(app, Table(app, ins[..|ins| - 1]), ins[|ins| - 1])
  }

  function Update<O>(app: App<O>, table: Contents, r: In): Contents {
    table[r.key := app.agg(r.key, r.value, Lookup(table, r.key))]
  }

  /** The values of a key, in order. */
  function ValuesOf(ins: seq<In>, k: Bytes): seq<Bytes> {
    if ins == [] then []
    else
      var last := ins[|ins| - 1];
      ValuesOf(ins[..|ins| - 1], k) + if last.key == k then [last.value] else []
  }

  /** The aggregation of one key on its own. */
  function FoldKey<O>(app: App<O>, k: Bytes, values: seq<Bytes>): Option<Bytes> {
    if values == [] then None
    else Some(app.agg(k, values[|values| - 1], FoldKey(app, k, values[..|values| - 1])))
  }

  /** The table holds, for every key, the aggregation of that key's values in order, and nothing else. */
  lemma {:induction false} TableIsFold<O>(app: App<O>, ins: seq<In>, k: Bytes)
    ensures Lookup(Table(app, ins), k) == FoldKey(app, k, ValuesOf(ins, k))
  {
    if ins != [] {
      var init, last := ins[..|ins| - 1], ins[|ins| - 1];
      TableIsFold(app, init, k);
      var values := ValuesOf(init, k);
      assert values + [] == values && (values + [last.value])[..|values|] == values;
    }
  }

  /** The outputs for one topic partition, in order. */
  function For<O>(outs: seq<(nat, O)>, dest: nat): seq<O> {
    if outs == [] then []
    else
      var last := outs[|outs| - 1];
      For(outs[..|outs| - 1], dest) + if last.0 == dest then [last.1] else []
  }

  /** What the first `n` inputs send to a topic partition: input by input, the outputs for the accumulator
      that the table holds for the input's key once that input has been applied. */
  function SinkLog<O>(app: App<O>, ins: seq<In>, n: nat, dest: nat): seq<O>
    requires n <= |ins|
  {
    if n == 0 then []
    else
      var k := ins[n - 1].key;
      SinkLog(app, ins, n - 1, dest) + For(app.outs(k, Table(app, ins[..n])[k]), dest)
  }

  /** The records of values that the task of partition `p` sends to `dest`. */
  function Carrying<O>(p: nat, dest: nat, outs: seq<O>): (items: seq<Item<O>>)
    ensures |items| == |outs| && forall i :: 0 <= i < |outs| ==> items[i] == Emit(p, dest, outs[i])
  {
    seq(|outs|, i requires 0 <= i < |outs| => Emit(p, dest, outs[i]))
  }

  function Emitted<O>(p: nat, outs: seq<(nat, O)>): (items: seq<Item<O>>)
    ensures |items| == |outs| && forall i :: 0 <= i < |outs| ==> items[i] == Emit(p, outs[i].0, outs[i].1)
  {
    seq(|outs|, i requires 0 <= i < |outs| => Emit(p, outs[i].0, outs[i].1))
  }

  /** What one record produces: its changelog write and its outputs. */
  function Effect<O>(app: App<O>, p: nat, table: Contents, r: In): seq<Item<O>> {
    var acc := app.agg(r.key, r.value, Lookup(table, r.key));
    [Write(p, Mutation(r.key, Some(acc)))] + Emitted(p, app.outs(r.key, acc))
  }

  /** What the records at offsets `[a, b)` produce. */
  function Effects<O>(app: App<O>, p: nat, ins: seq<In>, a: nat, b: nat): seq<Item<O>>
    requires b <= |ins|
  {
    if b <= a then [] else Effects(app, p, ins, a, b - 1) + Effect(app, p, Table(app, ins[..b - 1]), ins[b - 1])
  }

  function Project<O>(items: seq<Item<O>>, c: Channel): seq<Item<O>> {
    if items == [] then []
    else
      var last := items[|items| - 1];
      Project(items[..|items| - 1], c) + if ChannelOf(last) == c then [last] else []
  }

  /** What read-committed consumers see. */
  function Visible<O>(txns: seq<Txn<O>>): seq<Item<O>> {
    if txns == [] then []
    else
      var last := txns[|txns| - 1];
      Visible(txns[..|txns| - 1]) + if last.status.Committed? then last.items else []
  }

  function Mutations<O>(items: seq<Item<O>>): seq<Mutation> {
    if items == [] then []
    else
      var last := items[|items| - 1];
      Mutations(items[..|items| - 1]) + if last.Write? then [last.u] else []
  }

  /** Restoring into an empty backend: the committed changelog of the partition, replayed. */
  function Restore<O>(b: Broker<O>, p: nat): Contents {
    Replay(map[], RestoredAll(Mutations(Project(Visible(b.txns), Log(p)))))
  }

  // The machine.

  function Initial<O>(n: nat): State<O> {
    State(Broker(seq(n, _ => []), [], seq(n, _ => 0)), Down)
  }

  predicate Unresolved(status: Status) { status.Open? || status.Prepared? }

  /** Only the latest transaction can be open: one transactional producer. */
  predicate Settled<O>(txns: seq<Txn<O>>) {
    txns == [] || !Unresolved(txns[|txns| - 1].status)
  }

  /** The same records on every channel: the producer may order different channels as it likes. */
  ghost predicate SameChannels<O>(a: seq<Item<O>>, b: seq<Item<O>>) {
    forall c :: Project(a, c) == Project(b, c)
  }

  datatype Step<O> =
    | Arrive(p: nat, record: In)     // an upstream producer appends an input
    | Start                          // restore every task, seek to the committed offsets
    | Begin
    | Process(p: nat)                // one fetched record of partition p is processed
    | Drain(order: seq<Item<O>>)     // sweep, drain the collectors, build the produce request
    | Produce                        // one record reaches the log
    | Produced
    | SendCommit                     // End(TryCommit) reaches the coordinator
    | Complete                       // the coordinator finishes a prepared commit
    | Acknowledge                    // End(TryCommit) returns
    | AbortEmpty                     // End(TryAbort) of an interval without records
    | Crash                          // at any time: failure, failed step, lost commit answer
    | Resolve                        // the coordinator aborts the open transaction of a dead client

  ghost predicate Enabled<O>(s: State<O>, step: Step<O>) {
    var b, c := s.broker, s.client;
    match step
    case Arrive(p, _) => p < |b.inputs|
    case Start => c.Down? && Settled(b.txns)
    case Begin => c.Up? && c.phase.Idle?
    case Process(p) => c.Up? && c.phase.Polling? && p < |b.inputs| && p < |c.position| && p < |c.tables|
      && c.position[p] < |b.inputs[p]|
    case Drain(order) => c.Up? && c.phase.Polling? && c.mutated && SameChannels(order, c.pending)
    case Produce => c.Up? && c.phase.Producing? && c.phase.queue != [] && b.txns != []
    case Produced => c.Up? && c.phase == Producing([])
    case SendCommit => c.Up? && c.phase.Polling? && c.pending == [] && c.mutated && b.txns != []
    case Complete => b.txns != [] && b.txns[|b.txns| - 1].status.Prepared?
    case Acknowledge => c.Up? && c.phase.Ending? && b.txns != [] && b.txns[|b.txns| - 1].status.Committed?
    case AbortEmpty => c.Up? && c.phase.Polling? && !c.mutated && b.txns != []
    case Crash => c.Up?
    case Resolve => c.Down? && b.txns != [] && b.txns[|b.txns| - 1].status.Open?
  }

  function SetLast<O>(txns: seq<Txn<O>>, t: Txn<O>): seq<Txn<O>>
    requires txns != []
  {
    txns[..|txns| - 1] + [t]
  }

  function Processed<O>(app: App<O>, c: Client<O>, p: nat, r: In): Client<O>
    requires c.Up? && p < |c.tables| && p < |c.position|
  {
    Up(c.tables[p := Update(app, c.tables[p], r)],
       c.position[p := c.position[p] + 1],
       c.pending + Effect(app, p, c.tables[p], r),
       true, c.phase)
  }

  ghost function Do<O>(app: App<O>, s: State<O>, step: Step<O>): State<O>
    requires Enabled(s, step)
  {
    var b, c := s.broker, s.client;
    match step
    case Arrive(p, r) => State(Longer(b, p, r), c)
    case Start => State(b, Up(seq(|b.inputs|, p requires 0 <= p < |b.inputs| => Restore(b, p)), b.committed, [],
                              false, Idle))
    case Begin => State(b.(txns := b.txns + [Txn(Open, [])]), c.(phase := Polling, mutated := false))
    case Process(p) => State(b, Processed(app, c, p, b.inputs[p][c.position[p]]))
    case Drain(order) => State(b, c.(pending := [], phase := Producing(order)))
    case Produce =>
      var t := b.txns[|b.txns| - 1];
      State(b.(txns := SetLast(b.txns, t.(items := t.items + [c.phase.queue[0]]))),
            c.(phase := Producing(c.phase.queue[1..])))
    case Produced => State(b, c.(phase := Polling))
    case SendCommit =>
      State(b.(txns := SetLast(b.txns, b.txns[|b.txns| - 1].(status := Prepared(c.position)))), c.(phase := Ending))
    case Complete =>
      var t := b.txns[|b.txns| - 1];
      State(b.(txns := SetLast(b.txns, t.(status := Committed)), committed := t.status.offsets), c)
    case Acknowledge => State(b, c.(phase := Idle))
    case AbortEmpty => State(b.(txns := SetLast(b.txns, b.txns[|b.txns| - 1].(status := Aborted))), c.(phase := Idle))
    case Crash => State(b, Down)
    case Resolve => State(b.(txns := SetLast(b.txns, b.txns[|b.txns| - 1].(status := Aborted))), c)
  }

  ghost predicate IsRun<O>(app: App<O>, s: State<O>, steps: seq<Step<O>>)
    decreases |steps|
  {
    steps == [] || (Enabled(s, steps[0]) && IsRun(app, Do(app, s, steps[0]), steps[1..]))
  }

  ghost function After<O>(app: App<O>, s: State<O>, steps: seq<Step<O>>): State<O>
    requires IsRun(app, s, steps)
    decreases |steps|
  {
    if steps == [] then s else After(app, Do(app, s, steps[0]), steps[1..])
  }

  /** Where the partitions stand after the given records, each named by its partition, have been consumed;
      a record that is not there is not fetched. */
  function Consumed(inputs: seq<seq<In>>, position: seq<nat>, records: seq<nat>): (after: seq<nat>)
    ensures |after| == |position|
  {
    if records == [] then position
    else
      ConsumedOne(inputs, Consumed(inputs, position, records[..|records| - 1]), records[|records| - 1])
  }

  function ConsumedOne(inputs: seq<seq<In>>, position: seq<nat>, p: nat): (after: seq<nat>)
    ensures |after| == |position|
  {
    if p < |inputs| && p < |position| && position[p] < |inputs[p]| then position[p := position[p] + 1] else position
  }

  lemma ConsumedNext(inputs: seq<seq<In>>, position: seq<nat>, records: seq<nat>, i: nat)
    requires i < |records|
    ensures Consumed(inputs, position, records[..i + 1])
            == ConsumedOne(inputs, Consumed(inputs, position, records[..i]), records[i])
  {
    assert records[..i + 1][..i] == records[..i];
  }

  /** Each partition moves by the number of its records, up to the end of its inputs. */
  lemma {:induction false} ConsumedCounts(inputs: seq<seq<In>>, position: seq<nat>, records: seq<nat>, p: nat)
    requires p < |inputs| == |position| && position[p] <= |inputs[p]|
    ensures var all := position[p] + multiset(records)[p];
      Consumed(inputs, position, records)[p] == if all < |inputs[p]| then all else |inputs[p]|
  {
    if records != [] {
      var init, last := records[..|records| - 1], records[|records| - 1];
      ConsumedCounts(inputs, position, init, p);
      assert records == init + [last];
    }
  }

  /** The inputs after the given arrivals; a partition that does not exist takes none. */
  function Arrived(inputs: seq<seq<In>>, arrivals: seq<(nat, In)>): (after: seq<seq<In>>)
    ensures |after| == |inputs|
  {
    if arrivals == [] then inputs
    else ArrivedOne(Arrived(inputs, arrivals[..|arrivals| - 1]), arrivals[|arrivals| - 1])
  }

  function ArrivedOne(inputs: seq<seq<In>>, arrival: (nat, In)): (after: seq<seq<In>>)
    ensures |after| == |inputs|
  {
    if arrival.0 < |inputs| then inputs[arrival.0 := inputs[arrival.0] + [arrival.1]] else inputs
  }

  lemma ArrivedNext(inputs: seq<seq<In>>, arrivals: seq<(nat, In)>, i: nat)
    requires i < |arrivals|
    ensures Arrived(inputs, arrivals[..i + 1]) == ArrivedOne(Arrived(inputs, arrivals[..i]), arrivals[i])
  {
    assert arrivals[..i + 1][..i] == arrivals[..i];
  }

  // What every step keeps.

  /** The open part: what the latest transaction and the client hold beyond the committed offsets. */
  ghost predicate Covers<O>(app: App<O>, b: Broker<O>, upTo: seq<nat>, items: seq<Item<O>>) {
    && |upTo| == |b.inputs| == |b.committed|
    && (forall p :: 0 <= p < |upTo| ==> b.committed[p] <= upTo[p] <= |b.inputs[p]|)
    && (forall c: Channel :: c.p < |upTo| ==>
          Project(items, c) == Project(Effects(app, c.p, b.inputs[c.p], b.committed[c.p], upTo[c.p]), c))
    && (forall c: Channel :: c.p >= |upTo| ==> Project(items, c) == [])
  }

  /** The committed part: on every channel, what the inputs below the committed offset produce. */
  ghost predicate CommittedExactly<O>(app: App<O>, b: Broker<O>) {
    && |b.inputs| == |b.committed|
    && (forall p :: 0 <= p < |b.inputs| ==> b.committed[p] <= |b.inputs[p]|)
    && (forall c: Channel :: c.p < |b.inputs| ==>
          Project(Visible(b.txns), c) == Project(Effects(app, c.p, b.inputs[c.p], 0, b.committed[c.p]), c))
    && (forall c: Channel :: c.p >= |b.inputs| ==> Project(Visible(b.txns), c) == [])
  }

  /** A prepared transaction holds exactly what lies between the committed and its own offsets. */
  ghost predicate PreparedExactly<O>(app: App<O>, b: Broker<O>) {
    b.txns != [] ==>
      var t := b.txns[|b.txns| - 1];
      t.status.Prepared? ==> Covers(app, b, t.status.offsets, t.items)
  }

  ghost predicate TablesAt<O>(app: App<O>, b: Broker<O>, tables: seq<Contents>, position: seq<nat>) {
    && |tables| == |position| == |b.inputs|
    && forall p :: 0 <= p < |tables| ==>
       position[p] <= |b.inputs[p]| && tables[p] == Table(app, b.inputs[p][..position[p]])
  }

  ghost predicate ClientOk<O>(app: App<O>, b: Broker<O>, c: Client<O>) {
    c.Up? ==>
      && TablesAt(app, b, c.tables, c.position)
      && match c.phase
         case Idle => c.position == b.committed && c.pending == [] && Settled(b.txns)
         case Polling => b.txns != [] && b.txns[|b.txns| - 1].status.Open?
                         && Covers(app, b, c.position, b.txns[|b.txns| - 1].items + c.pending)
                         && (!c.mutated ==> c.position == b.committed && c.pending == [])
         case Producing(queue) => b.txns != [] && b.txns[|b.txns| - 1].status.Open? && c.pending == [] && c.mutated
                                  && Covers(app, b, c.position, b.txns[|b.txns| - 1].items + queue)
         case Ending => c.pending == [] && b.txns != []
                        && var status := b.txns[|b.txns| - 1].status;
                           (status == Prepared(c.position)) || (status.Committed? && c.position == b.committed)
  }

  ghost predicate Inv<O>(app: App<O>, s: State<O>) {
    CommittedExactly(app, s.broker) && PreparedExactly(app, s.broker) && ClientOk(app, s.broker, s.client)
  }

  lemma {:induction false} ProjectConcat<O>(a: seq<Item<O>>, b: seq<Item<O>>, c: Channel)
    ensures Project(a + b, c) == Project(a, c) + Project(b, c)
  {
    if b == [] {
      assert a + b == a;
    } else {
      assert (a + b)[..|a + b| - 1] == a + b[..|b| - 1];
      ProjectConcat(a, b[..|b| - 1], c);
    }
  }

  lemma {:induction false} ProjectOther<O>(items: seq<Item<O>>, c: Channel)
    requires forall i :: 0 <= i < |items| ==> items[i].p != c.p
    ensures Project(items, c) == []
  {
    if items != [] { ProjectOther(items[..|items| - 1], c); }
  }

  lemma {:induction false} EffectsConcat<O>(app: App<O>, p: nat, ins: seq<In>, a: nat, b: nat, c: nat)
    requires a <= b <= c <= |ins|
    ensures Effects(app, p, ins, a, c) == Effects(app, p, ins, a, b) + Effects(app, p, ins, b, c)
  {
    if b < c { EffectsConcat(app, p, ins, a, b, c - 1); }
  }

  lemma {:induction false} EffectsOfLonger<O>(app: App<O>, p: nat, ins: seq<In>, r: In, a: nat, b: nat)
    requires b <= |ins|
    ensures Effects(app, p, ins + [r], a, b) == Effects(app, p, ins, a, b)
  {
    if a < b {
      EffectsOfLonger(app, p, ins, r, a, b - 1);
      assert (ins + [r])[..b - 1] == ins[..b - 1];
    }
  }

  lemma ArriveKeeps<O>(app: App<O>, s: State<O>, p: nat, r: In)
    requires Inv(app, s) && p < |s.broker.inputs|
    ensures Inv(app, Do(app, s, Arrive(p, r)))
  {
    CommittedLonger(app, s.broker, p, r);
    PreparedLonger(app, s.broker, p, r);
    ClientLonger(app, s.broker, s.client, p, r);
  }

  lemma CommittedLonger<O>(app: App<O>, b: Broker<O>, p: nat, r: In)
    requires p < |b.inputs| && CommittedExactly(app, b)
    ensures CommittedExactly(app, Longer(b, p, r))
  {
    SameEffects(app, b, p, r);
  }

  lemma PreparedLonger<O>(app: App<O>, b: Broker<O>, p: nat, r: In)
    requires p < |b.inputs| && PreparedExactly(app, b)
    ensures PreparedExactly(app, Longer(b, p, r))
  {
    if b.txns != [] && b.txns[|b.txns| - 1].status.Prepared? {
      CoversLonger(app, b, p, r, b.txns[|b.txns| - 1].status.offsets, b.txns[|b.txns| - 1].items);
    }
  }

  lemma ClientLonger<O>(app: App<O>, b: Broker<O>, c: Client<O>, p: nat, r: In)
    requires p < |b.inputs| && ClientOk(app, b, c)
    ensures ClientOk(app, Longer(b, p, r), c)
  {
    if c.Up? {
      TablesLonger(app, b, p, r, c.tables, c.position);
      if c.phase.Polling? { CoversLonger(app, b, p, r, c.position, b.txns[|b.txns| - 1].items + c.pending); }
      if c.phase.Producing? { CoversLonger(app, b, p, r, c.position, b.txns[|b.txns| - 1].items + c.phase.queue); }
    }
  }

  function Longer<O>(b: Broker<O>, p: nat, r: In): Broker<O>
    requires p < |b.inputs|
  {
    b.(inputs := b.inputs[p := b.inputs[p] + [r]])
  }

  lemma CoversLonger<O>(app: App<O>, b: Broker<O>, p: nat, r: In, upTo: seq<nat>, items: seq<Item<O>>)
    requires p < |b.inputs| && Covers(app, b, upTo, items)
    ensures Covers(app, Longer(b, p, r), upTo, items)
  {
    SameEffects(app, b, p, r);
  }

  lemma TablesLonger<O>(app: App<O>, b: Broker<O>, p: nat, r: In, tables: seq<Contents>, position: seq<nat>)
    requires p < |b.inputs| && TablesAt(app, b, tables, position)
    ensures TablesAt(app, Longer(b, p, r), tables, position)
  {
    var b' := Longer(b, p, r);
    assert forall q :: 0 <= q < |position| ==> b'.inputs[q][..position[q]] == b.inputs[q][..position[q]];
  }

  lemma SameEffects<O>(app: App<O>, b: Broker<O>, p: nat, r: In)
    requires p < |b.inputs|
    ensures var inputs := b.inputs[p := b.inputs[p] + [r]];
      forall q: nat, i: nat, j: nat :: q < |b.inputs| && j <= |b.inputs[q]| ==>
        Effects(app, q, inputs[q], i, j) == Effects(app, q, b.inputs[q], i, j)
  {
    forall q: nat, i: nat, j: nat | q < |b.inputs| && j <= |b.inputs[q]|
      ensures Effects(app, q, b.inputs[p := b.inputs[p] + [r]][q], i, j) == Effects(app, q, b.inputs[q], i, j)
    {
      if q == p { EffectsOfLonger(app, p, b.inputs[p], r, i, j); }
    }
  }

  // Restoring.

  /** No accumulator serialises to the empty string, which restore would take for a tombstone. */
  ghost predicate NonEmpty<O>(app: App<O>) {
    forall k, v, cur :: |app.agg(k, v, cur)| > 0
  }

  lemma {:induction false} MutationsConcat<O>(a: seq<Item<O>>, b: seq<Item<O>>)
    ensures Mutations(a + b) == Mutations(a) + Mutations(b)
  {
    if b == [] {
      assert a + b == a;
    } else {
      assert (a + b)[..|a + b| - 1] == a + b[..|b| - 1];
      MutationsConcat(a, b[..|b| - 1]);
    }
  }

  lemma {:induction false} EmittedNotLogged<O>(p: nat, items: seq<Item<O>>)
    requires forall i :: 0 <= i < |items| ==> items[i].Emit?
    ensures Project(items, Log(p)) == []
  {
    if items != [] { EmittedNotLogged(p, items[..|items| - 1]); }
  }

  lemma EffectLogged<O>(app: App<O>, p: nat, table: Contents, r: In)
    ensures Mutations(Project(Effect(app, p, table, r), Log(p)))
         == [Mutation(r.key, Some(app.agg(r.key, r.value, Lookup(table, r.key))))]
  {
    var acc := app.agg(r.key, r.value, Lookup(table, r.key));
    var w: Item<O> := Write(p, Mutation(r.key, Some(acc)));
    var rest := Emitted(p, app.outs(r.key, acc));
    ProjectConcat([w], rest, Log(p));
    EmittedNotLogged(p, rest);
    ProjectOne(w);
    assert Project([w] + rest, Log(p)) == [w];
  }

  lemma ProjectOne<O>(w: Item<O>)
    requires w.Write?
    ensures Project([w], Log(w.p)) == [w] && Mutations([w]) == [w.u]
  {
    assert [w][..0] == [];
  }

  /** The changelog a partition's inputs write replays to their fold. */
  lemma {:induction false} ChangelogIsTable<O>(app: App<O>, p: nat, ins: seq<In>, n: nat)
    requires NonEmpty(app) && n <= |ins|
    ensures Replay(map[], RestoredAll(Mutations(Project(Effects(app, p, ins, 0, n), Log(p))))) == Table(app, ins[..n])
  {
    if n == 0 {
      assert ins[..n] == [];
    } else {
      ChangelogIsTable(app, p, ins, n - 1);
      ChangelogNext(app, p, Effects(app, p, ins, 0, n - 1), Table(app, ins[..n - 1]), ins[n - 1]);
      assert ins[..n][..n - 1] == ins[..n - 1];
    }
  }

  lemma ChangelogNext<O>(app: App<O>, p: nat, before: seq<Item<O>>, table: Contents, r: In)
    requires NonEmpty(app) && Replay(map[], RestoredAll(Mutations(Project(before, Log(p))))) == table
    ensures Replay(map[], RestoredAll(Mutations(Project(before + Effect(app, p, table, r), Log(p)))))
            == Update(app, table, r)
  {
    var log := Mutations(Project(before, Log(p)));
    var u := Mutation(r.key, Some(app.agg(r.key, r.value, Lookup(table, r.key))));
    LoggedNext(app, p, before, table, r);
    RestoredSnoc(log, u);
    ReplaySnoc(map[], RestoredAll(log), u);
  }

  lemma LoggedNext<O>(app: App<O>, p: nat, before: seq<Item<O>>, table: Contents, r: In)
    ensures Mutations(Project(before + Effect(app, p, table, r), Log(p)))
         == Mutations(Project(before, Log(p))) + [Mutation(r.key, Some(app.agg(r.key, r.value, Lookup(table, r.key))))]
  {
    var effect := Effect(app, p, table, r);
    ProjectConcat(before, effect, Log(p));
    MutationsConcat(Project(before, Log(p)), Project(effect, Log(p)));
    EffectLogged(app, p, table, r);
  }

  lemma RestoreIsTable<O>(app: App<O>, b: Broker<O>, p: nat)
    requires NonEmpty(app) && CommittedExactly(app, b) && p < |b.inputs|
    ensures Restore(b, p) == Table(app, b.inputs[p][..b.committed[p]])
  {
    assert Log(p).p == p;
    ChangelogIsTable(app, p, b.inputs[p], b.committed[p]);
  }

  lemma StartKeeps<O>(app: App<O>, s: State<O>)
    requires NonEmpty(app) && Inv(app, s) && Enabled(s, Start)
    ensures Inv(app, Do(app, s, Start))
  {
    forall p: nat | p < |s.broker.inputs|
      ensures Restore(s.broker, p) == Table(app, s.broker.inputs[p][..s.broker.committed[p]])
    {
      RestoreIsTable(app, s.broker, p);
    }
  }

  // Sinks.

  lemma CarryingConcat<O>(p: nat, dest: nat, a: seq<O>, b: seq<O>)
    ensures Carrying(p, dest, a + b) == Carrying(p, dest, a) + Carrying(p, dest, b)
  {
  }

  lemma {:induction false} EmittedFor<O>(p: nat, outs: seq<(nat, O)>, dest: nat)
    ensures Project(Emitted(p, outs), Sink(p, dest)) == Carrying(p, dest, For(outs, dest))
  {
    if outs != [] {
      var init, last := outs[..|outs| - 1], outs[|outs| - 1];
      EmittedFor(p, init, dest);
      assert Emitted(p, outs)[..|outs| - 1] == Emitted(p, init);
      if last.0 == dest {
        CarryingConcat(p, dest, For(init, dest), [last.1]);
        assert Carrying(p, dest, [last.1]) == [Emit(p, dest, last.1)];
      }
    }
  }

  lemma EffectSunk<O>(app: App<O>, p: nat, table: Contents, r: In, dest: nat)
    ensures Project(Effect(app, p, table, r), Sink(p, dest))
            == Carrying(p, dest, For(app.outs(r.key, Update(app, table, r)[r.key]), dest))
  {
    var acc := app.agg(r.key, r.value, Lookup(table, r.key));
    var w: Item<O> := Write(p, Mutation(r.key, Some(acc)));
    var rest := Emitted(p, app.outs(r.key, acc));
    ProjectConcat([w], rest, Sink(p, dest));
    assert [w][..0] == [];
    assert Project([w], Sink(p, dest)) == [];
    EmittedFor(p, app.outs(r.key, acc), dest);
  }

  /** What a partition's inputs produce for a topic partition is its sink log. */
  lemma {:induction false} SinkIsSinkLog<O>(app: App<O>, p: nat, ins: seq<In>, n: nat, dest: nat)
    requires n <= |ins|
    ensures Project(Effects(app, p, ins, 0, n), Sink(p, dest)) == Carrying(p, dest, SinkLog(app, ins, n, dest))
  {
    if n > 0 {
      SinkIsSinkLog(app, p, ins, n - 1, dest);
      EffectsNext(app, ins, 0, n - 1, Sink(p, dest));
      EffectSunk(app, p, Table(app, ins[..n - 1]), ins[n - 1], dest);
      assert ins[..n][..n - 1] == ins[..n - 1];
      var k := ins[n - 1].key;
      CarryingConcat(p, dest, SinkLog(app, ins, n - 1, dest), For(app.outs(k, Table(app, ins[..n])[k]), dest));
    }
  }

  /** What the committed offsets promise of a partition: its changelog replays to the fold of the inputs below,
      and each topic partition holds exactly what these inputs send there. */
  ghost predicate Delivered<O>(app: App<O>, b: Broker<O>, p: nat) {
    && p < |b.inputs| == |b.committed| && b.committed[p] <= |b.inputs[p]|
    && Restore(b, p) == Table(app, b.inputs[p][..b.committed[p]])
    && forall dest ::
         Project(Visible(b.txns), Sink(p, dest)) == Carrying(p, dest, SinkLog(app, b.inputs[p], b.committed[p], dest))
  }

  lemma CommittedIsDelivered<O>(app: App<O>, b: Broker<O>, p: nat)
    requires NonEmpty(app) && CommittedExactly(app, b) && p < |b.inputs|
    ensures Delivered(app, b, p)
  {
    RestoreIsTable(app, b, p);
    forall dest: nat
      ensures Project(Visible(b.txns), Sink(p, dest))
              == Carrying(p, dest, SinkLog(app, b.inputs[p], b.committed[p], dest))
    {
      assert Sink(p, dest).p == p;
      SinkIsSinkLog(app, p, b.inputs[p], b.committed[p], dest);
    }
  }

  ghost predicate AllDelivered<O>(app: App<O>, b: Broker<O>) {
    forall p :: 0 <= p < |b.inputs| ==> Delivered(app, b, p)
  }

  lemma InvIsDelivered<O>(app: App<O>, s: State<O>)
    requires NonEmpty(app) && Inv(app, s)
    ensures AllDelivered(app, s.broker)
  {
    forall p | 0 <= p < |s.broker.inputs|
      ensures Delivered(app, s.broker, p)
    {
      CommittedIsDelivered(app, s.broker, p);
    }
  }

  // Transactions.

  lemma EmptyCovers<O>(app: App<O>, b: Broker<O>)
    requires CommittedExactly(app, b)
    ensures Covers(app, b, b.committed, [])
  {
  }

  lemma VisibleSnoc<O>(txns: seq<Txn<O>>, t: Txn<O>)
    ensures Visible(txns + [t]) == Visible(txns) + if t.status.Committed? then t.items else []
  {
    assert (txns + [t])[..|txns|] == txns;
  }

  /** Replacing a last transaction that is not committed by another that is not hides nothing and shows
      nothing. */
  lemma SetLastInvisible<O>(txns: seq<Txn<O>>, t: Txn<O>)
    requires txns != [] && !t.status.Committed? && !txns[|txns| - 1].status.Committed?
    ensures Visible(SetLast(txns, t)) == Visible(txns)
  {
    VisibleSnoc(txns[..|txns| - 1], t);
  }

  lemma BeginKeeps<O>(app: App<O>, s: State<O>)
    requires Inv(app, s) && Enabled(s, Begin)
    ensures Inv(app, Do(app, s, Begin))
  {
    VisibleSnoc(s.broker.txns, Txn(Open, []));
    assert Visible(s.broker.txns) + [] == Visible(s.broker.txns);
    EmptyCovers(app, s.broker);
  }

  lemma CoversNext<O>(app: App<O>, b: Broker<O>, position: seq<nat>, items: seq<Item<O>>, p: nat)
    requires Covers(app, b, position, items) && p < |position| && position[p] < |b.inputs[p]|
    ensures var n := position[p];
      Covers(app, b, position[p := n + 1], items + Effect(app, p, Table(app, b.inputs[p][..n]), b.inputs[p][n]))
  {
    var n := position[p];
    var effect, position' := Effect(app, p, Table(app, b.inputs[p][..n]), b.inputs[p][n]), position[p := n + 1];
    forall c: Channel
      ensures c.p < |position| ==>
              Project(items + effect, c)
              == Project(Effects(app, c.p, b.inputs[c.p], b.committed[c.p], position'[c.p]), c)
      ensures c.p >= |position| ==> Project(items + effect, c) == []
    {
      EffectOnChannel(app, items, p, Table(app, b.inputs[p][..n]), b.inputs[p][n], c);
      if c.p == p { EffectsNext(app, b.inputs[p], b.committed[p], n, c); }
    }
  }

  lemma EffectOnChannel<O>(app: App<O>, items: seq<Item<O>>, p: nat, table: Contents, r: In, c: Channel)
    ensures var effect := Effect(app, p, table, r);
      Project(items + effect, c) == Project(items, c) + if c.p == p then Project(effect, c) else []
  {
    var effect := Effect(app, p, table, r);
    ProjectConcat(items, effect, c);
    if c.p != p { ProjectOther(effect, c); }
  }

  lemma EffectsNext<O>(app: App<O>, ins: seq<In>, a: nat, n: nat, c: Channel)
    requires a <= n < |ins|
    ensures Project(Effects(app, c.p, ins, a, n + 1), c)
         == Project(Effects(app, c.p, ins, a, n), c) + Project(Effect(app, c.p, Table(app, ins[..n]), ins[n]), c)
  {
    ProjectConcat(Effects(app, c.p, ins, a, n), Effect(app, c.p, Table(app, ins[..n]), ins[n]), c);
  }

  lemma TablesNext<O>(app: App<O>, b: Broker<O>, tables: seq<Contents>, position: seq<nat>, p: nat)
    requires TablesAt(app, b, tables, position) && p < |position| && position[p] < |b.inputs[p]|
    ensures TablesAt(app, b, tables[p := Update(app, tables[p], b.inputs[p][position[p]])],
                     position[p := position[p] + 1])
  {
    var ins, n := b.inputs[p], position[p];
    assert ins[..n + 1][..n] == ins[..n];
  }

  lemma ProcessKeeps<O>(app: App<O>, s: State<O>, p: nat)
    requires Inv(app, s) && Enabled(s, Process(p))
    ensures Inv(app, Do(app, s, Process(p)))
  {
    ProcessedOk(app, s.broker, s.client, p);
  }

  lemma ProcessedOk<O>(app: App<O>, b: Broker<O>, c: Client<O>, p: nat)
    requires c.Up? && c.phase.Polling? && ClientOk(app, b, c)
    requires p < |b.inputs| && c.position[p] < |b.inputs[p]|
    ensures ClientOk(app, b, Processed(app, c, p, b.inputs[p][c.position[p]]))
  {
    var items := b.txns[|b.txns| - 1].items;
    TablesNext(app, b, c.tables, c.position, p);
    CoversPending(app, b, c.position, items, c.pending, p);
  }

  lemma CoversPending<O>(app: App<O>, b: Broker<O>, position: seq<nat>, items: seq<Item<O>>, pending: seq<Item<O>>,
                         p: nat)
    requires Covers(app, b, position, items + pending) && p < |position| && position[p] < |b.inputs[p]|
    ensures var n := position[p];
      Covers(app, b, position[p := n + 1],
             items + (pending + Effect(app, p, Table(app, b.inputs[p][..n]), b.inputs[p][n])))
  {
    var n := position[p];
    CoversNext(app, b, position, items + pending, p);
    Associates(items, pending, Effect(app, p, Table(app, b.inputs[p][..n]), b.inputs[p][n]));
  }

  lemma Associates<T>(a: seq<T>, b: seq<T>, c: seq<T>)
    ensures a + (b + c) == (a + b) + c
  {
  }

  lemma DrainKeeps<O>(app: App<O>, s: State<O>, order: seq<Item<O>>)
    requires Inv(app, s) && Enabled(s, Step.Drain(order))
    ensures Inv(app, Do(app, s, Step.Drain(order)))
  {
    var items := s.broker.txns[|s.broker.txns| - 1].items;
    forall ch
      ensures Project(items + order, ch) == Project(items + s.client.pending, ch)
    {
      ProjectConcat(items, order, ch);
      ProjectConcat(items, s.client.pending, ch);
    }
  }

  lemma ProduceKeeps<O>(app: App<O>, s: State<O>)
    requires Inv(app, s) && Enabled(s, Produce)
    ensures Inv(app, Do(app, s, Produce))
  {
    var t, queue := s.broker.txns[|s.broker.txns| - 1], s.client.phase.queue;
    SetLastInvisible(s.broker.txns, t.(items := t.items + [queue[0]]));
    assert t.items + [queue[0]] + queue[1..] == t.items + queue;
  }

  lemma SendCommitKeeps<O>(app: App<O>, s: State<O>)
    requires Inv(app, s) && Enabled(s, SendCommit)
    ensures Inv(app, Do(app, s, SendCommit))
  {
    var t := s.broker.txns[|s.broker.txns| - 1];
    SetLastInvisible(s.broker.txns, t.(status := Prepared(s.client.position)));
    assert t.items + [] == t.items;
  }

  lemma EffectsProjectConcat<O>(app: App<O>, ins: seq<In>, a: nat, b: nat, c: Channel)
    requires a <= b <= |ins|
    ensures Project(Effects(app, c.p, ins, 0, b), c)
            == Project(Effects(app, c.p, ins, 0, a), c) + Project(Effects(app, c.p, ins, a, b), c)
  {
    EffectsConcat(app, c.p, ins, 0, a, b);
    ProjectConcat(Effects(app, c.p, ins, 0, a), Effects(app, c.p, ins, a, b), c);
  }

  /** A commit moves the visible records and the offsets together. */
  lemma CommitExactly<O>(app: App<O>, b: Broker<O>, txns: seq<Txn<O>>, offsets: seq<nat>, items: seq<Item<O>>)
    requires CommittedExactly(app, b) && Covers(app, b, offsets, items)
    requires Visible(txns) == Visible(b.txns) + items
    ensures CommittedExactly(app, Broker(b.inputs, txns, offsets))
  {
    forall c: Channel
      ensures Project(Visible(txns), c) == Project(Visible(b.txns), c) + Project(items, c)
    {
      ProjectConcat(Visible(b.txns), items, c);
    }
    forall c: Channel | c.p < |b.inputs|
      ensures Project(Visible(txns), c) == Project(Effects(app, c.p, b.inputs[c.p], 0, offsets[c.p]), c)
    {
      EffectsProjectConcat(app, b.inputs[c.p], b.committed[c.p], offsets[c.p], c);
    }
  }

  lemma CompleteKeeps<O>(app: App<O>, s: State<O>)
    requires Inv(app, s) && Enabled(s, Complete)
    ensures Inv(app, Do(app, s, Complete))
  {
    var b := s.broker;
    var t := b.txns[|b.txns| - 1];
    var txns := SetLast(b.txns, t.(status := Committed));
    VisibleSnoc(b.txns[..|b.txns| - 1], t.(status := Committed));
    assert Visible(txns) == Visible(b.txns) + t.items;
    CommitExactly(app, b, txns, t.status.offsets, t.items);
  }

  lemma AbortKeeps<O>(app: App<O>, s: State<O>, step: Step<O>)
    requires Inv(app, s) && (step.AbortEmpty? || step.Resolve?) && Enabled(s, step)
    ensures Inv(app, Do(app, s, step))
  {
    SetLastInvisible(s.broker.txns, s.broker.txns[|s.broker.txns| - 1].(status := Aborted));
  }

  /** Every step, from every state that satisfies the invariant. */
  lemma StepKeeps<O>(app: App<O>, s: State<O>, step: Step<O>)
    requires NonEmpty(app) && Inv(app, s) && Enabled(s, step)
    ensures Inv(app, Do(app, s, step))
  {
    match step
    case Arrive(p, r) => ArriveKeeps(app, s, p, r);
    case Start => StartKeeps(app, s);
    case Begin => BeginKeeps(app, s);
    case Process(p) => ProcessKeeps(app, s, p);
    case Drain(order) => DrainKeeps(app, s, order);
    case Produce => ProduceKeeps(app, s);
    case Produced => assert s.broker.txns[|s.broker.txns| - 1].items + [] == s.broker.txns[|s.broker.txns| - 1].items;
    case SendCommit => SendCommitKeeps(app, s);
    case Complete => CompleteKeeps(app, s);
    case Acknowledge =>
    case AbortEmpty => AbortKeeps(app, s, step);
    case Crash =>
    case Resolve => AbortKeeps(app, s, step);
  }

  lemma {:induction false} RunKeeps<O>(app: App<O>, s: State<O>, steps: seq<Step<O>>)
    requires NonEmpty(app) && Inv(app, s) && IsRun(app, s, steps)
    ensures Inv(app, After(app, s, steps))
    decreases |steps|
  {
    if steps != [] {
      StepKeeps(app, s, steps[0]);
      RunKeeps(app, Do(app, s, steps[0]), steps[1..]);
    }
  }

  lemma InitialInv<O>(app: App<O>, n: nat)
    ensures Inv(app, Initial(n))
  {
  }

  /** Exactly once. In every state of every run, whatever crashed, aborted or was committed without an
      answer: the committed changelog of a partition replays to the fold of exactly the inputs below the
      committed offset, and on every sink channel the committed records are exactly the outputs for the
      accumulators these inputs make, input by input, each once, in order. */
  lemma ExactlyOnce<O>(app: App<O>, n: nat, steps: seq<Step<O>>, p: nat)
    requires NonEmpty(app) && IsRun(app, Initial(n), steps) && p < n
    ensures var b := After(app, Initial(n), steps).broker;
      && |b.inputs| == |b.committed| == n && b.committed[p] <= |b.inputs[p]|
      && Restore(b, p) == Table(app, b.inputs[p][..b.committed[p]])
      && (forall dest ::
            Project(Visible(b.txns), Sink(p, dest))
            == Carrying(p, dest, SinkLog(app, b.inputs[p], b.committed[p], dest)))
  {
    InitialInv(app, n);
    RunKeeps(app, Initial(n), steps);
    PartitionsFixed(app, Initial(n), steps);
    CommittedIsDelivered(app, After(app, Initial(n), steps).broker, p);
  }

  lemma {:induction false} PartitionsFixed<O>(app: App<O>, s: State<O>, steps: seq<Step<O>>)
    requires IsRun(app, s, steps)
    ensures |After(app, s, steps).broker.inputs| == |s.broker.inputs|
    decreases |steps|
  {
    if steps != [] { PartitionsFixed(app, Do(app, s, steps[0]), steps[1..]); }
  }
}
