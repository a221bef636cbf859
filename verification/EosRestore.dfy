/** The two halves together: what the restore loop of internal/runtime/restore.go reads back from the
    changelog partition that exactly-once runs leave behind. */
module EosRestore {
  import opened Wrappers
  import opened Changelog
  import opened Collections
  import E = Eos
  import R = Restore

  /** The changelog records of partition `p` in one transaction, as a read-committed consumer meets them. */
  function Entries<O>(items: seq<E.Item<O>>, committed: bool, p: nat): R.Log {
    if items == [] then []
    else
      var last := items[|items| - 1];
      Entries(items[..|items| - 1], committed, p)
      + if E.ChannelOf(last) != E.Log(p) then []
        else if !committed then [R.Hidden]
        else [R.Visible(last.u.key, if last.u.value.Some? then last.u.value.value else [])]
  }

  /** The changelog partition: each transaction's records, then its marker. */
  function LogOf<O>(txns: seq<E.Txn<O>>, p: nat): R.Log {
    if txns == [] then []
    else
      var last := txns[|txns| - 1];
      LogOf(txns[..|txns| - 1], p) + Entries(last.items, last.status.Committed?, p) + [R.Hidden]
  }

  function All(log: R.Log): seq<Mutation> { R.Mutations(log, 0, |log|) }

  lemma {:induction false} AllConcat(a: R.Log, b: R.Log)
    ensures All(a + b) == All(a) + All(b)
  {
    if b == [] {
      assert a + b == a;
    } else {
      var n := |b| - 1;
      AllConcat(a, b[..n]);
      assert a + b == (a + b[..n]) + [b[n]];
      R.MutationsOfPrefix(a + b[..n], a + b, 0, |a| + n);
      R.MutationsOfPrefix(b[..n], b, 0, n);
    }
  }

  lemma AllOne(e: R.Entry)
    ensures All([e]) == if e.Visible? then [Restored(Mutation(e.key, Some(e.value)))] else []
  {
    assert R.Mutations([e], 0, 0) == [];
  }

  lemma RestoredConcat(a: seq<Mutation>, b: seq<Mutation>)
    ensures RestoredAll(a + b) == RestoredAll(a) + RestoredAll(b)
  {
  }

  function Logged<O>(items: seq<E.Item<O>>, p: nat): seq<Mutation> {
    RestoredAll(E.Mutations(E.Project(items, E.Log(p))))
  }

  lemma LoggedConcat<O>(a: seq<E.Item<O>>, b: seq<E.Item<O>>, p: nat)
    ensures Logged(a + b, p) == Logged(a, p) + Logged(b, p)
  {
    E.ProjectConcat(a, b, E.Log(p));
    E.MutationsConcat(E.Project(a, E.Log(p)), E.Project(b, E.Log(p)));
    RestoredConcat(E.Mutations(E.Project(a, E.Log(p))), E.Mutations(E.Project(b, E.Log(p))));
  }

  lemma LoggedOne<O>(i: E.Item<O>, p: nat)
    ensures Logged([i], p) == if E.ChannelOf(i) == E.Log(p) then [Restored(i.u)] else []
  {
    assert [i][..0] == [];
    if E.ChannelOf(i) == E.Log(p) {
      E.ProjectOne(i);
      assert RestoredAll([i.u]) == [Restored(i.u)];
    } else {
      assert E.Project([i], E.Log(p)) == [];
    }
  }

  lemma {:induction false} EntriesLogged<O>(items: seq<E.Item<O>>, p: nat)
    ensures All(Entries(items, true, p)) == Logged(items, p)
    ensures All(Entries(items, false, p)) == []
  {
    if items != [] {
      var init, last := items[..|items| - 1], items[|items| - 1];
      EntriesLogged(init, p);
      LoggedConcat(init, [last], p);
      LoggedOne(last, p);
      assert items == init + [last];
      if E.ChannelOf(last) == E.Log(p) {
        var e := R.Visible(last.u.key, if last.u.value.Some? then last.u.value.value else []);
        AllConcat(Entries(init, true, p), [e]);
        AllConcat(Entries(init, false, p), [R.Hidden]);
        AllOne(e);
        AllOne(R.Hidden);
      } else {
        assert Entries(items, true, p) == Entries(init, true, p) && Entries(items, false, p) == Entries(init, false, p);
        assert Logged(init, p) + [] == Logged(init, p);
      }
    }
  }

  /** Reading the partition, aborted records and markers skipped, gives the committed changelog. */
  lemma {:induction false} LogIsVisible<O>(txns: seq<E.Txn<O>>, p: nat)
    ensures All(LogOf(txns, p)) == Logged(E.Visible(txns), p)
  {
    if txns != [] {
      var init, last := txns[..|txns| - 1], txns[|txns| - 1];
      LogIsVisible(init, p);
      EntriesLogged(last.items, p);
      var entries := Entries(last.items, last.status.Committed?, p);
      AllConcat(LogOf(init, p) + entries, [R.Hidden]);
      AllConcat(LogOf(init, p), entries);
      AllOne(R.Hidden);
      LoggedConcat(E.Visible(init), if last.status.Committed? then last.items else [], p);
    }
  }

  /** After any run, with a transaction that is still open counted as hidden, the restore loop run against the
      partition on an empty backend, with any chunking of its polls, leaves the fold of exactly the inputs
      below the committed offset. */
  lemma RestartRestoresFold<O>(app: E.App<O>, n: nat, steps: seq<E.Step<O>>, p: nat, b: R.Broker)
    requires E.NonEmpty(app) && E.IsRun(app, E.Initial(n), steps) && p < n
    requires b.log == LogOf(E.After(app, E.Initial(n), steps).broker.txns, p) && b.hw == |b.log| && b.earliest == 0
    requires if b.hw == 0 then b.Valid(0) else R.Completes(b, 0)
    ensures var broker := E.After(app, E.Initial(n), steps).broker;
      && |broker.inputs| == |broker.committed| == n && broker.committed[p] <= |broker.inputs[p]|
      && R.Restoring(R.State(map[], None), b, -1).data == E.Table(app, broker.inputs[p][..broker.committed[p]])
  {
    var broker := E.After(app, E.Initial(n), steps).broker;
    E.ExactlyOnce(app, n, steps, p);
    LogIsVisible(broker.txns, p);
    assert E.Restore(broker, p) == Replay(map[], All(b.log));
    if b.hw > 0 {
      R.RestoreComplete(R.State(map[], None), b, -1);
      assert R.StartOffset(-1, 0) == 0;
      assert Max(R.Ended(b, 0).end, b.hw) == b.hw;
    }
  }
}
