/** One polled batch (internal/kafka/batch.go): `processBatch`, and `processBatchConcurrent`, whose workers
    run in any interleaving. Processing a record touches only the task of its partition. */
module Batch {
  import opened Collections

  datatype In<R> = In(partition: int, record: R)

  /** What processing does to a task; a failing record may leave its task half changed. */
  datatype Ran<T, O> = Ran(task: T, outs: seq<O>, ok: bool)

  type Processor<!T, !R, O> = (T, R) -> Ran<T, O>

  /** A task runs its records in order and stops at the first failure. */
  function RunTask<T, R, O>(proc: Processor<T, R, O>, task: T, records: seq<R>): Ran<T, O> {
    if records == [] then Ran(task, [], true)
    else
      var before := RunTask(proc, task, records[..|records| - 1]);
      if !before.ok then before
      else
        var last := proc(before.task, records[|records| - 1]);
        Ran(last.task, before.outs + last.outs, last.ok)
  }

  /** The records of one partition. */
  function Of<R>(batch: seq<In<R>>, p: int): seq<R> {
    if batch == [] then []
    else
      var last := batch[|batch| - 1];
      Of(batch[..|batch| - 1], p) + if last.partition == p then [last.record] else []
  }

  /** Outputs, each with the partition of the task it comes from. */
  type Outs<O> = seq<(int, O)>

  function Tag<O>(p: int, outs: seq<O>): (tagged: Outs<O>)
    ensures |tagged| == |outs| && forall i :: 0 <= i < |outs| ==> tagged[i] == (p, outs[i])
  {
    seq(|outs|, i requires 0 <= i < |outs| => (p, outs[i]))
  }

  function From<O>(outs: Outs<O>, p: int): seq<O> {
    if outs == [] then []
    else
      var last := outs[|outs| - 1];
      From(outs[..|outs| - 1], p) + if last.0 == p then [last.1] else []
  }

  predicate Owned<T, R>(tasks: map<int, T>, batch: seq<In<R>>) {
    forall i :: 0 <= i < |batch| ==> batch[i].partition in tasks
  }

  datatype Result<T, O> = Result(tasks: map<int, T>, outs: Outs<O>, ok: bool)

  /** The batch in order, up to the first failure. */
  function Sequential<T, R, O>(proc: Processor<T, R, O>, tasks: map<int, T>, batch: seq<In<R>>): (r: Result<T, O>)
    requires Owned(tasks, batch)
    ensures r.tasks.Keys == tasks.Keys
  {
    if batch == [] then Result(tasks, [], true)
    else
      var before, last := Sequential(proc, tasks, batch[..|batch| - 1]), batch[|batch| - 1];
      if !before.ok then before
      else
        var ran := proc(before.tasks[last.partition], last.record);
        Result(before.tasks[last.partition := ran.task], before.outs + Tag(last.partition, ran.outs), ran.ok)
  }

  lemma {:induction false} FromConcat<O>(a: Outs<O>, b: Outs<O>, p: int)
    ensures From(a + b, p) == From(a, p) + From(b, p)
  {
    if b == [] {
      assert a + b == a;
    } else {
      assert (a + b)[..|a + b| - 1] == a + b[..|b| - 1];
      FromConcat(a, b[..|b| - 1], p);
    }
  }

  lemma {:induction false} FromTag<O>(p: int, outs: seq<O>, q: int)
    ensures From(Tag(p, outs), q) == if p == q then outs else []
  {
    if outs != [] {
      FromTag(p, outs[..|outs| - 1], q);
      assert Tag(p, outs)[..|outs| - 1] == Tag(p, outs[..|outs| - 1]);
    }
  }

  /** A failure is final. */
  lemma {:induction false} RunTaskPrefix<T, R, O>(proc: Processor<T, R, O>, task: T, records: seq<R>, n: nat)
    requires n <= |records| && !RunTask(proc, task, records[..n]).ok
    ensures RunTask(proc, task, records) == RunTask(proc, task, records[..n])
  {
    if n == |records| {
      assert records[..n] == records;
    } else {
      assert records[..|records| - 1][..n] == records[..n];
      RunTaskPrefix(proc, task, records[..|records| - 1], n);
    }
  }

  lemma RunTaskSnoc<T, R, O>(proc: Processor<T, R, O>, task: T, records: seq<R>, r: R)
    requires RunTask(proc, task, records).ok
    ensures var before := RunTask(proc, task, records);
      var ran := proc(before.task, r);
      RunTask(proc, task, records + [r]) == Ran(ran.task, before.outs + ran.outs, ran.ok)
  {
    assert (records + [r])[..|records|] == records;
  }

  lemma OutsSnoc<O>(outs: Outs<O>, q: int, more: seq<O>, p: int)
    ensures From(outs + Tag(q, more), p) == From(outs, p) + if p == q then more else []
  {
    FromConcat(outs, Tag(q, more), p);
    FromTag(q, more, p);
  }

  /** As long as nothing fails, processing in batch order is processing each partition on its own. */
  lemma {:induction false} SequentialIsByTask<T, R, O>(proc: Processor<T, R, O>, tasks: map<int, T>,
                                                       batch: seq<In<R>>, p: int)
    requires Owned(tasks, batch) && p in tasks && Sequential(proc, tasks, batch).ok
    ensures var s := Sequential(proc, tasks, batch);
      RunTask(proc, tasks[p], Of(batch, p)) == Ran(s.tasks[p], From(s.outs, p), true)
  {
    if batch != [] {
      var init, last := batch[..|batch| - 1], batch[|batch| - 1];
      SequentialIsByTask(proc, tasks, init, p);
      var before := Sequential(proc, tasks, init);
      OutsSnoc(before.outs, last.partition, proc(before.tasks[last.partition], last.record).outs, p);
      if last.partition == p {
        RunTaskSnoc(proc, tasks[p], Of(init, p), last.record);
      } else {
        assert Of(batch, p) == Of(init, p) && From(before.outs, p) + [] == From(before.outs, p);
      }
    }
  }

  /** It fails only if some partition fails on its own. */
  lemma {:induction false} SequentialFailure<T, R, O>(proc: Processor<T, R, O>, tasks: map<int, T>, batch: seq<In<R>>)
    returns (p: int)
    requires Owned(tasks, batch) && !Sequential(proc, tasks, batch).ok
    ensures p in tasks && !RunTask(proc, tasks[p], Of(batch, p)).ok
  {
    var init, last := batch[..|batch| - 1], batch[|batch| - 1];
    if Sequential(proc, tasks, init).ok {
      p := last.partition;
      SequentialIsByTask(proc, tasks, init, p);
      RunTaskSnoc(proc, tasks[p], Of(init, p), last.record);
    } else {
      p := SequentialFailure(proc, tasks, init);
      var whole, part := Of(batch, p), Of(init, p);
      assert whole[..|part|] == part;
      RunTaskPrefix(proc, tasks[p], whole, |part|);
    }
  }

  /** `processBatch`: any failure discards all outputs. */
  method ProcessBatch<T, R, O>(proc: Processor<T, R, O>, tasks: map<int, T>, batch: seq<In<R>>)
    returns (tasks': map<int, T>, outs: Outs<O>, ok: bool)
    requires Owned(tasks, batch)
    ensures var s := Sequential(proc, tasks, batch);
      tasks' == s.tasks && ok == s.ok && outs == if ok then s.outs else []
  {
    tasks', outs := tasks, [];
    for i := 0 to |batch|
      invariant Owned(tasks, batch[..i]) && Sequential(proc, tasks, batch[..i]) == Result(tasks', outs, true)
    {
      assert batch[..i + 1][..i] == batch[..i];
      var p := batch[i].partition;
      var ran := proc(tasks'[p], batch[i].record);
      tasks' := tasks'[p := ran.task];
      if !ran.ok {
        FailureIsFinal(proc, tasks, batch, i + 1);
        return tasks', [], false;
      }
      outs := outs + Tag(p, ran.outs);
    }
    assert batch[..|batch|] == batch;
    ok := true;
  }

  lemma {:induction false} FailureIsFinal<T, R, O>(proc: Processor<T, R, O>, tasks: map<int, T>, batch: seq<In<R>>,
                                                   n: nat)
    requires n <= |batch| && Owned(tasks, batch) && !Sequential(proc, tasks, batch[..n]).ok
    ensures Sequential(proc, tasks, batch) == Sequential(proc, tasks, batch[..n])
  {
    if n == |batch| {
      assert batch[..n] == batch;
    } else {
      assert batch[..|batch| - 1][..n] == batch[..n];
      FailureIsFinal(proc, tasks, batch[..|batch| - 1], n);
    }
  }

  // The concurrent form.

  /** The partitions of a batch, by first appearance. */
  function Partitions<R>(batch: seq<In<R>>): (ids: seq<int>)
    ensures Distinct(ids)
  {
    if batch == [] then []
    else
      var before, p := Partitions(batch[..|batch| - 1]), batch[|batch| - 1].partition;
      if p in before then before else before + [p]
  }

  /** The first record of partition `p` in the batch. */
  predicate FirstAt<R>(batch: seq<In<R>>, p: int, i: nat) {
    i < |batch| && batch[i].partition == p && forall j :: 0 <= j < i ==> batch[j].partition != p
  }

  /** Every partition that has a record is listed, in the order of the first records. */
  lemma {:induction false} PartitionsByFirst<R>(batch: seq<In<R>>)
    ensures forall p :: p in Partitions(batch) <==> exists i :: FirstAt(batch, p, i)
    ensures var ids := Partitions(batch);
      forall a, b, i, j :: 0 <= a < b < |ids| && FirstAt(batch, ids[a], i) && FirstAt(batch, ids[b], j) ==> i < j
  {
    if batch != [] {
      var n := |batch| - 1;
      var init, last := batch[..n], batch[n].partition;
      PartitionsByFirst(init);
      var before, ids := Partitions(init), Partitions(batch);
      forall p, i: nat ensures FirstAt(batch, p, i) <==> FirstAt(init, p, i) || (i == n && p == last && p !in before) {
        FirstInLonger(batch, p, i);
      }
      forall p ensures p in ids <==> exists i :: FirstAt(batch, p, i) {
        if p in before { var i: nat :| FirstAt(init, p, i); assert FirstAt(batch, p, i); }
        if p == last && p !in before { assert FirstAt(batch, p, n); }
      }
    }
  }

  lemma FirstInLonger<R>(batch: seq<In<R>>, p: int, i: nat)
    requires batch != []
    requires var init := batch[..|batch| - 1]; forall p :: p in Partitions(init) <==> exists i :: FirstAt(init, p, i)
    ensures var n := |batch| - 1;
      FirstAt(batch, p, i)
      <==> FirstAt(batch[..n], p, i) || (i == n && p == batch[n].partition && p !in Partitions(batch[..n]))
  {
    var n := |batch| - 1;
    var init := batch[..n];
    if i == n && p in Partitions(init) {
      var k: nat :| FirstAt(init, p, k);
      assert batch[k].partition == p;
    }
    if i == n && p !in Partitions(init) {
      NoneFirst(init, p);
      assert forall j :: 0 <= j < n ==> batch[j] == init[j];
    }
  }

  /** A partition without a first record has none. */
  lemma {:induction false} NoneFirst<R>(batch: seq<In<R>>, p: int)
    requires forall i: nat :: !FirstAt(batch, p, i)
    ensures forall j :: 0 <= j < |batch| ==> batch[j].partition != p
  {
    if batch != [] {
      var init := batch[..|batch| - 1];
      forall i: nat ensures !FirstAt(init, p, i) { assert !FirstAt(batch, p, i); }
      NoneFirst(init, p);
      assert !FirstAt(batch, p, |batch| - 1);
    }
  }

  lemma {:induction false} PartitionsOwned<T, R>(tasks: map<int, T>, batch: seq<In<R>>, p: int)
    requires Owned(tasks, batch) && p in Partitions(batch)
    ensures p in tasks
  {
    if p != batch[|batch| - 1].partition { PartitionsOwned(tasks, batch[..|batch| - 1], p); }
  }

  lemma {:induction false} OfNone<R>(batch: seq<In<R>>, p: int)
    requires p !in Partitions(batch)
    ensures Of(batch, p) == []
  {
    if batch != [] { OfNone(batch[..|batch| - 1], p); }
  }

  /** One group per partition, by first appearance, with the partition's records in order. */
  ghost predicate Grouped<R>(batch: seq<In<R>>, ids: seq<int>, groups: seq<seq<R>>) {
    ids == Partitions(batch) && |groups| == |ids| && forall i :: 0 <= i < |ids| ==> groups[i] == Of(batch, ids[i])
  }

  /** `groupIndex`: where each partition's group is. */
  ghost predicate Indexes(index: map<int, nat>, ids: seq<int>) {
    && (forall p :: p in index ==> index[p] < |ids| && ids[index[p]] == p)
    && (forall i :: 0 <= i < |ids| ==> ids[i] in index)
  }

  lemma IndexesNext(index: map<int, nat>, ids: seq<int>, p: int)
    requires Indexes(index, ids) && p !in index
    ensures p !in ids && Indexes(index[p := |ids|], ids + [p])
  {
  }

  /** One more record goes to one group. */
  lemma OfSnoc<R>(batch: seq<In<R>>, n: nat, ids: seq<int>, groups: seq<seq<R>>, k: nat)
    requires n < |batch| && |groups| == |ids| && k < |ids| && ids[k] == batch[n].partition && Distinct(ids)
    requires forall i :: 0 <= i < |ids| ==> groups[i] == Of(batch[..n], ids[i])
    ensures var groups' := groups[k := groups[k] + [batch[n].record]];
      forall i :: 0 <= i < |ids| ==> groups'[i] == Of(batch[..n + 1], ids[i])
  {
    assert batch[..n + 1][..n] == batch[..n];
    forall i | 0 <= i < |ids|
      ensures i == k ==> Of(batch[..n + 1], ids[i]) == groups[i] + [batch[n].record]
      ensures i != k ==> Of(batch[..n + 1], ids[i]) == groups[i]
    {
      if i < k { assert ids[i] != ids[k]; } else if k < i { assert ids[k] != ids[i]; }
    }
  }

  /** The grouping loop. */
  method Group<R>(batch: seq<In<R>>) returns (ids: seq<int>, groups: seq<seq<R>>)
    ensures Grouped(batch, ids, groups)
  {
    ids, groups := [], [];
    var index: map<int, nat> := map[];
    for n := 0 to |batch|
      invariant Grouped(batch[..n], ids, groups) && Indexes(index, ids)
    {
      assert batch[..n + 1][..n] == batch[..n];
      var p := batch[n].partition;
      if p !in index {
        OfNone(batch[..n], p);
        IndexesNext(index, ids, p);
        index := index[p := |groups|];
        ids, groups := ids + [p], groups + [[]];
      }
      assert Indexes(index, ids) && p in index;
      assert ids == Partitions(batch[..n + 1]);
      OfSnoc(batch, n, ids, groups, index[p]);
      groups := groups[index[p] := groups[index[p]] + [batch[n].record]];
    }
    assert batch[..|batch|] == batch;
  }

  /** What the workers share: per group, the records done, the outputs so far and whether it failed. */
  datatype Workers<T, O> = Workers(tasks: map<int, T>, done: seq<nat>, outs: seq<seq<O>>, failed: seq<bool>)

  predicate Finished<T, R, O>(w: Workers<T, O>, groups: seq<seq<R>>, i: nat)
    requires i < |groups| == |w.done| == |w.failed|
  {
    w.failed[i] || w.done[i] >= |groups[i]|
  }

  /** Worker `i` stands where its own partition stands after `done[i]` of its records. */
  ghost predicate WorkerOk<T, R, O>(proc: Processor<T, R, O>, tasks: map<int, T>, ids: seq<int>, groups: seq<seq<R>>,
                                    w: Workers<T, O>, i: nat)
    requires i < |ids| == |groups| == |w.done| == |w.outs| == |w.failed|
  {
    && ids[i] in tasks && ids[i] in w.tasks && w.done[i] <= |groups[i]|
    && RunTask(proc, tasks[ids[i]], groups[i][..w.done[i]]) == Ran(w.tasks[ids[i]], w.outs[i], !w.failed[i])
  }

  ghost predicate WorkersOk<T, R, O>(proc: Processor<T, R, O>, tasks: map<int, T>, ids: seq<int>, groups: seq<seq<R>>,
                                     w: Workers<T, O>) {
    && Distinct(ids) && |ids| == |groups| == |w.done| == |w.outs| == |w.failed|
    && w.tasks.Keys == tasks.Keys
    && (forall i :: 0 <= i < |ids| ==> WorkerOk(proc, tasks, ids, groups, w, i))
    && (forall p :: p in tasks && p !in ids ==> w.tasks[p] == tasks[p])
  }

  /** Worker `i` processes its next record. */
  function Advance<T, R, O>(proc: Processor<T, R, O>, ids: seq<int>, groups: seq<seq<R>>, w: Workers<T, O>,
                            i: nat): Workers<T, O>
    requires i < |ids| == |groups| == |w.done| == |w.outs| == |w.failed| && ids[i] in w.tasks && !Finished(w, groups, i)
  {
    var ran := proc(w.tasks[ids[i]], groups[i][w.done[i]]);
    Workers(w.tasks[ids[i] := ran.task], w.done[i := w.done[i] + 1], w.outs[i := w.outs[i] + ran.outs],
            w.failed[i := !ran.ok])
  }

  lemma AdvanceKeeps<T, R, O>(proc: Processor<T, R, O>, tasks: map<int, T>, ids: seq<int>, groups: seq<seq<R>>,
                              w: Workers<T, O>, i: nat)
    requires WorkersOk(proc, tasks, ids, groups, w) && i < |ids| && !Finished(w, groups, i)
    ensures WorkerOk(proc, tasks, ids, groups, w, i)
            && WorkersOk(proc, tasks, ids, groups, Advance(proc, ids, groups, w, i))
  {
    assert WorkerOk(proc, tasks, ids, groups, w, i);
    var w' := Advance(proc, ids, groups, w, i);
    var n := w.done[i];
    assert groups[i][..n + 1] == groups[i][..n] + [groups[i][n]];
    RunTaskSnoc(proc, tasks[ids[i]], groups[i][..n], groups[i][n]);
    forall j | 0 <= j < |ids|
      ensures WorkerOk(proc, tasks, ids, groups, w', j)
    {
      assert WorkerOk(proc, tasks, ids, groups, w, j);
      if j < i { assert ids[j] != ids[i]; } else if i < j { assert ids[i] != ids[j]; }
    }
  }

  /** Records still to be processed. */
  function Left<R>(groups: seq<seq<R>>, done: seq<nat>): nat
    requires |groups| == |done|
  {
    if groups == [] then 0
    else
      var n := |groups| - 1;
      Left(groups[..n], done[..n]) + if done[n] <= |groups[n]| then |groups[n]| - done[n] else 0
  }

  lemma {:induction false} LeftDecreases<R>(groups: seq<seq<R>>, done: seq<nat>, i: nat)
    requires |groups| == |done| && i < |done| && done[i] < |groups[i]|
    ensures Left(groups, done[i := done[i] + 1]) < Left(groups, done)
  {
    var n := |groups| - 1;
    var done' := done[i := done[i] + 1];
    if i < n {
      LeftDecreases(groups[..n], done[..n], i);
      assert done'[..n] == done[..n][i := done[i] + 1];
    } else {
      assert done'[..n] == done[..n];
    }
  }

  /** The workers, one record at a time, in any interleaving, until all have finished. The semaphore only
      rules interleavings out. */
  method RunWorkers<T, R, O>(proc: Processor<T, R, O>, tasks: map<int, T>, ids: seq<int>, groups: seq<seq<R>>)
    returns (w: Workers<T, O>)
    requires Distinct(ids) && |ids| == |groups| && forall i :: 0 <= i < |ids| ==> ids[i] in tasks
    ensures WorkersOk(proc, tasks, ids, groups, w)
    ensures forall i :: 0 <= i < |ids| ==> Finished(w, groups, i)
  {
    w := Workers(tasks, seq(|ids|, _ => 0), seq(|ids|, _ => []), seq(|ids|, _ => false));
    while exists i :: 0 <= i < |ids| && !Finished(w, groups, i)
      invariant WorkersOk(proc, tasks, ids, groups, w)
      decreases Left(groups, w.done)
    {
      var i :| 0 <= i < |ids| && !Finished(w, groups, i);
      AdvanceKeeps(proc, tasks, ids, groups, w, i);
      LeftDecreases(groups, w.done, i);
      w := Advance(proc, ids, groups, w, i);
    }
  }

  /** Outputs in group order. */
  function Gathered<O>(ids: seq<int>, outs: seq<seq<O>>): Outs<O>
    requires |ids| == |outs|
  {
    if ids == [] then [] else Gathered(ids[..|ids| - 1], outs[..|ids| - 1]) + Tag(ids[|ids| - 1], outs[|ids| - 1])
  }

  lemma {:induction false} GatheredFrom<O>(ids: seq<int>, outs: seq<seq<O>>, p: int)
    requires Distinct(ids) && |ids| == |outs|
    ensures p !in ids ==> From(Gathered(ids, outs), p) == []
    ensures forall i :: 0 <= i < |ids| && ids[i] == p ==> From(Gathered(ids, outs), p) == outs[i]
  {
    if ids != [] {
      var n := |ids| - 1;
      GatheredFrom(ids[..n], outs[..n], p);
      OutsSnoc(Gathered(ids[..n], outs[..n]), ids[n], outs[n], p);
    }
  }

  /** The finished workers agree with processing each partition on its own. */
  lemma FinishedIsWhole<T, R, O>(proc: Processor<T, R, O>, tasks: map<int, T>, ids: seq<int>, groups: seq<seq<R>>,
                                 w: Workers<T, O>, i: nat)
    requires WorkersOk(proc, tasks, ids, groups, w) && i < |ids| && Finished(w, groups, i)
    ensures ids[i] in tasks && ids[i] in w.tasks
    ensures RunTask(proc, tasks[ids[i]], groups[i]) == Ran(w.tasks[ids[i]], w.outs[i], !w.failed[i])
  {
    assert WorkerOk(proc, tasks, ids, groups, w, i);
    if w.failed[i] {
      RunTaskPrefix(proc, tasks[ids[i]], groups[i], w.done[i]);
    } else {
      assert groups[i][..w.done[i]] == groups[i];
    }
  }

  lemma WorkerFailed<T, R, O>(proc: Processor<T, R, O>, tasks: map<int, T>, batch: seq<In<R>>, ids: seq<int>,
                              groups: seq<seq<R>>, w: Workers<T, O>, i: nat)
    requires Owned(tasks, batch) && Grouped(batch, ids, groups) && WorkersOk(proc, tasks, ids, groups, w)
    requires i < |ids| && w.failed[i]
    ensures !Sequential(proc, tasks, batch).ok
  {
    FinishedIsWhole(proc, tasks, ids, groups, w, i);
    if Sequential(proc, tasks, batch).ok {
      SequentialIsByTask(proc, tasks, batch, ids[i]);
    }
  }

  ghost predicate Succeeded<T, R, O>(proc: Processor<T, R, O>, tasks: map<int, T>, batch: seq<In<R>>, ids: seq<int>,
                                     groups: seq<seq<R>>, w: Workers<T, O>) {
    && Owned(tasks, batch) && Grouped(batch, ids, groups) && WorkersOk(proc, tasks, ids, groups, w)
    && forall i :: 0 <= i < |ids| ==> Finished(w, groups, i) && !w.failed[i]
  }

  lemma SequentialSucceeds<T, R, O>(proc: Processor<T, R, O>, tasks: map<int, T>, batch: seq<In<R>>, ids: seq<int>,
                                    groups: seq<seq<R>>, w: Workers<T, O>)
    requires Succeeded(proc, tasks, batch, ids, groups, w)
    ensures Sequential(proc, tasks, batch).ok
  {
    if !Sequential(proc, tasks, batch).ok {
      var p := SequentialFailure(proc, tasks, batch);
      OneWorker(proc, tasks, batch, ids, groups, w, p);
    }
  }

  lemma SameAt<T, R, O>(proc: Processor<T, R, O>, tasks: map<int, T>, batch: seq<In<R>>, ids: seq<int>,
                        groups: seq<seq<R>>, w: Workers<T, O>, p: int)
    requires Succeeded(proc, tasks, batch, ids, groups, w) && Sequential(proc, tasks, batch).ok
    ensures var s := Sequential(proc, tasks, batch);
      (p in tasks ==> w.tasks[p] == s.tasks[p]) && From(Gathered(ids, w.outs), p) == From(s.outs, p)
  {
    if p in tasks {
      OneWorker(proc, tasks, batch, ids, groups, w, p);
      SequentialIsByTask(proc, tasks, batch, p);
    } else {
      if p in ids { PartitionsOwned(tasks, batch, p); }
      GatheredFrom(ids, w.outs, p);
      NoForeignOutputs(proc, tasks, batch, p);
    }
  }

  lemma WorkersSucceeded<T, R, O>(proc: Processor<T, R, O>, tasks: map<int, T>, batch: seq<In<R>>, ids: seq<int>,
                                  groups: seq<seq<R>>, w: Workers<T, O>)
    requires Succeeded(proc, tasks, batch, ids, groups, w)
    ensures var s := Sequential(proc, tasks, batch);
      s.ok && w.tasks == s.tasks && forall p :: From(Gathered(ids, w.outs), p) == From(s.outs, p)
  {
    SequentialSucceeds(proc, tasks, batch, ids, groups, w);
    SameTasks(proc, tasks, batch, ids, groups, w);
    forall p
      ensures From(Gathered(ids, w.outs), p) == From(Sequential(proc, tasks, batch).outs, p)
    {
      SameAt(proc, tasks, batch, ids, groups, w, p);
    }
  }

  lemma SameTasks<T, R, O>(proc: Processor<T, R, O>, tasks: map<int, T>, batch: seq<In<R>>, ids: seq<int>,
                           groups: seq<seq<R>>, w: Workers<T, O>)
    requires Succeeded(proc, tasks, batch, ids, groups, w) && Sequential(proc, tasks, batch).ok
    ensures w.tasks == Sequential(proc, tasks, batch).tasks
  {
    var b := Sequential(proc, tasks, batch).tasks;
    forall p | p in w.tasks
      ensures w.tasks[p] == b[p]
    {
      SameAt(proc, tasks, batch, ids, groups, w, p);
    }
    SameMaps(w.tasks, b);
  }

  lemma SameMaps<K, T>(a: map<K, T>, b: map<K, T>)
    requires a.Keys == b.Keys && forall p :: p in a ==> a[p] == b[p]
    ensures a == b
  {
    assert forall p :: p in a <==> p in a.Keys;
    assert forall p :: p in b <==> p in b.Keys;
  }

  /** The outputs of a batch, partition by partition. */
  function ByPartition<O>(ids: seq<int>, outs: Outs<O>): Outs<O> {
    Gathered(ids, seq(|ids|, i requires 0 <= i < |ids| => From(outs, ids[i])))
  }

  lemma GatheredByPartition<O>(ids: seq<int>, parts: seq<seq<O>>, outs: Outs<O>)
    requires Distinct(ids) && |ids| == |parts| && forall p :: From(Gathered(ids, parts), p) == From(outs, p)
    ensures Gathered(ids, parts) == ByPartition(ids, outs)
  {
    forall i | 0 <= i < |ids| ensures parts[i] == From(outs, ids[i]) {
      GatheredFrom(ids, parts, ids[i]);
    }
    assert parts == seq(|ids|, i requires 0 <= i < |ids| => From(outs, ids[i]));
  }

  lemma OneWorker<T, R, O>(proc: Processor<T, R, O>, tasks: map<int, T>, batch: seq<In<R>>, ids: seq<int>,
                           groups: seq<seq<R>>, w: Workers<T, O>, p: int)
    requires Succeeded(proc, tasks, batch, ids, groups, w) && p in tasks
    ensures RunTask(proc, tasks[p], Of(batch, p)) == Ran(w.tasks[p], From(Gathered(ids, w.outs), p), true)
  {
    GatheredFrom(ids, w.outs, p);
    if p in ids {
      var i :| 0 <= i < |ids| && ids[i] == p;
      FinishedIsWhole(proc, tasks, ids, groups, w, i);
    } else {
      OfNone(batch, p);
    }
  }

  lemma {:induction false} NoForeignOutputs<T, R, O>(proc: Processor<T, R, O>, tasks: map<int, T>, batch: seq<In<R>>,
                                                     p: int)
    requires Owned(tasks, batch) && p !in tasks
    ensures From(Sequential(proc, tasks, batch).outs, p) == []
  {
    if batch != [] {
      var init, last := batch[..|batch| - 1], batch[|batch| - 1];
      NoForeignOutputs(proc, tasks, init, p);
      var before := Sequential(proc, tasks, init);
      OutsSnoc(before.outs, last.partition, proc(before.tasks[last.partition], last.record).outs, p);
    }
  }

  /** `processBatchConcurrent` refines `processBatch`: whatever the interleaving, the flag is the same;
      when it is set, so are the final tasks and the output sequence of every partition, and outputs
      come in order of first appearance; when it is not, there are no outputs. */
  method ProcessBatchConcurrent<T, R, O>(proc: Processor<T, R, O>, tasks: map<int, T>, batch: seq<In<R>>,
                                         maxThreads: int)
    returns (tasks': map<int, T>, outs: Outs<O>, ok: bool)
    requires Owned(tasks, batch)
    ensures var s := Sequential(proc, tasks, batch);
      && ok == s.ok
      && (ok ==> tasks' == s.tasks && forall p :: From(outs, p) == From(s.outs, p))
      && (ok && maxThreads > 1 && |batch| >= 2 && |Partitions(batch)| != 1 ==>
         outs == ByPartition(Partitions(batch), s.outs))
      && (!ok ==> outs == [])
  {
    if maxThreads <= 1 || |batch| < 2 {
      tasks', outs, ok := ProcessBatch(proc, tasks, batch);
      return;
    }
    var ids, groups := Group(batch);
    if |groups| == 1 {
      tasks', outs, ok := ProcessBatch(proc, tasks, batch);
      return;
    }
    forall i | 0 <= i < |ids| ensures ids[i] in tasks {
      assert ids[i] in ids;
      PartitionsOwned(tasks, batch, ids[i]);
    }
    var w := RunWorkers(proc, tasks, ids, groups);
    tasks' := w.tasks;
    ok, outs := Collect(ids, w);
    if ok {
      WorkersSucceeded(proc, tasks, batch, ids, groups, w);
      GatheredByPartition(ids, w.outs, Sequential(proc, tasks, batch).outs);
    } else {
      var i :| 0 <= i < |ids| && w.failed[i];
      WorkerFailed(proc, tasks, batch, ids, groups, w, i);
    }
  }

  /** The results, in group order; one failure discards all. */
  method Collect<T, O>(ids: seq<int>, w: Workers<T, O>) returns (ok: bool, outs: Outs<O>)
    requires |ids| == |w.outs| == |w.failed|
    ensures ok <==> forall i :: 0 <= i < |ids| ==> !w.failed[i]
    ensures outs == if ok then Gathered(ids, w.outs) else []
  {
    outs := [];
    for i := 0 to |ids|
      invariant outs == Gathered(ids[..i], w.outs[..i])
      invariant forall j :: 0 <= j < i ==> !w.failed[j]
    {
      if w.failed[i] { return false, []; }
      assert ids[..i + 1][..i] == ids[..i] && w.outs[..i + 1][..i] == w.outs[..i];
      outs := outs + Tag(ids[i], w.outs[i]);
    }
    assert ids[..|ids|] == ids && w.outs[..|ids|] == w.outs;
    ok := true;
  }
}
