/** Store mutations, their replay, and the fidelity of the mutation log: what
    `recordMutation`, `DrainMutations`, the changelog topic and `Backend.Restore` do to a store's
    contents, as mathematics on maps and sequences. */
module Changelog {
  import opened Wrappers
  import opened ByteOrder
  import CK = CompositeKey

  type Contents = map<Bytes, Bytes>

  /** `gstream.StoreMutation`; a missing value is a deletion. */
  datatype Mutation = Mutation(key: Bytes, value: Option<Bytes>)

  function Lookup<K, V>(m: map<K, V>, k: K): Option<V> {
    if k in m then Some(m[k]) else None
  }

  function Apply(m: Contents, u: Mutation): Contents {
    if u.value.Some? then m[u.key := u.value.value] else m - {u.key}
  }

  function Replay(m: Contents, log: seq<Mutation>): Contents {
    if log == [] then m else Apply(Replay(m, log[..|log| - 1]), log[|log| - 1])
  }

  lemma {:induction false} ReplayConcat(m: Contents, a: seq<Mutation>, b: seq<Mutation>)
    ensures Replay(m, a + b) == Replay(Replay(m, a), b)
  {
    if b == [] {
      assert a + b == a;
    } else {
      assert (a + b)[..|a + b| - 1] == a + b[..|b| - 1];
      ReplayConcat(m, a, b[..|b| - 1]);
    }
  }

  lemma ReplaySnoc(m: Contents, log: seq<Mutation>, u: Mutation)
    ensures Replay(m, log + [u]) == Apply(Replay(m, log), u)
  {
    assert (log + [u])[..|log|] == log;
  }

  /** The last mutation of `k` in the log, if any. */
  function LastWrite(log: seq<Mutation>, k: Bytes): Option<Mutation> {
    if log == [] then None
    else if log[|log| - 1].key == k then Some(log[|log| - 1])
    else LastWrite(log[..|log| - 1], k)
  }

  /** Last writer wins: what replay leaves at `k` depends on the last mutation of `k` alone. */
  lemma {:induction false} ReplayAt(m: Contents, log: seq<Mutation>, k: Bytes)
    ensures Lookup(Replay(m, log), k)
         == (if LastWrite(log, k).Some? then LastWrite(log, k).value.value else Lookup(m, k))
  {
    if log != [] { ReplayAt(m, log[..|log| - 1], k); }
  }

  lemma {:induction false} LastWriteConcat(a: seq<Mutation>, b: seq<Mutation>, k: Bytes)
    ensures LastWrite(a + b, k) == (if LastWrite(b, k).Some? then LastWrite(b, k) else LastWrite(a, k))
  {
    if b == [] {
      assert a + b == a;
    } else {
      assert (a + b)[..|a + b| - 1] == a + b[..|b| - 1];
      LastWriteConcat(a, b[..|b| - 1], k);
    }
  }

  lemma SameLookups(a: Contents, b: Contents)
    requires forall k :: Lookup(a, k) == Lookup(b, k)
    ensures a == b
  {
    forall k
      ensures k in a <==> k in b
      ensures k in a ==> a[k] == b[k]
    {
      assert Lookup(a, k) == Lookup(b, k);
    }
  }

  /** Overlapping replay is harmless: a store that already holds the first `n` mutations and replays
      everything from some `i <= n` ends as one full replay would leave it. */
  lemma OverlappingReplay(base: Contents, log: seq<Mutation>, i: nat, n: nat)
    requires i <= n <= |log|
    ensures Replay(Replay(base, log[..n]), log[i..]) == Replay(base, log)
  {
    var a, b, c := log[..i], log[i..n], log[n..];
    assert log == a + b + c && log[..n] == a + b && log[i..] == b + c;
    forall k
      ensures Lookup(Replay(Replay(base, a + b), b + c), k) == Lookup(Replay(base, a + b + c), k)
    {
      OverlapAt(base, a, b, c, k);
    }
    SameLookups(Replay(Replay(base, a + b), b + c), Replay(base, a + b + c));
  }

  lemma OverlapAt(base: Contents, a: seq<Mutation>, b: seq<Mutation>, c: seq<Mutation>, k: Bytes)
    ensures Lookup(Replay(Replay(base, a + b), b + c), k) == Lookup(Replay(base, a + b + c), k)
  {
    ReplayAt(Replay(base, a + b), b + c, k);
    ReplayAt(base, a + b, k);
    ReplayAt(base, a + b + c, k);
    LastWriteConcat(a, b, k);
    LastWriteConcat(b, c, k);
    LastWriteConcat(a + b, c, k);
  }

  /** Replaying an inner piece again, and stopping before what the store holds, is harmless exactly when no
      key was written in the piece and, with another outcome, after it. */
  lemma RepeatHarmlessIff(base: Contents, a: seq<Mutation>, b: seq<Mutation>, c: seq<Mutation>)
    ensures Replay(Replay(base, a + b + c), b) == Replay(base, a + b + c) <==> SameOutcomes(b, c)
  {
    var full := Replay(base, a + b + c);
    forall k
      ensures Lookup(Replay(full, b), k)
           == if LastWrite(b, k).Some? then LastWrite(b, k).value.value else Lookup(full, k)
      ensures Lookup(full, k) == if LastWrite(c, k).Some? then LastWrite(c, k).value.value
                                 else if LastWrite(b, k).Some? then LastWrite(b, k).value.value
                                 else Lookup(Replay(base, a), k)
    {
      ReplayAt(full, b, k);
      ThreePieces(base, a, b, c, k);
    }
    if SameOutcomes(b, c) {
      SameLookups(Replay(full, b), full);
    }
  }

  /** No key's last write in `b` differs from its last write in `c`. */
  ghost predicate SameOutcomes(b: seq<Mutation>, c: seq<Mutation>) {
    forall k :: LastWrite(b, k).Some? && LastWrite(c, k).Some? ==>
      LastWrite(b, k).value.value == LastWrite(c, k).value.value
  }

  lemma ThreePieces(base: Contents, a: seq<Mutation>, b: seq<Mutation>, c: seq<Mutation>, k: Bytes)
    ensures Lookup(Replay(base, a + b + c), k)
         == if LastWrite(c, k).Some? then LastWrite(c, k).value.value
            else if LastWrite(b, k).Some? then LastWrite(b, k).value.value
            else Lookup(Replay(base, a), k)
  {
    ReplayConcat(base, a + b, c);
    ReplayConcat(base, a, b);
    ReplayAt(Replay(base, a + b), c, k);
    ReplayAt(Replay(base, a), b, k);
  }

  /** Skipping a piece of the log is harmless exactly when every key whose last write is in the piece already
      had that outcome before it. */
  lemma GapHarmlessIff(base: Contents, a: seq<Mutation>, b: seq<Mutation>, c: seq<Mutation>)
    ensures Replay(Replay(base, a), c) == Replay(base, a + b + c)
       <==> forall k :: LastWrite(b, k).Some? && LastWrite(c, k).None? ==>
              LastWrite(b, k).value.value == Lookup(Replay(base, a), k)
  {
    var left, right := Replay(Replay(base, a), c), Replay(base, a + b + c);
    forall k
      ensures Lookup(left, k)
           == if LastWrite(c, k).Some? then LastWrite(c, k).value.value else Lookup(Replay(base, a), k)
      ensures Lookup(right, k) == if LastWrite(c, k).Some? then LastWrite(c, k).value.value
                                  else if LastWrite(b, k).Some? then LastWrite(b, k).value.value
                                  else Lookup(Replay(base, a), k)
    {
      ReplayAt(Replay(base, a), c, k);
      ThreePieces(base, a, b, c, k);
    }
    if forall k :: LastWrite(b, k).Some? && LastWrite(c, k).None? ==>
         LastWrite(b, k).value.value == Lookup(Replay(base, a), k) {
      SameLookups(left, right);
    }
  }

  /** An instance: the skipped mutation is lost. */
  lemma GappedReplayLoses()
    ensures exists log: seq<Mutation> :: Replay(Replay(map[], log[..0]), log[|log|..]) != Replay(map[], log)
  {
    var u := Mutation([1], Some([2]));
    var log := [u];
    assert log[..0] == [] && log[|log|..] == [];
    assert Replay(map[], log) == Apply(Replay(map[], []), u) by { assert log[..0] == []; }
    assert [1] in Replay(map[], log);
  }

  /** Log compaction removes a mutation that a later one of the same key supersedes; replay does not
      notice. */
  lemma CompactionInvisible(base: Contents, a: seq<Mutation>, u: Mutation, b: seq<Mutation>)
    requires LastWrite(b, u.key).Some?
    ensures Replay(base, a + [u] + b) == Replay(base, a + b)
  {
    forall k
      ensures Lookup(Replay(base, a + [u] + b), k) == Lookup(Replay(base, a + b), k)
    {
      ReplayAt(base, a + [u] + b, k);
      ReplayAt(base, a + b, k);
      LastWriteConcat(a + [u], b, k);
      LastWriteConcat(a, b, k);
      assert (a + [u])[..|a|] == a;
    }
    SameLookups(Replay(base, a + [u] + b), Replay(base, a + b));
  }

  // Fidelity of the mutation log.

  /** The two store implementations: `append([]byte(nil), v...)` turns an empty value into nil in the
      memory store, `make` plus `copy` keeps it non-nil in the pebble store. */
  datatype Backend = Memory | Pebble

  function Recorded(b: Backend, u: Mutation): Mutation {
    if b.Memory? && u.value == Some([]) then Mutation(u.key, None) else u
  }

  /** What restore reads back: a record with an empty value is a tombstone. */
  function Restored(u: Mutation): Mutation {
    if u.value == Some([]) then Mutation(u.key, None) else u
  }

  function RestoredAll(log: seq<Mutation>): (r: seq<Mutation>)
    ensures |r| == |log| && forall i :: 0 <= i < |log| ==> r[i] == Restored(log[i])
  {
    seq(|log|, i requires 0 <= i < |log| => Restored(log[i]))
  }

  datatype Op =
    | Put(key: Bytes, value: Bytes)
    | Delete(key: Bytes)
    | WindowPut(key: Bytes, start: CK.Int64, value: Bytes)
    | WindowDelete(key: Bytes, start: CK.Int64)
    | Drain

  /** A store during a run: contents, mutations not yet drained, and everything drained so far. */
  datatype Logged = Logged(data: Contents, pending: seq<Mutation>, drained: seq<Mutation>)

  /** The write an operation makes, on the full database key. */
  function Effect(prefix: Bytes, op: Op): Mutation
    requires !op.Drain?
  {
    match op
    case Put(key, value) => Mutation(prefix + key, Some(value))
    case Delete(key) => Mutation(prefix + key, None)
    case WindowPut(key, start, value) => Mutation(prefix + CK.Encode(key, start), Some(value))
    case WindowDelete(key, start) => Mutation(prefix + CK.Encode(key, start), None)
  }

  function Step(b: Backend, prefix: Bytes, s: Logged, op: Op): Logged {
    if op.Drain? then Logged(s.data, [], s.drained + s.pending)
    else
      var u := Effect(prefix, op);
      Logged(Apply(s.data, u), s.pending + [Recorded(b, u)], s.drained)
  }

  function Run(b: Backend, prefix: Bytes, s: Logged, ops: seq<Op>): Logged {
    if ops == [] then s else Step(b, prefix, Run(b, prefix, s, ops[..|ops| - 1]), ops[|ops| - 1])
  }

  /** The writes of the operations, drains left out. */
  function Effects(prefix: Bytes, ops: seq<Op>): seq<Mutation> {
    if ops == [] then []
    else
      var op := ops[|ops| - 1];
      Effects(prefix, ops[..|ops| - 1]) + if op.Drain? then [] else [Effect(prefix, op)]
  }

  /** The store holds what its operations wrote, and the log, drained or not, what restore makes of them. */
  lemma {:induction false} RunIsReplay(b: Backend, prefix: Bytes, data: Contents, ops: seq<Op>)
    ensures var s := Run(b, prefix, Logged(data, [], []), ops);
      && s.data == Replay(data, Effects(prefix, ops))
      && RestoredAll(s.drained + s.pending) == RestoredAll(Effects(prefix, ops))
  {
    var start := Logged(data, [], []);
    if ops == [] {
      assert start.drained + start.pending == [];
    } else {
      var init, op := ops[..|ops| - 1], ops[|ops| - 1];
      RunIsReplay(b, prefix, data, init);
      var s, writes := Run(b, prefix, start, init), Effects(prefix, init);
      RestoredLogStep(b, prefix, s, op);
      if op.Drain? {
        assert Effects(prefix, ops) == writes;
      } else {
        assert Effects(prefix, ops) == writes + [Effect(prefix, op)];
        ReplaySnoc(data, writes, Effect(prefix, op));
        RestoredSnoc(writes, Effect(prefix, op));
      }
    }
  }

  lemma RestoredSnoc(log: seq<Mutation>, u: Mutation)
    ensures RestoredAll(log + [u]) == RestoredAll(log) + [Restored(u)]
  {
  }

  lemma RestoredLogStep(b: Backend, prefix: Bytes, s: Logged, op: Op)
    ensures var s' := Step(b, prefix, s, op);
      RestoredAll(s'.drained + s'.pending)
      == RestoredAll(s.drained + s.pending) + (if op.Drain? then [] else [Restored(Effect(prefix, op))])
  {
    var s' := Step(b, prefix, s, op);
    if op.Drain? {
      assert s'.drained + s'.pending == s.drained + s.pending;
    } else {
      assert s'.drained + s'.pending == s.drained + s.pending + [Recorded(b, Effect(prefix, op))];
    }
  }

  lemma {:induction false} LastWriteRestored(log: seq<Mutation>, k: Bytes)
    ensures LastWrite(RestoredAll(log), k)
         == if LastWrite(log, k).Some? then Some(Restored(LastWrite(log, k).value)) else None
  {
    if log != [] {
      assert RestoredAll(log)[..|log| - 1] == RestoredAll(log[..|log| - 1]);
      LastWriteRestored(log[..|log| - 1], k);
    }
  }

  /** What restoring the log leaves at each key: the store's value, except that an empty value the run wrote
      last is gone. */
  lemma RestoredLogAt(b: Backend, prefix: Bytes, data: Contents, ops: seq<Op>, key: Bytes)
    ensures var s, last := Run(b, prefix, Logged(data, [], []), ops), LastWrite(Effects(prefix, ops), key);
      Lookup(Replay(data, RestoredAll(s.drained + s.pending)), key)
      == if last.Some? && last.value.value == Some([]) then None else Lookup(s.data, key)
  {
    RunIsReplay(b, prefix, data, ops);
    var writes := Effects(prefix, ops);
    ReplayAt(data, RestoredAll(writes), key);
    ReplayAt(data, writes, key);
    LastWriteRestored(writes, key);
  }

  /** Some key's last write in the run puts the empty string. */
  ghost predicate EndsEmpty(prefix: Bytes, ops: seq<Op>) {
    exists key :: LastWrite(Effects(prefix, ops), key).Some?
      && LastWrite(Effects(prefix, ops), key).value.value == Some([])
  }

  /** Mutation-log fidelity: for every sequence of operations with drains anywhere, restoring the drained and
      pending mutations into the starting contents reproduces the store exactly when no key's last write puts
      the empty string. */
  lemma LogFidelity(b: Backend, prefix: Bytes, data: Contents, ops: seq<Op>)
    ensures var s := Run(b, prefix, Logged(data, [], []), ops);
      Replay(data, RestoredAll(s.drained + s.pending)) == s.data <==> !EndsEmpty(prefix, ops)
  {
    var s, writes := Run(b, prefix, Logged(data, [], []), ops), Effects(prefix, ops);
    var r := Replay(data, RestoredAll(s.drained + s.pending));
    RunIsReplay(b, prefix, data, ops);
    forall key
      ensures Lookup(r, key)
           == if LastWrite(writes, key).Some? && LastWrite(writes, key).value.value == Some([]) then None
              else Lookup(s.data, key)
      ensures LastWrite(writes, key).Some? ==> Lookup(s.data, key) == LastWrite(writes, key).value.value
    {
      RestoredLogAt(b, prefix, data, ops, key);
      ReplayAt(data, writes, key);
    }
    if !EndsEmpty(prefix, ops) {
      SameLookups(r, s.data);
    }
  }

  /** An instance: one put of the empty string. The store has the key, its restored copy does not. */
  lemma EmptyValueIsLost(b: Backend, prefix: Bytes, key: Bytes)
    ensures var s := Run(b, prefix, Logged(map[], [], []), [Op.Put(key, [])]);
      && s.data == map[prefix + key := []]
      && Replay(map[], RestoredAll(s.drained + s.pending)) == map[]
  {
    var ops := [Op.Put(key, [])];
    assert ops[..0] == [];
    RunIsReplay(b, prefix, map[], ops);
    var log := RestoredAll(Effects(prefix, ops));
    assert Effects(prefix, ops) == [] + [Effect(prefix, ops[0])];
    assert log == [Mutation(prefix + key, None)] && log[..0] == [];
    assert Effects(prefix, ops)[..0] == [];
  }
}
