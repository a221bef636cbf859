/** Automatic repartitioning in the DSL: operators.go, repartition.go, grouped.go, join.go, ssjoin.go, and
    the partition-count check of internal/kafka/admin.go. Keys and values are untyped, as in the graph. */
module CoPartition {
  import opened Wrappers

  datatype Rec<K, V> = Rec(key: K, value: V)

  /** The nodes an operator adds, each with its parents. Parents are earlier nodes. */
  datatype Node<!K, !V> =
    | Source
    | Filter(parent: nat, keep: (K, V) -> bool)
    | MapValues(parent: nat, value: (K, V) -> V)
    | Map(parent: nat, rec: (K, V) -> Rec<K, V>)
    | GlobalJoin(parent: nat, lookup: (K, V) -> Option<V>)
    | Repartition(parent: nat, partitions: nat)
    | TableJoin(parent: nat, table: nat, joiner: (V, V) -> V)
    | StreamJoin(left: nat, right: nat, joiner: (V, V) -> V)

  /** The stream's `repartitionRequired` flag. */
  function Flag<K, V>(nodes: seq<Node<K, V>>, i: nat): bool
    requires Ordered(nodes) && i < |nodes|
  {
    match nodes[i]
    case Source => false
    case Filter(parent, _) => Flag(nodes, parent)
    case MapValues(parent, _) => Flag(nodes, parent)
    case Map(_, _) => true
    case GlobalJoin(parent, _) => Flag(nodes, parent)
    case Repartition(_, _) => false
    case TableJoin(_, _, _) => false
    case StreamJoin(_, _, _) => false
  }

  predicate ParentsBelow<K, V>(node: Node<K, V>, i: nat) {
    match node
    case Source => true
    case Filter(parent, _) => parent < i
    case MapValues(parent, _) => parent < i
    case Map(parent, _) => parent < i
    case GlobalJoin(parent, _) => parent < i
    case Repartition(parent, _) => parent < i
    case TableJoin(parent, table, _) => parent < i && table < i
    case StreamJoin(left, right, _) => left < i && right < i
  }

  predicate Ordered<K, V>(nodes: seq<Node<K, V>>) {
    forall i :: 0 <= i < |nodes| ==> ParentsBelow(nodes[i], i)
  }

  /** An operator that leaves every record its key, and so its partition. */
  predicate KeepsKeys<K, V>(node: Node<K, V>) {
    node.Filter? || node.MapValues? || node.GlobalJoin?
  }

  /** From node `i` down through operators that keep keys to one that may change them. */
  predicate LeadsToKeyChange<K, V>(nodes: seq<Node<K, V>>, i: nat, path: seq<nat>) {
    && path != [] && path[0] == i && (forall j :: 0 <= j < |path| ==> path[j] < |nodes|)
    && (forall j :: 0 <= j < |path| - 1 ==> KeepsKeys(nodes[path[j]]) && nodes[path[j]].parent == path[j + 1])
    && nodes[path[|path| - 1]].Map?
  }

  /** A stream is flagged if and only if its key may have changed since its source, shuffle or join: no internal
      topic is missing, and none is needless. */
  lemma {:induction false} FlagIffKeyChange<K, V>(nodes: seq<Node<K, V>>, i: nat)
    requires Ordered(nodes) && i < |nodes|
    ensures Flag(nodes, i) <==> exists path :: LeadsToKeyChange(nodes, i, path)
    decreases i
  {
    if nodes[i].Map? {
      assert LeadsToKeyChange(nodes, i, [i]);
    } else if KeepsKeys(nodes[i]) {
      var p := nodes[i].parent;
      assert ParentsBelow(nodes[i], i);
      FlagIffKeyChange(nodes, p);
      if Flag(nodes, i) {
        var path :| LeadsToKeyChange(nodes, p, path);
        PathLonger(nodes, i, path);
      }
      forall path | LeadsToKeyChange(nodes, i, path) ensures LeadsToKeyChange(nodes, p, path[1..]) {
        assert path[1..][0] == path[1];
      }
    }
  }

  lemma PathLonger<K, V>(nodes: seq<Node<K, V>>, i: nat, path: seq<nat>)
    requires i < |nodes| && KeepsKeys(nodes[i]) && LeadsToKeyChange(nodes, nodes[i].parent, path)
    ensures LeadsToKeyChange(nodes, i, [i] + path)
  {
    var longer := [i] + path;
    forall j | 0 <= j < |longer| - 1
      ensures KeepsKeys(nodes[longer[j]]) && nodes[longer[j]].parent == longer[j + 1]
    {
      if j > 0 { assert longer[j] == path[j - 1] && longer[j + 1] == path[j]; }
    }
  }

  /** What the operators make sure of: joins read streams that need no repartitioning. */
  predicate Built<K, V>(nodes: seq<Node<K, V>>) {
    && Ordered(nodes)
    && forall i :: 0 <= i < |nodes| ==>
         && (nodes[i].TableJoin? ==> !Flag(nodes, nodes[i].parent) && !Flag(nodes, nodes[i].table))
         && (nodes[i].StreamJoin? ==> !Flag(nodes, nodes[i].left) && !Flag(nodes, nodes[i].right))
  }

  /** The deployment: the partition count of the source topics, the key hash, and the input records with
      their partitions. */
  datatype Deployment<!K, !V> = Deployment(count: nat, hash: K -> nat, inputs: (nat, nat, Rec<K, V>) -> bool)

  /** `PrepareTopology`: a positive count, and every explicit repartition asks for the same. */
  predicate Prepared<K, V>(count: nat, nodes: seq<Node<K, V>>) {
    count > 0 && forall i :: 0 <= i < |nodes| && nodes[i].Repartition? ==>
      nodes[i].partitions == 0 || nodes[i].partitions == count
  }

  /** The partition the producer picks for a key. */
  function Place<K, V>(d: Deployment<K, V>, key: K): nat
    requires d.count > 0
  {
    d.hash(key) % d.count
  }

  /** The source topics are partitioned by key. */
  ghost predicate Keyed<K(!new), V(!new)>(d: Deployment<K, V>) {
    d.count > 0 && forall i, p, r :: d.inputs(i, p, r) ==> p == Place(d, r.key)
  }

  /** The record can appear at node `i` in the task of partition `p`. */
  ghost predicate Appears<K(!new), V(!new)>(d: Deployment<K, V>, nodes: seq<Node<K, V>>, i: nat, p: nat, r: Rec<K, V>)
    requires Ordered(nodes) && i < |nodes| && d.count > 0
    decreases i, 1
  {
    match nodes[i]
    case Source => d.inputs(i, p, r)
    case Filter(parent, keep) => Appears(d, nodes, parent, p, r) && keep(r.key, r.value)
    case MapValues(parent, value) =>
      exists v :: Appears(d, nodes, parent, p, Rec(r.key, v)) && r.value == value(r.key, v)
    case Map(parent, rec) => exists r0: Rec<K, V> :: Appears(d, nodes, parent, p, r0) && r == rec(r0.key, r0.value)
    case GlobalJoin(parent, lookup) =>
      exists v :: Appears(d, nodes, parent, p, Rec(r.key, v)) && lookup(r.key, v) == Some(r.value)
    case Repartition(parent, partitions) =>
      && p == d.hash(r.key) % (if partitions == 0 then d.count else partitions)
      && exists p0 :: Appears(d, nodes, parent, p0, r)
    case TableJoin(parent, table, joiner) => Meets(d, nodes, parent, table, joiner, i, p, r)
    case StreamJoin(left, right, joiner) => Meets(d, nodes, left, right, joiner, i, p, r)
  }

  /** Two records of one key meet in the task of partition `p`. */
  ghost predicate Meets<K(!new), V(!new)>(d: Deployment<K, V>, nodes: seq<Node<K, V>>, a: nat, b: nat,
                                          joiner: (V, V) -> V, i: nat, p: nat, r: Rec<K, V>)
    requires Ordered(nodes) && a < i && b < i && i < |nodes| && d.count > 0
    decreases i, 0
  {
    exists v, w :: Appears(d, nodes, a, p, Rec(r.key, v)) && Appears(d, nodes, b, p, Rec(r.key, w))
      && r.value == joiner(v, w)
  }

  /** Every record is on the partition of its key. */
  ghost predicate Aligned<K(!new), V(!new)>(d: Deployment<K, V>, nodes: seq<Node<K, V>>, i: nat)
    requires Ordered(nodes) && i < |nodes| && d.count > 0
  {
    forall p, r :: Appears(d, nodes, i, p, r) ==> p == Place(d, r.key)
  }

  /** Automatic co-partitioning: for every graph the operators can build, a stream whose flag is not set
      has every record on the partition of its key. */
  lemma {:induction false} UnflaggedIsAligned<K(!new), V(!new)>(d: Deployment<K, V>, nodes: seq<Node<K, V>>, i: nat)
    requires Built(nodes) && Keyed(d) && Prepared(d.count, nodes) && i < |nodes| && !Flag(nodes, i)
    ensures Aligned(d, nodes, i)
    decreases i
  {
    match nodes[i]
    case Source =>
    case Filter(parent, _) => UnflaggedIsAligned(d, nodes, parent);
    case MapValues(parent, _) => UnflaggedIsAligned(d, nodes, parent);
    case Map(_, _) =>
    case GlobalJoin(parent, _) => UnflaggedIsAligned(d, nodes, parent);
    case Repartition(_, _) =>
    case TableJoin(parent, table, joiner) =>
      UnflaggedIsAligned(d, nodes, parent);
      forall p, r | Appears(d, nodes, i, p, r) ensures p == Place(d, r.key) {
        assert Meets(d, nodes, parent, table, joiner, i, p, r);
      }
    case StreamJoin(left, right, joiner) =>
      UnflaggedIsAligned(d, nodes, left);
      forall p, r | Appears(d, nodes, i, p, r) ensures p == Place(d, r.key) {
        assert Meets(d, nodes, left, right, joiner, i, p, r);
      }
  }

  /** Grouping: all records of a key are seen by one task, so the task's accumulator is the key's. */
  lemma OneTaskPerKey<K(!new), V(!new)>(d: Deployment<K, V>, nodes: seq<Node<K, V>>, i: nat, p: nat, r: Rec<K, V>,
                                        q: nat, r': Rec<K, V>)
    requires Built(nodes) && Keyed(d) && Prepared(d.count, nodes) && i < |nodes| && !Flag(nodes, i)
    requires Appears(d, nodes, i, p, r) && Appears(d, nodes, i, q, r') && r.key == r'.key
    ensures p == q
  {
    UnflaggedIsAligned(d, nodes, i);
  }

  /** Joins: records of one key meet in some task if and only if they exist at all, whatever their
      partitions; a task-local join loses nothing. */
  lemma LocalJoinIsGlobal<K(!new), V(!new)>(d: Deployment<K, V>, nodes: seq<Node<K, V>>, i: nat, r: Rec<K, V>)
    requires Built(nodes) && Keyed(d) && Prepared(d.count, nodes) && i < |nodes|
             && (nodes[i].StreamJoin? || nodes[i].TableJoin?)
    ensures (exists p :: Appears(d, nodes, i, p, r)) <==>
            (exists v, w :: Joinable(d, nodes, First(nodes[i]), Second(nodes[i]), r, v, w)
              && r.value == nodes[i].joiner(v, w))
  {
    var a, b, joiner := First(nodes[i]), Second(nodes[i]), nodes[i].joiner;
    UnflaggedIsAligned(d, nodes, a);
    UnflaggedIsAligned(d, nodes, b);
    if p :| Appears(d, nodes, i, p, r) {
      assert Meets(d, nodes, a, b, joiner, i, p, r);
      var v, w :| Appears(d, nodes, a, p, Rec(r.key, v)) && Appears(d, nodes, b, p, Rec(r.key, w))
        && r.value == joiner(v, w);
      assert Joinable(d, nodes, a, b, r, v, w);
    }
    if v, w :| Joinable(d, nodes, a, b, r, v, w) && r.value == joiner(v, w) {
      var p := Place(d, r.key);
      assert Appears(d, nodes, a, p, Rec(r.key, v)) && Appears(d, nodes, b, p, Rec(r.key, w));
      assert Meets(d, nodes, a, b, joiner, i, p, r);
      assert Appears(d, nodes, i, p, r);
    }
  }

  function First<K, V>(node: Node<K, V>): nat
    requires node.StreamJoin? || node.TableJoin?
  {
    if node.StreamJoin? then node.left else node.parent
  }

  function Second<K, V>(node: Node<K, V>): nat
    requires node.StreamJoin? || node.TableJoin?
  {
    if node.StreamJoin? then node.right else node.table
  }

  /** Both sides have a record of the key, on whatever partitions. */
  ghost predicate Joinable<K(!new), V(!new)>(d: Deployment<K, V>, nodes: seq<Node<K, V>>, a: nat, b: nat,
                                             r: Rec<K, V>, v: V, w: V)
    requires Ordered(nodes) && a < |nodes| && b < |nodes| && d.count > 0
  {
    && (exists p :: Appears(d, nodes, a, p, Rec(r.key, v)))
    && (exists q :: Appears(d, nodes, b, q, Rec(r.key, w)))
  }

  function ShiftedKeys(): seq<Node<int, int>> {
    [Source, Map(0, (k: int, v: int) => Rec(k + 1, v))]
  }

  function Hash(k: int): nat { if k < 0 then 0 else k }

  function TwoPartitions(): Deployment<int, int> {
    Deployment(2, Hash, (i: nat, p: nat, r: Rec<int, int>) => i == 0 && p == Hash(r.key) % 2)
  }

  /** The flag is needed: after a key change, without repartitioning, records of key 1 sit on the partition
      of key 0. */
  lemma KeyChangeMisaligns()
    ensures Built(ShiftedKeys()) && Keyed(TwoPartitions()) && Flag(ShiftedKeys(), 1)
            && !Aligned(TwoPartitions(), ShiftedKeys(), 1)
  {
    var nodes, d := ShiftedKeys(), TwoPartitions();
    assert Appears(d, nodes, 0, 0, Rec(0, 5));
    assert nodes[1].rec(0, 5) == Rec(1, 5);
    assert Appears(d, nodes, 1, 0, Rec(1, 5));
  }

  // The builder as an object.

  /** A stream handle: its node and its flag. */
  datatype KStream = KStream(node: nat, repartitionRequired: bool)

  lemma FlagOfLonger<K, V>(nodes: seq<Node<K, V>>, node: Node<K, V>, i: nat)
    requires Ordered(nodes) && ParentsBelow(node, |nodes|) && i < |nodes|
    ensures Ordered(nodes + [node]) && Flag(nodes + [node], i) == Flag(nodes, i)
    decreases i
  {
    assert (nodes + [node])[i] == nodes[i];
    match nodes[i]
    case Filter(parent, _) => FlagOfLonger(nodes, node, parent);
    case MapValues(parent, _) => FlagOfLonger(nodes, node, parent);
    case GlobalJoin(parent, _) => FlagOfLonger(nodes, node, parent);
    case _ =>
  }

  class StreamBuilder<!K, !V> {
    var nodes: seq<Node<K, V>>

    ghost predicate Valid()
      reads this
    {
      Built(nodes)
    }

    /** A handle this builder gave out. */
    ghost predicate Knows(s: KStream)
      reads this
      requires Valid()
    {
      s.node < |nodes| && s.repartitionRequired == Flag(nodes, s.node)
    }

    constructor ()
      ensures Valid() && nodes == []
    {
      nodes := [];
    }

    method Append(node: Node<K, V>) returns (i: nat)
      requires Valid() && ParentsBelow(node, |nodes|)
      requires node.TableJoin? ==> !Flag(nodes, node.parent) && !Flag(nodes, node.table)
      requires node.StreamJoin? ==> !Flag(nodes, node.left) && !Flag(nodes, node.right)
      modifies this
      ensures Valid() && nodes == old(nodes) + [node] && i == |old(nodes)|
      ensures forall s :: old(Knows(s)) ==> Knows(s)
    {
      forall j: nat | j < |nodes|
        ensures Ordered(nodes + [node]) && Flag(nodes + [node], j) == Flag(nodes, j)
      {
        FlagOfLonger(nodes, node, j);
      }
      i := |nodes|;
      nodes := nodes + [node];
    }

    method Stream() returns (s: KStream)
      requires Valid()
      modifies this
      ensures Valid() && Knows(s) && !s.repartitionRequired && forall x :: old(Knows(x)) ==> Knows(x)
    {
      var i := Append(Node.Source);
      s := KStream(i, false);
    }

    method Filter(s: KStream, keep: (K, V) -> bool) returns (out: KStream)
      requires Valid() && Knows(s)
      modifies this
      ensures Valid() && Knows(out) && out.node < |nodes| && nodes[out.node] == Node.Filter(s.node, keep)
      ensures out.repartitionRequired == s.repartitionRequired
      ensures forall x :: old(Knows(x)) ==> Knows(x)
    {
      var i := Append(Node.Filter(s.node, keep));
      out := KStream(i, s.repartitionRequired);
    }

    method MapValues(s: KStream, value: (K, V) -> V) returns (out: KStream)
      requires Valid() && Knows(s)
      modifies this
      ensures Valid() && Knows(out) && out.node < |nodes| && nodes[out.node] == Node.MapValues(s.node, value)
      ensures out.repartitionRequired == s.repartitionRequired
      ensures forall x :: old(Knows(x)) ==> Knows(x)
    {
      var i := Append(Node.MapValues(s.node, value));
      out := KStream(i, s.repartitionRequired);
    }

    method Map(s: KStream, rec: (K, V) -> Rec<K, V>) returns (out: KStream)
      requires Valid() && Knows(s)
      modifies this
      ensures Valid() && Knows(out) && out.node < |nodes| && nodes[out.node] == Node.Map(s.node, rec)
      ensures out.repartitionRequired
      ensures forall x :: old(Knows(x)) ==> Knows(x)
    {
      var i := Append(Node.Map(s.node, rec));
      out := KStream(i, true);
    }

    method SelectKey(s: KStream, key: (K, V) -> K) returns (out: KStream)
      requires Valid() && Knows(s)
      modifies this
      ensures Valid() && Knows(out) && out.repartitionRequired && forall x :: old(Knows(x)) ==> Knows(x)
      ensures out.node < |nodes| && nodes[out.node].Map? && nodes[out.node].parent == s.node
      ensures forall k, v :: nodes[out.node].rec(k, v) == Rec(key(k, v), v)
    {
      var i := Append(Node.Map(s.node, (k, v) => Rec(key(k, v), v)));
      out := KStream(i, true);
    }

    method JoinGlobal(s: KStream, lookup: (K, V) -> Option<V>) returns (out: KStream)
      requires Valid() && Knows(s)
      modifies this
      ensures Valid() && Knows(out) && out.node < |nodes| && nodes[out.node] == Node.GlobalJoin(s.node, lookup)
      ensures out.repartitionRequired == s.repartitionRequired
      ensures forall x :: old(Knows(x)) ==> Knows(x)
    {
      var i := Append(Node.GlobalJoin(s.node, lookup));
      out := KStream(i, s.repartitionRequired);
    }

    method Repartition(s: KStream, partitions: nat) returns (out: KStream)
      requires Valid() && Knows(s)
      modifies this
      ensures Valid() && Knows(out) && !out.repartitionRequired && out.node == |old(nodes)|
              && nodes == old(nodes) + [Node.Repartition(s.node, partitions)]
      ensures forall x :: old(Knows(x)) ==> Knows(x)
    {
      var i := Append(Node.Repartition(s.node, partitions));
      out := KStream(i, false);
    }

    /** Node `i` carries the stream `s`, through an internal topic if `s` needs it. */
    ghost predicate Shuffled(s: KStream, i: nat)
      reads this
    {
      if s.repartitionRequired then i < |nodes| && nodes[i] == Node.Repartition(s.node, 0) else i == s.node
    }

    /** Leaves an unflagged stream alone; repartitions a flagged one, with the default count. */
    method EnsureRepartition(s: KStream) returns (out: KStream)
      requires Valid() && Knows(s)
      modifies this
      ensures Valid() && Knows(out) && !out.repartitionRequired && forall x :: old(Knows(x)) ==> Knows(x)
      ensures Shuffled(s, out.node) && old(nodes) <= nodes
    {
      if !s.repartitionRequired { return s; }
      out := Repartition(s, 0);
    }

    /** The stream an aggregation or a table reads. */
    method GroupByKey(s: KStream) returns (out: KStream)
      requires Valid() && Knows(s)
      modifies this
      ensures Valid() && Knows(out) && !out.repartitionRequired && forall x :: old(Knows(x)) ==> Knows(x)
      ensures Shuffled(s, out.node)
    {
      out := EnsureRepartition(s);
    }

    /** `table` is the grouped stream the table was built from. */
    method JoinTable(s: KStream, table: KStream, joiner: (V, V) -> V) returns (out: KStream)
      requires Valid() && Knows(s) && Knows(table) && !table.repartitionRequired
      modifies this
      ensures Valid() && Knows(out) && !out.repartitionRequired && out.node < |nodes| && nodes[out.node].TableJoin?
      ensures nodes[out.node].table == table.node && nodes[out.node].joiner == joiner
              && Shuffled(s, nodes[out.node].parent)
      ensures forall x :: old(Knows(x)) ==> Knows(x)
    {
      var ensured := EnsureRepartition(s);
      var i := Append(Node.TableJoin(ensured.node, table.node, joiner));
      out := KStream(i, false);
    }

    method Join(s: KStream, other: KStream, joiner: (V, V) -> V) returns (out: KStream)
      requires Valid() && Knows(s) && Knows(other)
      modifies this
      ensures Valid() && Knows(out) && !out.repartitionRequired && out.node < |nodes| && nodes[out.node].StreamJoin?
      ensures nodes[out.node].joiner == joiner && Shuffled(s, nodes[out.node].left)
              && Shuffled(other, nodes[out.node].right)
      ensures forall x :: old(Knows(x)) ==> Knows(x)
    {
      var left := EnsureRepartition(s);
      var right := EnsureRepartition(other);
      var i := Append(Node.StreamJoin(left.node, right.node, joiner));
      out := KStream(i, false);
    }
  }
}
