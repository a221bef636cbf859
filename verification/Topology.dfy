/** Building the processor graph: internal/topology/topology.go. */
module Topology {
  import opened Wrappers
  import opened Collections

  type Name = string

  /** What a processor function does with a record, given the task's stores and stream time: the state it
      leaves, the records it forwards, in order, and the error it returns. Processors use their stores before
      they forward. They cannot see whether forwarding failed. */
  datatype Reaction<S, R, E> = Reaction(state: S, outs: seq<R>, error: Option<E>)

  /** A node's function. Sinks have a placeholder until a driver installs a collector. */
  datatype Fn<!S, !R, E> = Fn(f: (S, R) -> Reaction<S, R, E>) | Placeholder(error: E) | Collector

  datatype Kind = Source | Processor | Sink

  datatype Node<!S, !R, E> = Node(kind: Kind, fn: Fn<S, R, E>, downstreams: seq<Name>)

  /** `order` lists the nodes by time of insertion. */
  datatype Graph<!S, !R, E> = Graph(nodes: map<Name, Node<S, R, E>>, order: seq<Name>)

  datatype Call<!S, !R, E> = Call(name: Name, kind: Kind, fn: Fn<S, R, E>, parents: seq<Name>)

  function Empty<S, R, E>(): Graph<S, R, E> { Graph(map[], []) }

  function Connect<S, R, E>(g: Graph<S, R, E>, parent: Name, name: Name): Graph<S, R, E>
    requires parent in g.nodes
  {
    var p := g.nodes[parent];
    g.(nodes := g.nodes[parent := p.(downstreams := p.downstreams + [name])])
  }

  /** Wires the parents in order; an unknown one stops it. */
  function Wire<S, R, E>(g: Graph<S, R, E>, name: Name, parents: seq<Name>): (Graph<S, R, E>, bool)
    decreases |parents|
  {
    if parents == [] then (g, true)
    else if parents[0] !in g.nodes then (g, false)
    else Wire(Connect(g, parents[0], name), name, parents[1..])
  }

  function Insert<S, R, E>(g: Graph<S, R, E>, c: Call<S, R, E>): Graph<S, R, E> {
    Graph(g.nodes[c.name := Node(c.kind, c.fn, [])], g.order + [c.name])
  }

  /** `AddSource`, `AddProcessor`, `AddStatefulProcessor`, `AddSink`; false where the code panics. The node
      is registered before its parents are looked up, so it finds itself. */
  function Add<S, R, E>(g: Graph<S, R, E>, c: Call<S, R, E>): (Graph<S, R, E>, bool) {
    if c.name in g.nodes then (g, false)
    else if !c.kind.Source? && c.parents == [] then (g, false)
    else Wire(Insert(g, c), c.name, if c.kind.Source? then [] else c.parents)
  }

  /** A sequence of calls; a panic ends it. */
  function Build<S, R, E>(calls: seq<Call<S, R, E>>): (Graph<S, R, E>, bool) {
    if calls == [] then (Empty(), true)
    else
      var before := Build(calls[..|calls| - 1]);
      if before.1 then Add(before.0, calls[|calls| - 1]) else before
  }

  // Rank.

  function Rank(order: seq<Name>, name: Name): (r: nat)
    requires name in order
    ensures r < |order| && order[r] == name
  {
    if order[|order| - 1] == name then |order| - 1 else Rank(order[..|order| - 1], name)
  }

  lemma RankIs(order: seq<Name>, i: nat)
    requires Distinct(order) && i < |order|
    ensures Rank(order, order[i]) == i
  {
  }

  ghost predicate Listed<S, R, E>(g: Graph<S, R, E>) {
    Distinct(g.order) && forall n :: n in g.nodes <==> n in g.order
  }

  predicate HasEdge<S, R, E>(g: Graph<S, R, E>, a: Name, b: Name) {
    a in g.nodes && b in g.nodes[a].downstreams
  }

  predicate Below(order: seq<Name>, a: Name, b: Name) {
    a in order && b in order && Rank(order, a) < Rank(order, b)
  }

  /** Every edge leads to a registered node, later in the order than its start or the start itself. */
  ghost predicate Climbs<S, R, E>(g: Graph<S, R, E>) {
    && Listed(g)
    && forall a, b :: HasEdge(g, a, b) ==> b in g.order && (a == b || Below(g.order, a, b))
  }

  ghost predicate SelfLoop<S, R, E>(g: Graph<S, R, E>) {
    exists n :: HasEdge(g, n, n)
  }

  lemma BelowSnoc(order: seq<Name>, name: Name, a: Name, b: Name)
    requires Distinct(order + [name]) && a in order
    ensures b in order ==> (Below(order + [name], a, b) <==> Below(order, a, b))
    ensures Below(order + [name], a, name)
  {
    var i := Rank(order, a);
    assert (order + [name])[i] == a && (order + [name])[|order|] == name;
    RankIs(order + [name], i);
    RankIs(order + [name], |order|);
    if b in order {
      var j := Rank(order, b);
      assert (order + [name])[j] == b;
      RankIs(order + [name], j);
    }
  }

  lemma ConnectClimbs<S, R, E>(g: Graph<S, R, E>, p: Name, name: Name)
    requires Climbs(g) && g.order != [] && g.order[|g.order| - 1] == name && p in g.nodes
    ensures var g1 := Connect(g, p, name);
      Climbs(g1) && g1.nodes.Keys == g.nodes.Keys && (SelfLoop(g1) <==> SelfLoop(g) || p == name)
  {
    var g1 := Connect(g, p, name);
    RankIs(g.order, |g.order| - 1);
    forall a, b
      ensures HasEdge(g1, a, b) <==> HasEdge(g, a, b) || (a == p && b == name)
    {
    }
    if p == name { assert HasEdge(g1, name, name); }
    if SelfLoop(g) { var n :| HasEdge(g, n, n); assert HasEdge(g1, n, n); }
  }

  /** During one call: the new node is last, and edges lead upwards or to the node itself. */
  lemma {:induction false} WireClimbs<S, R, E>(g: Graph<S, R, E>, name: Name, parents: seq<Name>)
    requires Climbs(g) && g.order != [] && g.order[|g.order| - 1] == name
    ensures var g' := Wire(g, name, parents).0;
      && Climbs(g') && g'.order == g.order
      && (Wire(g, name, parents).1 ==> (SelfLoop(g') <==> SelfLoop(g) || name in parents))
    decreases |parents|
  {
    if parents != [] && parents[0] in g.nodes {
      ConnectClimbs(g, parents[0], name);
      WireClimbs(Connect(g, parents[0], name), name, parents[1..]);
      assert parents == [parents[0]] + parents[1..];
    }
  }

  lemma InsertClimbs<S, R, E>(g: Graph<S, R, E>, c: Call<S, R, E>)
    requires Climbs(g) && c.name !in g.nodes
    ensures var g' := Insert(g, c); Climbs(g') && (SelfLoop(g') <==> SelfLoop(g))
  {
    var g' := Insert(g, c);
    assert Distinct(g'.order) by { assert c.name !in g.order; }
    forall a, b
      ensures HasEdge(g', a, b) <==> HasEdge(g, a, b)
      ensures HasEdge(g', a, b) ==> b in g'.order && (a == b || Below(g'.order, a, b))
    {
      if HasEdge(g', a, b) {
        assert HasEdge(g, a, b) && a in g.order;
        BelowSnoc(g.order, c.name, a, b);
      }
    }
  }

  predicate NamesItself<S, R, E>(calls: seq<Call<S, R, E>>) {
    exists i :: 0 <= i < |calls| && !calls[i].kind.Source? && calls[i].name in calls[i].parents
  }

  /** Whatever the calls, edges climb; and a successful build has a self-loop exactly when some call names
      its own node as a parent, which the code does not refuse. */
  lemma {:induction false} BuildClimbs<S, R, E>(calls: seq<Call<S, R, E>>)
    ensures Climbs(Build(calls).0)
    ensures Build(calls).1 ==> (SelfLoop(Build(calls).0) <==> NamesItself(calls))
  {
    if calls != [] {
      var init, c := calls[..|calls| - 1], calls[|calls| - 1];
      BuildClimbs(init);
      var g := Build(init).0;
      if Build(init).1 && c.name !in g.nodes {
        InsertClimbs(g, c);
        WireClimbs(Insert(g, c), c.name, if c.kind.Source? then [] else c.parents);
      }
      assert forall i :: 0 <= i < |init| ==> calls[i] == init[i];
    }
  }

  // What the edges are.

  function Downstreams<S, R, E>(g: Graph<S, R, E>, a: Name): seq<Name> {
    if a in g.nodes then g.nodes[a].downstreams else []
  }

  function Times(parents: seq<Name>, a: Name): nat {
    if parents == [] then 0 else (if parents[0] == a then 1 else 0) + Times(parents[1..], a)
  }

  lemma {:induction false} WireExact<S, R, E>(g: Graph<S, R, E>, name: Name, parents: seq<Name>, a: Name)
    requires Wire(g, name, parents).1
    ensures var g' := Wire(g, name, parents).0;
      && g'.nodes.Keys == g.nodes.Keys && g'.order == g.order
      && Downstreams(g', a) == Downstreams(g, a) + seq(Times(parents, a), _ => name)
      && (a in g.nodes ==> g'.nodes[a].kind == g.nodes[a].kind && g'.nodes[a].fn == g.nodes[a].fn)
    decreases |parents|
  {
    if parents != [] {
      WireExact(Connect(g, parents[0], name), name, parents[1..], a);
    }
  }

  /** A successful call adds the node with its kind and function, and at the end of each node's downstreams
      one edge to it per mention of that node among the parents; nothing else changes. */
  lemma AddExact<S, R, E>(g: Graph<S, R, E>, c: Call<S, R, E>, a: Name)
    requires Add(g, c).1
    ensures var g', parents := Add(g, c).0, if c.kind.Source? then [] else c.parents;
      && c.name !in g.nodes && g'.nodes.Keys == g.nodes.Keys + {c.name} && g'.order == g.order + [c.name]
      && Downstreams(g', a) == Downstreams(g, a) + seq(Times(parents, a), _ => c.name)
      && g'.nodes[c.name].kind == c.kind && g'.nodes[c.name].fn == c.fn
      && (a in g.nodes ==> g'.nodes[a].kind == g.nodes[a].kind && g'.nodes[a].fn == g.nodes[a].fn)
  {
    var parents := if c.kind.Source? then [] else c.parents;
    WireExact(Insert(g, c), c.name, parents, a);
    WireExact(Insert(g, c), c.name, parents, c.name);
  }

  // When the builder accepts.

  lemma {:induction false} WireIff<S, R, E>(g: Graph<S, R, E>, name: Name, parents: seq<Name>)
    ensures Wire(g, name, parents).1 <==> forall i :: 0 <= i < |parents| ==> parents[i] in g.nodes
    decreases |parents|
  {
    if parents != [] && parents[0] in g.nodes {
      var rest := parents[1..];
      WireIff(Connect(g, parents[0], name), name, rest);
      assert forall i :: 0 < i < |parents| ==> rest[i - 1] == parents[i];
    }
  }

  /** A call goes through if and only if its name is new and, unless it adds a source, it names at least one
      parent and only registered nodes or itself. */
  lemma AddIff<S, R, E>(g: Graph<S, R, E>, c: Call<S, R, E>)
    ensures Add(g, c).1
       <==> c.name !in g.nodes
            && (c.kind.Source?
                || (c.parents != []
                    && forall i :: 0 <= i < |c.parents| ==> c.parents[i] in g.nodes || c.parents[i] == c.name))
  {
    WireIff(Insert(g, c), c.name, if c.kind.Source? then [] else c.parents);
  }

  predicate NamedIn<S, R, E>(calls: seq<Call<S, R, E>>, n: nat, name: Name)
    requires n <= |calls|
  {
    exists j :: 0 <= j < n && calls[j].name == name
  }

  /** The call's name is new, and its parents are named by the calls before it or by itself. */
  predicate FollowsOn<S, R, E>(calls: seq<Call<S, R, E>>, i: nat)
    requires i < |calls|
  {
    && !NamedIn(calls, i, calls[i].name)
    && (calls[i].kind.Source?
        || (calls[i].parents != []
            && forall k :: 0 <= k < |calls[i].parents| ==> NamedIn(calls, i + 1, calls[i].parents[k])))
  }

  /** A sequence of calls builds a graph if and only if each follows on from the ones before; then the nodes are
      those they name. */
  lemma {:induction false} BuildIff<S, R, E>(calls: seq<Call<S, R, E>>)
    ensures Build(calls).1 <==> forall i :: 0 <= i < |calls| ==> FollowsOn(calls, i)
    ensures Build(calls).1 ==> forall name :: name in Build(calls).0.nodes <==> NamedIn(calls, |calls|, name)
  {
    if calls != [] {
      var n := |calls| - 1;
      var init, c := calls[..n], calls[n];
      BuildIff(init);
      forall i: nat, name | i <= n ensures NamedIn(calls, i, name) <==> NamedIn(init, i, name) {}
      forall i | 0 <= i < n ensures FollowsOn(calls, i) <==> FollowsOn(init, i) {}
      if Build(init).1 {
        LastFollowsOn(Build(init).0, calls);
        if Add(Build(init).0, c).1 { AddExact(Build(init).0, c, c.name); }
      }
    }
  }

  lemma LastFollowsOn<S, R, E>(g: Graph<S, R, E>, calls: seq<Call<S, R, E>>)
    requires calls != [] && forall name :: name in g.nodes <==> NamedIn(calls, |calls| - 1, name)
    ensures Add(g, calls[|calls| - 1]).1 <==> FollowsOn(calls, |calls| - 1)
    ensures forall name :: NamedIn(calls, |calls|, name) <==> name in g.nodes || name == calls[|calls| - 1].name
  {
    var n := |calls| - 1;
    var c := calls[n];
    forall name ensures NamedIn(calls, n + 1, name) <==> NamedIn(calls, n, name) || name == c.name {}
    AddIff(g, c);
  }

  // Cycles.

  /** A walk along edges. */
  predicate IsWalk<S, R, E>(g: Graph<S, R, E>, walk: seq<Name>) {
    forall i :: 0 <= i < |walk| - 1 ==> HasEdge(g, walk[i], walk[i + 1])
  }

  ghost predicate HasCycle<S, R, E>(g: Graph<S, R, E>) {
    exists walk :: |walk| > 1 && IsWalk(g, walk) && walk[0] == walk[|walk| - 1]
  }

  lemma {:induction false} WalkClimbs<S, R, E>(g: Graph<S, R, E>, walk: seq<Name>)
    requires Climbs(g) && !SelfLoop(g) && |walk| > 1 && IsWalk(g, walk)
    ensures Below(g.order, walk[0], walk[|walk| - 1])
    decreases |walk|
  {
    var n := |walk| - 1;
    assert HasEdge(g, walk[n - 1], walk[n]);
    if n > 1 { WalkClimbs(g, walk[..n]); }
  }

  lemma CycleIffSelfLoop<S, R, E>(g: Graph<S, R, E>)
    requires Climbs(g)
    ensures HasCycle(g) <==> SelfLoop(g)
  {
    if SelfLoop(g) {
      var n :| HasEdge(g, n, n);
      var walk := [n, n];
      assert IsWalk(g, walk) && |walk| > 1 && walk[0] == walk[|walk| - 1];
    } else if HasCycle(g) {
      var walk :| |walk| > 1 && IsWalk(g, walk) && walk[0] == walk[|walk| - 1];
      WalkClimbs(g, walk);
    }
  }

  /** Every graph the builder completes is acyclic if and only if no call named its own node as a parent. */
  lemma AcyclicIff<S, R, E>(calls: seq<Call<S, R, E>>)
    requires Build(calls).1
    ensures !HasCycle(Build(calls).0) <==> !NamesItself(calls)
  {
    BuildClimbs(calls);
    CycleIffSelfLoop(Build(calls).0);
  }

  /** An instance: a source, then a processor that lists itself. The build goes through. */
  lemma SelfParentMakesCycle<S, R, E>(f: Fn<S, R, E>)
    ensures var calls := [Call("a", Source, f, []), Call("b", Processor, f, ["a", "b"])];
      Build(calls).1 && HasCycle(Build(calls).0)
  {
    var calls := [Call("a", Source, f, []), Call("b", Processor, f, ["a", "b"])];
    assert calls[..1] == [calls[0]] && calls[..1][..0] == [];
    assert Build(calls[..1]).0.nodes.Keys == {"a"};
    assert ["a", "b"][1..] == ["b"] && ["b"][1..] == [];
    assert calls[1].name in calls[1].parents;
    AcyclicIff(calls);
  }

  // The builder as an object.

  class Builder<!S, !R, E> {
    var nodes: map<Name, Node<S, R, E>>
    var sources: set<Name>
    var sinks: set<Name>
    ghost var order: seq<Name>

    ghost function G(): Graph<S, R, E>
      reads this
    {
      Graph(nodes, order)
    }

    ghost predicate Valid()
      reads this
    {
      && Climbs(G())
      && (forall n :: n in sources <==> n in nodes && nodes[n].kind.Source?)
      && (forall n :: n in sinks <==> n in nodes && nodes[n].kind.Sink?)
    }

    constructor ()
      ensures Valid() && G() == Empty()
    {
      nodes, sources, sinks, order := map[], {}, {}, [];
    }

    /** The wiring loop. */
    method Wiring(name: Name, parents: seq<Name>) returns (ok: bool)
      requires Valid() && order != [] && order[|order| - 1] == name
      modifies this`nodes
      ensures Valid() && (G(), ok) == Wire(old(G()), name, parents)
    {
      ghost var start := G();
      for i := 0 to |parents|
        invariant Valid() && order == old(order)
        invariant Wire(start, name, parents) == Wire(G(), name, parents[i..])
      {
        assert parents[i..][0] == parents[i] && parents[i..][1..] == parents[i + 1..];
        if parents[i] !in nodes { return false; }
        ConnectClimbs(G(), parents[i], name);
        var p := nodes[parents[i]];
        nodes := nodes[parents[i] := p.(downstreams := p.downstreams + [name])];
      }
      ok := true;
    }

    method AddSource(name: Name, fn: Fn<S, R, E>) returns (ok: bool)
      requires Valid()
      modifies this
      ensures Valid() && (G(), ok) == Add(old(G()), Call(name, Source, fn, []))
    {
      if name in nodes { return false; }
      InsertClimbs(G(), Call(name, Source, fn, []));
      nodes, sources, order := nodes[name := Node(Source, fn, [])], sources + {name}, order + [name];
      ok := true;
    }

    method AddProcessor(name: Name, fn: Fn<S, R, E>, parents: seq<Name>) returns (ok: bool)
      requires Valid()
      modifies this
      ensures Valid() && (G(), ok) == Add(old(G()), Call(name, Processor, fn, parents))
    {
      if name in nodes || |parents| == 0 { return false; }
      InsertClimbs(G(), Call(name, Processor, fn, parents));
      nodes, order := nodes[name := Node(Processor, fn, [])], order + [name];
      ok := Wiring(name, parents);
    }

    method AddSink(name: Name, fn: Fn<S, R, E>, parents: seq<Name>) returns (ok: bool)
      requires Valid()
      modifies this
      ensures Valid() && (G(), ok) == Add(old(G()), Call(name, Sink, fn, parents))
    {
      if name in nodes || |parents| == 0 { return false; }
      InsertClimbs(G(), Call(name, Sink, fn, parents));
      nodes, sinks, order := nodes[name := Node(Sink, fn, [])], sinks + {name}, order + [name];
      ok := Wiring(name, parents);
    }
  }
}
