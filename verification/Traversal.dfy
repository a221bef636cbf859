/** Driving a record through the graph: internal/topology/processor.go and testdriver.go. All processors of a
    task share its stores and its stream time, which the traversal threads through. */
module Traversal {
  import opened Wrappers
  import opened Collections
  import opened Topology

  ghost predicate Sound<S, R, E>(g: Graph<S, R, E>) {
    Climbs(g) && !SelfLoop(g)
  }

  /** What a traversal leaves: the state, the records that reached sinks, in order, and the first error. */
  datatype Out<S, R, E> = Out(state: S, emitted: seq<(Name, R)>, error: Option<E>)

  /** `first`, then `second` if there was no error. */
  function Then<S, R, E>(first: Out<S, R, E>, second: Out<S, R, E>): Out<S, R, E> {
    if first.error.Some? then first else Out(second.state, first.emitted + second.emitted, second.error)
  }

  function Left<S, R, E>(g: Graph<S, R, E>, n: Name): nat
    requires n in g.order
  {
    |g.order| - Rank(g.order, n)
  }

  lemma EdgeDescends<S, R, E>(g: Graph<S, R, E>, n: Name, k: nat)
    requires Sound(g) && n in g.nodes && k < |g.nodes[n].downstreams|
    ensures var d := g.nodes[n].downstreams[k]; n in g.order && d in g.nodes && d in g.order && Left(g, d) < Left(g, n)
  {
    assert HasEdge(g, n, g.nodes[n].downstreams[k]);
  }

  /** `processWithCtxAndHook` when `hook` is set: sinks are intercepted. `processWithCtx` otherwise: every
      node runs its function. */
  function Visit<S, R, E>(g: Graph<S, R, E>, hook: bool, n: Name, s: S, r: R): Out<S, R, E>
    requires Sound(g) && n in g.nodes
    decreases Left(g, n), 2, 0
  {
    var node := g.nodes[n];
    if hook && node.kind.Sink? then Out(s, [(n, r)], None)
    else match node.fn
      case Placeholder(e) => Out(s, [], Some(e))
      case Collector => Out(s, [(n, r)], None)
      case Fn(f) =>
        var x := f(s, r);
        var forwarded := ForwardAll(g, hook, n, x.state, x.outs);
        if forwarded.error.Some? then forwarded else Out(forwarded.state, forwarded.emitted, x.error)
  }

  /** The forward calls of one processor invocation; after an error they do nothing. */
  function ForwardAll<S, R, E>(g: Graph<S, R, E>, hook: bool, n: Name, s: S, outs: seq<R>): Out<S, R, E>
    requires Sound(g) && n in g.nodes
    decreases Left(g, n), 1, |outs|
  {
    if outs == [] then Out(s, [], None)
    else
      var before := ForwardAll(g, hook, n, s, outs[..|outs| - 1]);
      Then(before, Forward(g, hook, n, |g.nodes[n].downstreams|, before.state, outs[|outs| - 1]))
  }

  /** One forward call: the first `k` downstreams in order, up to the first error. */
  function Forward<S, R, E>(g: Graph<S, R, E>, hook: bool, n: Name, k: nat, s: S, r: R): Out<S, R, E>
    requires Sound(g) && n in g.nodes && k <= |g.nodes[n].downstreams|
    decreases Left(g, n), 0, k
  {
    if k == 0 then Out(s, [], None)
    else
      var before := Forward(g, hook, n, k - 1, s, r);
      EdgeDescends(g, n, k - 1);
      Then(before, Visit(g, hook, g.nodes[n].downstreams[k - 1], before.state, r))
  }

  // First error wins.

  /** What happens if nothing ever stops, depth first: every state a processor leaves, every sink record and
      every error. */
  datatype Event<S, R, E> = Stored(state: S) | Emitted(sink: Name, record: R) | Failed(error: E)

  /** The state after all events. */
  function Final<S, R, E>(s: S, events: seq<Event<S, R, E>>): S {
    if events == [] then s
    else if events[|events| - 1].Stored? then events[|events| - 1].state
    else Final(s, events[..|events| - 1])
  }

  function Trace<S, R, E>(g: Graph<S, R, E>, hook: bool, n: Name, s: S, r: R): seq<Event<S, R, E>>
    requires Sound(g) && n in g.nodes
    decreases Left(g, n), 2, 0
  {
    var node := g.nodes[n];
    if hook && node.kind.Sink? then [Emitted(n, r)]
    else match node.fn
      case Placeholder(e) => [Failed(e)]
      case Collector => [Emitted(n, r)]
      case Fn(f) =>
        var x := f(s, r);
        [Event.Stored(x.state)] + TraceAll(g, hook, n, x.state, x.outs) + ErrorOf(x.error)
  }

  function ErrorOf<S, R, E>(error: Option<E>): seq<Event<S, R, E>> {
    if error.Some? then [Failed(error.value)] else []
  }

  function TraceAll<S, R, E>(g: Graph<S, R, E>, hook: bool, n: Name, s: S, outs: seq<R>): seq<Event<S, R, E>>
    requires Sound(g) && n in g.nodes
    decreases Left(g, n), 1, |outs|
  {
    if outs == [] then []
    else
      var before := TraceAll(g, hook, n, s, outs[..|outs| - 1]);
      before + TraceForward(g, hook, n, |g.nodes[n].downstreams|, Final(s, before), outs[|outs| - 1])
  }

  function TraceForward<S, R, E>(g: Graph<S, R, E>, hook: bool, n: Name, k: nat, s: S, r: R): seq<Event<S, R, E>>
    requires Sound(g) && n in g.nodes && k <= |g.nodes[n].downstreams|
    decreases Left(g, n), 0, k
  {
    if k == 0 then []
    else
      EdgeDescends(g, n, k - 1);
      var before := TraceForward(g, hook, n, k - 1, s, r);
      before + Trace(g, hook, g.nodes[n].downstreams[k - 1], Final(s, before), r)
  }

  /** The state, the sink records and the error at the first error, or at the end. */
  function UpToError<S, R, E>(s: S, events: seq<Event<S, R, E>>): Out<S, R, E> {
    if events == [] then Out(s, [], None)
    else
      var before, last := UpToError(s, events[..|events| - 1]), events[|events| - 1];
      if before.error.Some? then before
      else match last
        case Stored(state) => Out(state, before.emitted, None)
        case Failed(error) => Out(before.state, before.emitted, Some(error))
        case Emitted(sink, record) => Out(before.state, before.emitted + [(sink, record)], None)
  }

  lemma {:induction false} UpToErrorConcat<S, R, E>(s: S, a: seq<Event<S, R, E>>, b: seq<Event<S, R, E>>)
    ensures var x := UpToError(s, a); UpToError(s, a + b) == Then(x, UpToError(x.state, b))
  {
    if b == [] {
      assert a + b == a;
      assert UpToError(s, a).emitted + [] == UpToError(s, a).emitted;
    } else {
      assert (a + b)[..|a + b| - 1] == a + b[..|b| - 1];
      UpToErrorConcat(s, a, b[..|b| - 1]);
    }
  }

  lemma {:induction false} FinalUpToError<S, R, E>(s: S, events: seq<Event<S, R, E>>)
    requires UpToError(s, events).error.None?
    ensures UpToError(s, events).state == Final(s, events)
  {
    if events != [] { FinalUpToError(s, events[..|events| - 1]); }
  }

  lemma UpToErrorOne<S, R, E>(s: S, e: Event<S, R, E>)
    ensures UpToError(s, [e]) == match e
                                 case Stored(state) => Out(state, [], None)
                                 case Failed(error) => Out(s, [], Some(error))
                                 case Emitted(sink, record) => Out(s, [(sink, record)], None)
  {
    assert [e][..0] == [];
  }

  /** The traversal is the full trace cut at the first error, anywhere in the subtree: nothing after it is
      emitted or written, nothing before it is missing, and it is the error returned. */
  lemma {:induction false} FirstErrorWins<S, R, E>(g: Graph<S, R, E>, hook: bool, n: Name, s: S, r: R)
    requires Sound(g) && n in g.nodes
    ensures Visit(g, hook, n, s, r) == UpToError(s, Trace(g, hook, n, s, r))
    decreases Left(g, n), 2, 0
  {
    var node := g.nodes[n];
    if hook && node.kind.Sink? {
      UpToErrorOne(s, Event<S, R, E>.Emitted(n, r));
    } else {
      match node.fn
      case Placeholder(e) => UpToErrorOne(s, Event<S, R, E>.Failed(e));
      case Collector => UpToErrorOne(s, Event<S, R, E>.Emitted(n, r));
      case Fn(f) =>
        var x := f(s, r);
        FirstErrorOfAll(g, hook, n, x.state, x.outs);
        InvocationCut(s, x.state, TraceAll(g, hook, n, x.state, x.outs), x.error);
    }
  }

  /** One invocation: the state it leaves, what its forwards do, its own error. */
  lemma InvocationCut<S, R, E>(s: S, s': S, events: seq<Event<S, R, E>>, error: Option<E>)
    ensures var forwarded := UpToError(s', events);
      UpToError(s, [Event.Stored(s')] + events + ErrorOf(error))
      == if forwarded.error.Some? then forwarded else Out(forwarded.state, forwarded.emitted, error)
  {
    var first: seq<Event<S, R, E>> := [Event.Stored(s')];
    UpToErrorOne(s, first[0]);
    UpToErrorConcat(s, first, events);
    UpToErrorConcat(s, first + events, ErrorOf(error));
    var forwarded := UpToError(s', events);
    assert UpToError(s, first + events) == forwarded;
    if error.Some? { UpToErrorOne(forwarded.state, Event<S, R, E>.Failed(error.value)); }
  }

  lemma {:induction false} FirstErrorOfAll<S, R, E>(g: Graph<S, R, E>, hook: bool, n: Name, s: S, outs: seq<R>)
    requires Sound(g) && n in g.nodes
    ensures ForwardAll(g, hook, n, s, outs) == UpToError(s, TraceAll(g, hook, n, s, outs))
    decreases Left(g, n), 1, |outs|
  {
    if outs != [] {
      var m, init, last := |g.nodes[n].downstreams|, outs[..|outs| - 1], outs[|outs| - 1];
      FirstErrorOfAll(g, hook, n, s, init);
      var before := TraceAll(g, hook, n, s, init);
      UpToErrorConcat(s, before, TraceForward(g, hook, n, m, Final(s, before), last));
      if UpToError(s, before).error.None? {
        FinalUpToError(s, before);
        FirstErrorOfForward(g, hook, n, m, Final(s, before), last);
      }
    }
  }

  lemma {:induction false} FirstErrorOfForward<S, R, E>(g: Graph<S, R, E>, hook: bool, n: Name, k: nat, s: S, r: R)
    requires Sound(g) && n in g.nodes && k <= |g.nodes[n].downstreams|
    ensures Forward(g, hook, n, k, s, r) == UpToError(s, TraceForward(g, hook, n, k, s, r))
    decreases Left(g, n), 0, k
  {
    if k > 0 {
      EdgeDescends(g, n, k - 1);
      var d := g.nodes[n].downstreams[k - 1];
      FirstErrorOfForward(g, hook, n, k - 1, s, r);
      var before := TraceForward(g, hook, n, k - 1, s, r);
      UpToErrorConcat(s, before, Trace(g, hook, d, Final(s, before), r));
      if UpToError(s, before).error.None? {
        FinalUpToError(s, before);
        FirstErrorWins(g, hook, d, Final(s, before), r);
      }
    }
  }

  // The test driver.

  /** `NewTestDriver` replaces the function of every sink by a collector, in the shared graph. */
  function Installed<S, R, E>(g: Graph<S, R, E>): Graph<S, R, E> {
    g.(nodes := map n | n in g.nodes :: if g.nodes[n].kind.Sink? then g.nodes[n].(fn := Collector) else g.nodes[n])
  }

  lemma InstalledSound<S, R, E>(g: Graph<S, R, E>)
    requires Sound(g)
    ensures Sound(Installed(g)) && Installed(g).nodes.Keys == g.nodes.Keys
    ensures forall n :: n in g.nodes ==> Installed(g).nodes[n].downstreams == g.nodes[n].downstreams
  {
    forall a, b
      ensures HasEdge(Installed(g), a, b) <==> HasEdge(g, a, b)
    {
    }
  }

  /** Executor and TestDriver agree: from the same state, the same sink records in the same order, the same
      state, and the same first error. */
  lemma {:induction false} DriverIsExecutor<S, R, E>(g: Graph<S, R, E>, n: Name, s: S, r: R)
    requires Sound(g) && n in g.nodes
    ensures Sound(Installed(g)) && n in Installed(g).nodes
            && Visit(Installed(g), false, n, s, r) == Visit(g, true, n, s, r)
    decreases Left(g, n), 2, 0
  {
    InstalledSound(g);
    var node := g.nodes[n];
    if !node.kind.Sink? && node.fn.Fn? {
      DriverForwardAll(g, n, node.fn.f(s, r).state, node.fn.f(s, r).outs);
    }
  }

  lemma {:induction false} DriverForwardAll<S, R, E>(g: Graph<S, R, E>, n: Name, s: S, outs: seq<R>)
    requires Sound(g) && n in g.nodes
    ensures Sound(Installed(g)) && n in Installed(g).nodes
    ensures ForwardAll(Installed(g), false, n, s, outs) == ForwardAll(g, true, n, s, outs)
    decreases Left(g, n), 1, |outs|
  {
    InstalledSound(g);
    if outs != [] {
      var init := outs[..|outs| - 1];
      DriverForwardAll(g, n, s, init);
      DriverForward(g, n, |g.nodes[n].downstreams|, ForwardAll(g, true, n, s, init).state, outs[|outs| - 1]);
    }
  }

  lemma {:induction false} DriverForward<S, R, E>(g: Graph<S, R, E>, n: Name, k: nat, s: S, r: R)
    requires Sound(g) && n in g.nodes && k <= |g.nodes[n].downstreams|
    ensures Sound(Installed(g)) && n in Installed(g).nodes && k <= |Installed(g).nodes[n].downstreams|
    ensures Forward(Installed(g), false, n, k, s, r) == Forward(g, true, n, k, s, r)
    decreases Left(g, n), 0, k
  {
    InstalledSound(g);
    if k > 0 {
      EdgeDescends(g, n, k - 1);
      DriverForward(g, n, k - 1, s, r);
      DriverIsExecutor(g, g.nodes[n].downstreams[k - 1], Forward(g, true, n, k - 1, s, r).state, r);
    }
  }

  // One copy per path.

  /** A path from `n` to the sink `sink`, as the index of the edge taken at each node: parallel edges are
      different paths, and a sink is always an end. */
  predicate IsPath<S, R, E>(g: Graph<S, R, E>, n: Name, path: seq<nat>, sink: Name)
    decreases |path|
  {
    n in g.nodes
    && var node := g.nodes[n];
       if node.kind.Sink? then path == [] && n == sink
       else path != [] && path[0] < |node.downstreams| && IsPath(g, node.downstreams[path[0]], path[1..], sink)
  }

  /** All of them. */
  function Paths<S, R, E>(g: Graph<S, R, E>, n: Name, sink: Name): seq<seq<nat>>
    requires Sound(g) && n in g.nodes
    decreases Left(g, n), 1, 0
  {
    if g.nodes[n].kind.Sink? then (if n == sink then [[]] else [])
    else PathsUpTo(g, n, |g.nodes[n].downstreams|, sink)
  }

  function PathsUpTo<S, R, E>(g: Graph<S, R, E>, n: Name, k: nat, sink: Name): seq<seq<nat>>
    requires Sound(g) && n in g.nodes && k <= |g.nodes[n].downstreams|
    decreases Left(g, n), 0, k
  {
    if k == 0 then []
    else
      EdgeDescends(g, n, k - 1);
      PathsUpTo(g, n, k - 1, sink) + Prepend(k - 1, Paths(g, g.nodes[n].downstreams[k - 1], sink))
  }

  function Prepend(i: nat, paths: seq<seq<nat>>): (r: seq<seq<nat>>)
    ensures |r| == |paths| && forall j :: 0 <= j < |paths| ==> r[j] == [i] + paths[j]
  {
    seq(|paths|, j requires 0 <= j < |paths| => [i] + paths[j])
  }

  lemma {:induction false} PathsExact<S, R, E>(g: Graph<S, R, E>, n: Name, sink: Name)
    requires Sound(g) && n in g.nodes
    ensures Distinct(Paths(g, n, sink))
    ensures forall path :: path in Paths(g, n, sink) <==> IsPath(g, n, path, sink)
    decreases Left(g, n), 1, 0
  {
    if !g.nodes[n].kind.Sink? {
      PathsUpToExact(g, n, |g.nodes[n].downstreams|, sink);
    }
  }

  ghost predicate TakesEdgeBelow<S, R, E>(g: Graph<S, R, E>, n: Name, k: nat, path: seq<nat>, sink: Name)
    requires n in g.nodes && k <= |g.nodes[n].downstreams|
  {
    path != [] && path[0] < k && IsPath(g, g.nodes[n].downstreams[path[0]], path[1..], sink)
  }

  lemma {:induction false} PathsUpToExact<S, R, E>(g: Graph<S, R, E>, n: Name, k: nat, sink: Name)
    requires Sound(g) && n in g.nodes && k <= |g.nodes[n].downstreams|
    ensures Distinct(PathsUpTo(g, n, k, sink))
    ensures forall path :: path in PathsUpTo(g, n, k, sink) <==> TakesEdgeBelow(g, n, k, path, sink)
    decreases Left(g, n), 0, k
  {
    if k > 0 {
      EdgeDescends(g, n, k - 1);
      var d := g.nodes[n].downstreams[k - 1];
      PathsUpToExact(g, n, k - 1, sink);
      PathsExact(g, d, sink);
      var before, more := PathsUpTo(g, n, k - 1, sink), Prepend(k - 1, Paths(g, d, sink));
      PrependDistinct(k - 1, Paths(g, d, sink));
      forall path
        ensures path in before + more <==> TakesEdgeBelow(g, n, k, path, sink)
      {
        PrependHas(k - 1, Paths(g, d, sink), path);
        assert path in before + more <==> path in before || path in more;
      }
      forall i, j | 0 <= i < |before| && 0 <= j < |more|
        ensures before[i] != more[j]
      {
        assert before[i] in before;
        assert TakesEdgeBelow(g, n, k - 1, before[i], sink);
      }
      DistinctConcat(before, more);
    }
  }

  lemma DistinctConcat<T>(a: seq<T>, b: seq<T>)
    requires Distinct(a) && Distinct(b) && forall i, j :: 0 <= i < |a| && 0 <= j < |b| ==> a[i] != b[j]
    ensures Distinct(a + b)
  {
  }

  lemma PrependHas(i: nat, paths: seq<seq<nat>>, path: seq<nat>)
    ensures path in Prepend(i, paths) <==> path != [] && path[0] == i && path[1..] in paths
  {
    if path in Prepend(i, paths) {
      var j :| 0 <= j < |paths| && Prepend(i, paths)[j] == path;
      assert path[1..] == paths[j];
    }
    if path != [] && path[0] == i && path[1..] in paths {
      var j :| 0 <= j < |paths| && paths[j] == path[1..];
      assert Prepend(i, paths)[j] == [i] + path[1..] == path;
    }
  }

  lemma PrependDistinct(i: nat, paths: seq<seq<nat>>)
    requires Distinct(paths)
    ensures Distinct(Prepend(i, paths))
  {
    forall a, b | 0 <= a < b < |paths|
      ensures Prepend(i, paths)[a] != Prepend(i, paths)[b]
    {
      assert ([i] + paths[a])[1..] == paths[a] && ([i] + paths[b])[1..] == paths[b];
    }
  }

  /** The records that reached a sink. */
  function At<R>(emitted: seq<(Name, R)>, sink: Name): seq<R> {
    if emitted == [] then []
    else
      var last := emitted[|emitted| - 1];
      At(emitted[..|emitted| - 1], sink) + if last.0 == sink then [last.1] else []
  }

  lemma {:induction false} AtConcat<R>(a: seq<(Name, R)>, b: seq<(Name, R)>, sink: Name)
    ensures At(a + b, sink) == At(a, sink) + At(b, sink)
  {
    if b == [] {
      assert a + b == a;
    } else {
      assert (a + b)[..|a + b| - 1] == a + b[..|b| - 1];
      AtConcat(a, b[..|b| - 1], sink);
    }
  }

  /** Every node that is not a sink forwards what it gets, once, whatever it does to the state. */
  ghost predicate PassThrough<S(!new), R(!new), E>(g: Graph<S, R, E>) {
    forall n :: n in g.nodes && !g.nodes[n].kind.Sink? ==> g.nodes[n].fn.Fn? && Passes(g.nodes[n].fn)
  }

  ghost predicate Passes<S(!new), R(!new), E>(fn: Fn<S, R, E>)
    requires fn.Fn?
  {
    forall s, r :: fn.f(s, r).outs == [r] && fn.f(s, r).error == None
  }

  function Copies<R>(r: R, k: nat): seq<R> {
    seq(k, _ => r)
  }

  /** A sink receives one copy per path from the node the record is given to. */
  lemma {:induction false} OneCopyPerPath<S(!new), R(!new), E>(g: Graph<S, R, E>, n: Name, s: S, r: R, sink: Name)
    requires Sound(g) && PassThrough(g) && n in g.nodes
    ensures Visit(g, true, n, s, r).error.None?
    ensures At(Visit(g, true, n, s, r).emitted, sink) == Copies(r, |Paths(g, n, sink)|)
    decreases Left(g, n), 1, 0
  {
    if g.nodes[n].kind.Sink? {
      assert [(n, r)][..0] == [];
    } else {
      assert Passes(g.nodes[n].fn);
      var x := g.nodes[n].fn.f(s, r);
      CopiesUpTo(g, n, |g.nodes[n].downstreams|, x.state, r, sink);
      ForwardOne(g, true, n, x.state, r);
    }
  }

  lemma ForwardOne<S, R, E>(g: Graph<S, R, E>, hook: bool, n: Name, s: S, r: R)
    requires Sound(g) && n in g.nodes
    ensures ForwardAll(g, hook, n, s, [r]) == Forward(g, hook, n, |g.nodes[n].downstreams|, s, r)
  {
    assert [r][..0] == [];
    assert ForwardAll(g, hook, n, s, [r][..0]) == Out(s, [], None);
    var last := Forward(g, hook, n, |g.nodes[n].downstreams|, s, r);
    assert [] + last.emitted == last.emitted;
  }

  lemma CopiesConcat<R>(r: R, a: nat, b: nat)
    ensures Copies(r, a) + Copies(r, b) == Copies(r, a + b)
  {
  }

  lemma ForwardNext<S, R, E>(g: Graph<S, R, E>, hook: bool, n: Name, k: nat, s: S, r: R)
    requires Sound(g) && n in g.nodes && k < |g.nodes[n].downstreams|
    ensures g.nodes[n].downstreams[k] in g.nodes
    ensures var before := Forward(g, hook, n, k, s, r);
      Forward(g, hook, n, k + 1, s, r) == Then(before, Visit(g, hook, g.nodes[n].downstreams[k], before.state, r))
  {
    EdgeDescends(g, n, k);
  }

  lemma {:induction false} CopiesUpTo<S(!new), R(!new), E>(g: Graph<S, R, E>, n: Name, k: nat, s: S, r: R, sink: Name)
    requires Sound(g) && PassThrough(g) && n in g.nodes && k <= |g.nodes[n].downstreams|
    ensures Forward(g, true, n, k, s, r).error.None?
    ensures At(Forward(g, true, n, k, s, r).emitted, sink) == Copies(r, |PathsUpTo(g, n, k, sink)|)
    decreases Left(g, n), 0, k
  {
    if k > 0 {
      EdgeDescends(g, n, k - 1);
      var d := g.nodes[n].downstreams[k - 1];
      CopiesUpTo(g, n, k - 1, s, r, sink);
      var before := Forward(g, true, n, k - 1, s, r);
      OneCopyPerPath(g, d, before.state, r, sink);
      ForwardNext(g, true, n, k - 1, s, r);
      MoreCopies(before, Visit(g, true, d, before.state, r), r, sink, |PathsUpTo(g, n, k - 1, sink)|,
                 |Paths(g, d, sink)|);
      assert |PathsUpTo(g, n, k, sink)| == |PathsUpTo(g, n, k - 1, sink)| + |Paths(g, d, sink)|;
    }
  }

  lemma MoreCopies<S, R, E>(a: Out<S, R, E>, b: Out<S, R, E>, r: R, sink: Name, m: nat, n: nat)
    requires a.error.None? && b.error.None? && At(a.emitted, sink) == Copies(r, m)
             && At(b.emitted, sink) == Copies(r, n)
    ensures Then(a, b).error.None? && At(Then(a, b).emitted, sink) == Copies(r, m + n)
  {
    AtConcat(a.emitted, b.emitted, sink);
    CopiesConcat(r, m, n);
  }

  // In path order.

  /** All paths from `n` to sinks. */
  function Routes<S, R, E>(g: Graph<S, R, E>, n: Name): seq<seq<nat>>
    requires Sound(g) && n in g.nodes
    decreases Left(g, n), 1, 0
  {
    if g.nodes[n].kind.Sink? then [[]] else RoutesUpTo(g, n, |g.nodes[n].downstreams|)
  }

  function RoutesUpTo<S, R, E>(g: Graph<S, R, E>, n: Name, k: nat): seq<seq<nat>>
    requires Sound(g) && n in g.nodes && k <= |g.nodes[n].downstreams|
    decreases Left(g, n), 0, k
  {
    if k == 0 then []
    else
      EdgeDescends(g, n, k - 1);
      RoutesUpTo(g, n, k - 1) + Prepend(k - 1, Routes(g, g.nodes[n].downstreams[k - 1]))
  }

  /** The node at the end of a path. */
  function EndOf<S, R, E>(g: Graph<S, R, E>, n: Name, path: seq<nat>): Name
    decreases |path|
  {
    if path == [] || n !in g.nodes || path[0] >= |g.nodes[n].downstreams| then n
    else EndOf(g, g.nodes[n].downstreams[path[0]], path[1..])
  }

  /** An earlier edge at the first node where the paths part. */
  predicate Before(a: seq<nat>, b: seq<nat>)
    decreases |a|
  {
    b != [] && (a == [] || a[0] < b[0] || (a[0] == b[0] && Before(a[1..], b[1..])))
  }

  predicate InOrder(paths: seq<seq<nat>>) {
    forall i, j :: 0 <= i < j < |paths| ==> Before(paths[i], paths[j])
  }

  lemma PrependInOrder(i: nat, paths: seq<seq<nat>>)
    requires InOrder(paths)
    ensures InOrder(Prepend(i, paths))
  {
    forall a, b | 0 <= a < b < |paths|
      ensures Before(Prepend(i, paths)[a], Prepend(i, paths)[b])
    {
      assert ([i] + paths[a])[1..] == paths[a] && ([i] + paths[b])[1..] == paths[b];
    }
  }

  lemma {:induction false} RoutesInOrder<S, R, E>(g: Graph<S, R, E>, n: Name)
    requires Sound(g) && n in g.nodes
    ensures InOrder(Routes(g, n))
    decreases Left(g, n), 1, 0
  {
    if !g.nodes[n].kind.Sink? { RoutesUpToInOrder(g, n, |g.nodes[n].downstreams|); }
  }

  lemma {:induction false} RoutesUpToInOrder<S, R, E>(g: Graph<S, R, E>, n: Name, k: nat)
    requires Sound(g) && n in g.nodes && k <= |g.nodes[n].downstreams|
    ensures var paths := RoutesUpTo(g, n, k);
      InOrder(paths) && forall i :: 0 <= i < |paths| ==> paths[i] != [] && paths[i][0] < k
    decreases Left(g, n), 0, k
  {
    if k > 0 {
      EdgeDescends(g, n, k - 1);
      var d := g.nodes[n].downstreams[k - 1];
      RoutesUpToInOrder(g, n, k - 1);
      RoutesInOrder(g, d);
      PrependInOrder(k - 1, Routes(g, d));
    }
  }

  /** The routes are the paths to sinks, each with the sink it ends in. */
  lemma {:induction false} RoutesExact<S, R, E>(g: Graph<S, R, E>, n: Name, path: seq<nat>)
    requires Sound(g) && n in g.nodes
    ensures path in Routes(g, n) <==> IsPath(g, n, path, EndOf(g, n, path))
    decreases Left(g, n), 1, 0
  {
    if !g.nodes[n].kind.Sink? { RoutesUpToExact(g, n, |g.nodes[n].downstreams|, path); }
  }

  lemma {:induction false} RoutesUpToExact<S, R, E>(g: Graph<S, R, E>, n: Name, k: nat, path: seq<nat>)
    requires Sound(g) && n in g.nodes && k <= |g.nodes[n].downstreams| && !g.nodes[n].kind.Sink?
    ensures path in RoutesUpTo(g, n, k)
       <==> path != [] && path[0] < k && IsPath(g, n, path, EndOf(g, n, path))
    decreases Left(g, n), 0, k
  {
    if k > 0 {
      EdgeDescends(g, n, k - 1);
      var d := g.nodes[n].downstreams[k - 1];
      RoutesUpToExact(g, n, k - 1, path);
      PrependHas(k - 1, Routes(g, d), path);
      if path != [] && path[0] == k - 1 { RoutesExact(g, d, path[1..]); }
    }
  }

  /** A copy at the end of each path. */
  function Deliveries<S, R, E>(g: Graph<S, R, E>, n: Name, paths: seq<seq<nat>>, r: R): (out: seq<(Name, R)>)
    ensures |out| == |paths| && forall i :: 0 <= i < |paths| ==> out[i] == (EndOf(g, n, paths[i]), r)
  {
    seq(|paths|, i requires 0 <= i < |paths| => (EndOf(g, n, paths[i]), r))
  }

  /** The order of delivery: with processors that forward what they get, the copies arrive path by path, in the
      order in which the paths part at their nodes' downstreams. */
  lemma {:induction false} DeliveredInPathOrder<S(!new), R(!new), E>(g: Graph<S, R, E>, n: Name, s: S, r: R)
    requires Sound(g) && PassThrough(g) && n in g.nodes
    ensures Visit(g, true, n, s, r).error.None?
    ensures InOrder(Routes(g, n)) && Visit(g, true, n, s, r).emitted == Deliveries(g, n, Routes(g, n), r)
    decreases Left(g, n), 1, 0
  {
    RoutesInOrder(g, n);
    if !g.nodes[n].kind.Sink? {
      assert Passes(g.nodes[n].fn);
      var x := g.nodes[n].fn.f(s, r);
      DeliveredUpTo(g, n, |g.nodes[n].downstreams|, x.state, r);
      ForwardOne(g, true, n, x.state, r);
    }
  }

  lemma {:induction false} DeliveredUpTo<S(!new), R(!new), E>(g: Graph<S, R, E>, n: Name, k: nat, s: S, r: R)
    requires Sound(g) && PassThrough(g) && n in g.nodes && k <= |g.nodes[n].downstreams|
    ensures Forward(g, true, n, k, s, r).error.None?
    ensures Forward(g, true, n, k, s, r).emitted == Deliveries(g, n, RoutesUpTo(g, n, k), r)
    decreases Left(g, n), 0, k
  {
    if k > 0 {
      EdgeDescends(g, n, k - 1);
      var d := g.nodes[n].downstreams[k - 1];
      DeliveredUpTo(g, n, k - 1, s, r);
      DeliveredInPathOrder(g, d, Forward(g, true, n, k - 1, s, r).state, r);
      ForwardNext(g, true, n, k - 1, s, r);
      RoutesNext(g, n, k - 1, r);
    }
  }

  lemma RoutesNext<S, R, E>(g: Graph<S, R, E>, n: Name, k: nat, r: R)
    requires Sound(g) && n in g.nodes && k < |g.nodes[n].downstreams|
    ensures g.nodes[n].downstreams[k] in g.nodes
    ensures var d := g.nodes[n].downstreams[k];
      Deliveries(g, n, RoutesUpTo(g, n, k + 1), r)
      == Deliveries(g, n, RoutesUpTo(g, n, k), r) + Deliveries(g, d, Routes(g, d), r)
  {
    EdgeDescends(g, n, k);
    DeliveriesConcat(g, n, RoutesUpTo(g, n, k), Prepend(k, Routes(g, g.nodes[n].downstreams[k])), r);
    DeliveriesBelow(g, n, k, Routes(g, g.nodes[n].downstreams[k]), r);
  }

  lemma DeliveriesConcat<S, R, E>(g: Graph<S, R, E>, n: Name, a: seq<seq<nat>>, b: seq<seq<nat>>, r: R)
    ensures Deliveries(g, n, a + b, r) == Deliveries(g, n, a, r) + Deliveries(g, n, b, r)
  {
  }

  lemma DeliveriesBelow<S, R, E>(g: Graph<S, R, E>, n: Name, k: nat, paths: seq<seq<nat>>, r: R)
    requires n in g.nodes && k < |g.nodes[n].downstreams|
    ensures Deliveries(g, n, Prepend(k, paths), r) == Deliveries(g, g.nodes[n].downstreams[k], paths, r)
  {
    forall i | 0 <= i < |paths|
      ensures EndOf(g, n, Prepend(k, paths)[i]) == EndOf(g, g.nodes[n].downstreams[k], paths[i])
    {
      assert ([k] + paths[i])[1..] == paths[i];
    }
  }
}
