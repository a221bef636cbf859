/** The executor as an object: internal/topology/executor.go, with the recursive `processWithCtxAndHook`. It owns
    the per-sink buffers and the task's state, which all processors share. */
module Executor {
  import opened Wrappers
  import opened Topology
  import opened Traversal

  datatype Failure<E> = UnknownSource | ProcessorError(error: E)

  class Executor<!S, R, E> {
    const g: Graph<S, R, E>
    var state: S
    var buffers: map<Name, seq<R>>

    ghost predicate Valid()
      reads this
    {
      && Sound(g)
      && (forall n :: n in g.nodes && !g.nodes[n].kind.Sink? ==> g.nodes[n].fn.Fn?)
      && (forall n :: n in buffers <==> n in g.nodes && g.nodes[n].kind.Sink?)
    }

    constructor (g: Graph<S, R, E>, state: S)
      requires Sound(g) && forall n :: n in g.nodes && !g.nodes[n].kind.Sink? ==> g.nodes[n].fn.Fn?
      ensures Valid() && this.g == g && this.state == state && forall s :: s in buffers ==> buffers[s] == []
    {
      this.g, this.state := g, state;
      buffers := map n | n in g.nodes && g.nodes[n].kind.Sink? :: [];
    }

    /** The buffers are those of `before` with the emitted records appended. */
    ghost predicate Received(before: map<Name, seq<R>>, emitted: seq<(Name, R)>)
      reads this
    {
      buffers.Keys == before.Keys && forall s :: s in before ==> buffers[s] == before[s] + At(emitted, s)
    }

    /** What a traversal left is what the executor now holds. */
    ghost predicate Took(before: map<Name, seq<R>>, out: Out<S, R, E>)
      reads this
    {
      state == out.state && Received(before, out.emitted)
    }

    lemma ReceivedMore(before: map<Name, seq<R>>, middle: map<Name, seq<R>>, a: seq<(Name, R)>, b: seq<(Name, R)>)
      requires middle.Keys == before.Keys && (forall s :: s in before ==> middle[s] == before[s] + At(a, s))
               && Received(middle, b)
      ensures Received(before, a + b)
    {
      forall s | s in before
        ensures buffers[s] == before[s] + At(a + b, s)
      {
        assert s in middle;
        AtConcat(a, b, s);
      }
    }

    method VisitNode(n: Name, r: R) returns (error: Option<E>)
      requires Valid() && n in g.nodes
      modifies this`buffers, this`state
      ensures Valid() && error == Visit(g, true, n, old(state), r).error
              && Took(old(buffers), Visit(g, true, n, old(state), r))
      decreases Left(g, n), 2, 0
    {
      var node := g.nodes[n];
      if node.kind.Sink? {
        assert [(n, r)][..0] == [];
        buffers := buffers[n := buffers[n] + [r]];
        return None;
      }
      var x := node.fn.f(state, r);
      state := x.state;
      error := ForwardEach(n, x.outs);
      if error.None? { error := x.error; }
    }

    /** The closure handed to the processor, called once per output. */
    method ForwardEach(n: Name, outs: seq<R>) returns (error: Option<E>)
      requires Valid() && n in g.nodes
      modifies this`buffers, this`state
      ensures Valid()
      ensures error == ForwardAll(g, true, n, old(state), outs).error
              && Took(old(buffers), ForwardAll(g, true, n, old(state), outs))
      decreases Left(g, n), 1, |outs|
    {
      error := None;
      ghost var s0 := state;
      for i := 0 to |outs|
        invariant Valid() && error == ForwardAll(g, true, n, s0, outs[..i]).error
        invariant Took(old(buffers), ForwardAll(g, true, n, s0, outs[..i]))
      {
        assert outs[..i + 1][..i] == outs[..i];
        if error.None? {
          ghost var middle, s := buffers, state;
          error := ForwardRecord(n, outs[i]);
          ReceivedMore(old(buffers), middle, ForwardAll(g, true, n, s0, outs[..i]).emitted,
                       Forward(g, true, n, |g.nodes[n].downstreams|, s, outs[i]).emitted);
        }
      }
      assert outs[..|outs|] == outs;
    }

    /** One downstream. */
    method ForwardTo(n: Name, k: nat, r: R, ghost before: map<Name, seq<R>>, ghost s: S) returns (error: Option<E>)
      requires Valid() && n in g.nodes && k < |g.nodes[n].downstreams|
      requires Forward(g, true, n, k, s, r).error.None? && Took(before, Forward(g, true, n, k, s, r))
      modifies this`buffers, this`state
      ensures Valid() && error == Forward(g, true, n, k + 1, s, r).error
              && Took(before, Forward(g, true, n, k + 1, s, r))
      decreases Left(g, n), 0, 0
    {
      EdgeDescends(g, n, k);
      ForwardNext(g, true, n, k, s, r);
      ghost var middle, s' := buffers, state;
      error := VisitNode(g.nodes[n].downstreams[k], r);
      ReceivedMore(before, middle, Forward(g, true, n, k, s, r).emitted,
                   Visit(g, true, g.nodes[n].downstreams[k], s', r).emitted);
    }

    method ForwardRecord(n: Name, r: R) returns (error: Option<E>)
      requires Valid() && n in g.nodes
      modifies this`buffers, this`state
      ensures var out := Forward(g, true, n, |g.nodes[n].downstreams|, old(state), r);
        Valid() && error == out.error && Took(old(buffers), out)
      decreases Left(g, n), 0, 1
    {
      error := None;
      ghost var s := state;
      var m := |g.nodes[n].downstreams|;
      for k := 0 to m
        invariant Valid() && error.None? && Forward(g, true, n, k, s, r).error.None?
        invariant Took(old(buffers), Forward(g, true, n, k, s, r))
      {
        error := ForwardTo(n, k, r, old(buffers), s);
        if error.Some? {
          StopsAt(g, n, k + 1, m, s, r);
          return;
        }
      }
    }

    /** `Process`. */
    method Process(source: Name, r: R) returns (failure: Option<Failure<E>>)
      requires Valid()
      modifies this`buffers, this`state
      ensures Valid()
      ensures if source in g.nodes && g.nodes[source].kind.Source? then
                var out := Visit(g, true, source, old(state), r);
                failure == (if out.error.Some? then Some(ProcessorError(out.error.value)) else None)
                  && Took(old(buffers), out)
              else failure == Some(UnknownSource) && buffers == old(buffers) && state == old(state)
    {
      if source !in g.nodes || !g.nodes[source].kind.Source? { return Some(UnknownSource); }
      var error := VisitNode(source, r);
      return if error.Some? then Some(ProcessorError(error.value)) else None;
    }

    /** `DrainSink`: hands over what has been buffered since the last drain; unknown sinks are refused. */
    method DrainSink(s: Name) returns (records: Option<seq<R>>)
      requires Valid()
      modifies this`buffers
      ensures Valid() && records.Some? == (s in old(buffers))
      ensures records.Some? ==> records.value == old(buffers)[s] && buffers == old(buffers)[s := []]
      ensures records.None? ==> buffers == old(buffers)
    {
      if s !in buffers { return None; }
      records := Some(buffers[s]);
      buffers := buffers[s := []];
    }
  }

  lemma {:induction false} StopsAt<S, R, E>(g: Graph<S, R, E>, n: Name, k: nat, m: nat, s: S, r: R)
    requires Sound(g) && n in g.nodes && k <= m <= |g.nodes[n].downstreams| && Forward(g, true, n, k, s, r).error.Some?
    ensures Forward(g, true, n, m, s, r) == Forward(g, true, n, k, s, r)
  {
    if k < m { StopsAt(g, n, k, m - 1, s, r); }
  }
}
