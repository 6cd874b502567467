/** The depth-first walk that collects what the targets need and stops at dependency cycles. */
module DependencyGraph {
  import opened Wrappers
  import opened OutputIndex
  import opened Sequences

  datatype Failure = Duplicate(output: Output) | KeyError(name: Output) | Cycle(ids: seq<Instance>)

  // ---- Requirements between outputs and between provider instances ----

  ghost predicate Settled(index: Index, provided: set<Output>) {
    forall o, req :: o in BuildableIn(index) && req in index[o].needs ==> Met(index, provided, BuildableIn(index), req)
  }

  /** Output o requires output r, both buildable. */
  ghost predicate Requires(index: Index, o: Output, r: Output) {
    o in BuildableIn(index) && r in BuildableIn(index) && r in index[o].needs
  }

  ghost predicate InstanceRequires(index: Index, a: Instance, b: Instance) {
    exists o, r :: Requires(index, o, r) && index[o].id == a && index[r].id == b
  }

  ghost predicate Path(index: Index, p: seq<Output>) {
    && p != [] && (forall k :: 0 <= k < |p| ==> p[k] in BuildableIn(index))
    && forall k :: 0 <= k < |p| - 1 ==> Requires(index, p[k], p[k + 1])
  }

  ghost predicate PathTo(index: Index, roots: set<Output>, p: seq<Output>, o: Output) {
    Path(index, p) && p[0] in roots && p[|p| - 1] == o
  }

  ghost predicate Reachable(index: Index, roots: set<Output>, o: Output) {
    exists p :: PathTo(index, roots, p, o)
  }

  /** A closed walk over provider instances, each requiring the next. */
  ghost predicate InstanceCycle(index: Index, ids: seq<Instance>) {
    && |ids| >= 2 && ids[0] == ids[|ids| - 1]
    && forall k :: 0 <= k < |ids| - 1 ==> InstanceRequires(index, ids[k], ids[k + 1])
  }

  /** Some path from the roots comes back to a provider instance it has been at. */
  ghost predicate PathRepeats(index: Index, roots: set<Output>) {
    exists p, i :: Path(index, p) && p[0] in roots && 0 <= i < |p| - 1 && index[p[i]].id == index[p[|p| - 1]].id
  }

  ghost function RootsOf(targets: seq<Output>): set<Output> {
    set t | t in targets
  }

  ghost predicate OutputCycle(index: Index, p: seq<Output>) {
    Path(index, p) && |p| >= 2 && p[0] == p[|p| - 1]
  }

  /** The edges an output contributes: to the instance of each requirement, or its plain name. */
  ghost predicate Edge(index: Index, o: Output, e: (Instance, Name)) {
    && o in BuildableIn(index) && e.0 == index[o].id
    && exists req :: req in index[o].needs && e.1 == Target(index, req)
  }

  function Target(index: Index, req: Output): Name {
    if req in index && index[req].buildable then index[req].id else req
  }

  ghost function Instances(index: Index, outputs: set<Output>): set<Instance> {
    set o | o in outputs && o in index :: index[o].id
  }

  ghost function OfInstance(index: Index, outputs: set<Output>, id: Instance): set<Output> {
    set o | o in outputs && o in index && index[o].id == id
  }

  // ---- Finished outputs ----

  /** Every requirement of a finished output finished before it. */
  ghost predicate Ranked(index: Index, done: seq<Output>) {
    forall i, r :: 0 <= i < |done| && Requires(index, done[i], r) ==> r in done[..i]
  }

  /** No finished output requires an output of its own instance. */
  ghost predicate Outward(index: Index, done: seq<Output>) {
    forall o, r :: o in done && Requires(index, o, r) ==> index[o].id != index[r].id
  }

  lemma {:induction false} PathDescends(index: Index, done: seq<Output>, p: seq<Output>, i: nat)
    requires Ranked(index, done) && Path(index, p) && i < |done| && done[i] == p[0]
    ensures exists j :: 0 <= j <= i - (|p| - 1) && done[j] == p[|p| - 1]
    decreases |p|
  {
    if |p| > 1 {
      assert Requires(index, p[0], p[1]);
      var k :| 0 <= k < i && done[..i][k] == p[1];
      var q := p[1..];
      assert Path(index, q) by {
        forall m | 0 <= m < |q| - 1 ensures Requires(index, q[m], q[m + 1]) { assert Requires(index, p[m + 1], p[m + 2]); }
      }
      PathDescends(index, done, q, k);
    }
  }

  /** Outputs that could be finished one by one lie on no cycle. */
  lemma RankedIsAcyclic(index: Index, done: seq<Output>, p: seq<Output>)
    requires Ranked(index, done) && Distinct(done) && Path(index, p) && |p| >= 2 && p[0] in done
    ensures p[0] != p[|p| - 1]
  {
    var i :| 0 <= i < |done| && done[i] == p[0];
    PathDescends(index, done, p, i);
  }

  /** Everything on a path from finished outputs is finished. */
  lemma RankedIsClosed(index: Index, done: seq<Output>, p: seq<Output>)
    requires Ranked(index, done) && Path(index, p) && p[0] in done
    ensures p[|p| - 1] in done
  {
    var i :| 0 <= i < |done| && done[i] == p[0];
    PathDescends(index, done, p, i);
  }

  lemma Extend(index: Index, roots: set<Output>, p: seq<Output>, o: Output, r: Output)
    requires PathTo(index, roots, p, o) && Requires(index, o, r)
    ensures PathTo(index, roots, p + [r], r)
  {
    var q := p + [r];
    forall k | 0 <= k < |q| - 1 ensures Requires(index, q[k], q[k + 1]) {
      if k < |p| - 1 { assert Requires(index, p[k], p[k + 1]); }
    }
  }

  // ---- The walk ----

  ghost predicate Within<X>(s: seq<X>, s': seq<X>) {
    forall x :: x in s ==> x in s'
  }

  class Walker {
    const index: Index
    const provided: set<Output>
    ghost const roots: set<Output>
    var nodes: set<Instance>
    var edges: seq<(Instance, Name)>
    var visited: set<Output>
    var needed: map<Instance, set<Output>>
    /** Outputs whose requirements have all been walked, in that order. */
    ghost var done: seq<Output>

    constructor (index: Index, provided: set<Output>, ghost roots: set<Output>)
      ensures this.index == index && this.provided == provided && this.roots == roots
      ensures done == [] && Holds([])
    {
      this.index, this.provided, this.roots := index, provided, roots;
      nodes, edges, visited, needed, done := {}, [], {}, map[], [];
    }

    /** The visited outputs are the finished ones and, on the stack, those being walked. */
    ghost predicate Marked(stack: seq<Output>)
      reads this`visited, this`done
    {
      && visited <= BuildableIn(index)
      && (forall o :: o in visited <==> o in done || o in stack)
      && (forall o :: o in stack ==> o !in done)
      && Distinct(done) && Ranked(index, done) && Outward(index, done)
      && forall o :: o in visited ==> Reachable(index, roots, o)
    }

    /** The instances of the visited outputs, and which of their outputs are needed; one more
        output may have been noted as needed. */
    ghost predicate Noted(more: set<Output>)
      reads this`visited, this`nodes, this`needed
    {
      && nodes == Instances(index, visited)
      && needed.Keys == Instances(index, visited + more)
      && forall id :: id in needed ==> needed[id] == OfInstance(index, visited + more, id)
    }

    ghost predicate Explained(e: (Instance, Name))
      reads this`visited
    {
      exists o :: o in visited && Edge(index, o, e)
    }

    /** The edges of the finished outputs have all been recorded, and only edges of visited ones. */
    ghost predicate Linked()
      reads this`visited, this`done, this`edges
    {
      && (forall e :: e in edges ==> Explained(e))
      && forall o, e :: o in done && Edge(index, o, e) ==> e in edges
    }

    ghost predicate Holds(stack: seq<Output>)
      reads this
    {
      Marked(stack) && Noted({}) && Linked()
    }

    ghost predicate OnStack(chain: seq<Instance>, stack: seq<Output>, o: Output)
    {
      && |chain| == |stack|
      && (forall k :: 0 <= k < |stack| ==> stack[k] in BuildableIn(index) && chain[k] == index[stack[k]].id)
      && (o in BuildableIn(index) ==> PathTo(index, roots, stack + [o], o))
    }

    lemma CycleFound(chain: seq<Instance>, stack: seq<Output>, o: Output, k: nat)
      requires OnStack(chain, stack, o) && o in BuildableIn(index) && k < |chain| && chain[k] == index[o].id
      ensures InstanceCycle(index, chain[k..] + [index[o].id])
      ensures PathRepeats(index, roots)
    {
      var p := stack + [o];
      var ids := chain[k..] + [index[o].id];
      forall m | 0 <= m < |ids| - 1 ensures InstanceRequires(index, ids[m], ids[m + 1]) {
        assert Requires(index, p[k + m], p[k + m + 1]);
      }
      assert Path(index, p) && p[0] in roots && index[p[k]].id == index[p[|p| - 1]].id;
    }

    method IndexOf(chain: seq<Instance>, id: Instance) returns (k: nat)
      requires id in chain
      ensures k < |chain| && chain[k] == id
    {
      k := 0;
      while chain[k] != id
        invariant k < |chain| && id in chain[k..]
        decreases |chain| - k
      {
        k := k + 1;
      }
    }

    /** Note that the output is needed from its instance. */
    method Need(output: Output)
      requires output in index && Noted({})
      modifies this`needed
      ensures Noted({output})
      ensures output in visited ==> Noted({})
    {
      var id := index[output].id;
      if id !in needed {
        needed := needed[id := {}];
      }
      needed := needed[id := needed[id] + {output}];
      assert output in visited ==> visited + {output} == visited + {};
    }

    /** Start walking an output. */
    method Enter(output: Output, ghost stack: seq<Output>)
      requires output in BuildableIn(index) && output !in visited
      requires Marked(stack) && Noted({output}) && Linked() && PathTo(index, roots, stack + [output], output)
      modifies this`visited, this`nodes
      ensures visited == old(visited) + {output}
      ensures Holds(stack + [output])
    {
      var id := index[output].id;
      visited := visited + {output};
      if id !in nodes {
        nodes := nodes + {id};
      }
      assert Reachable(index, roots, output);
      assert visited + {} == old(visited) + {output};
    }

    /** All requirements of the output have been walked. */
    method Finish(output: Output, ghost stack: seq<Output>)
      requires output in BuildableIn(index) && Holds(stack + [output]) && output !in stack
      requires forall req :: req in index[output].needs ==> (index[output].id, Target(index, req)) in edges
      requires forall req :: req in index[output].needs && req in BuildableIn(index) ==> req in done && index[req].id != index[output].id
      modifies this`done
      ensures done == old(done) + [output] && Holds(stack)
    {
      assert output in stack + [output];
      assert output !in done;
      done := done + [output];
      forall i, r | 0 <= i < |done| && Requires(index, done[i], r) ensures r in done[..i] {
        if i < |done| - 1 { assert done[..i] == old(done)[..i]; } else { assert done[..i] == old(done); }
      }
    }

    method AddEdge(output: Output, req: Output)
      requires output in BuildableIn(index) && req in index[output].needs && output in visited && Linked()
      modifies this`edges
      ensures edges == old(edges) + [(index[output].id, Target(index, req))] && Linked()
    {
      var e := (index[output].id, Target(index, req));
      assert Edge(index, output, e);
      edges := edges + [e];
      assert Explained(e);
    }

    method Visit(output: Output, chain: seq<Instance>, ghost stack: seq<Output>) returns (r: Result<(), Failure>)
      requires Settled(index, provided) && Holds(stack) && OnStack(chain, stack, output)
      requires output in BuildableIn(index) || (output !in index && output in provided)
      modifies this
      ensures r.Ok? ==> Holds(stack) && old(visited) <= visited
      ensures r.Ok? ==> Within(old(done), done) && Within(old(edges), edges)
      ensures r.Ok? && output in BuildableIn(index) ==> output in done && index[output].id !in chain
      ensures r.Err? ==> r.error.Cycle? && InstanceCycle(index, r.error.ids) && PathRepeats(index, roots)
      decreases BuildableIn(index) - visited, 2
    {
      if !(output in index && index[output].buildable) {
        if output in index {
          return Err(KeyError(output));
        }
        if output in provided {
          return Ok(());
        }
        return Err(KeyError(output));
      }
      var id := index[output].id;
      Need(output);
      if id in chain {
        var k := IndexOf(chain, id);
        CycleFound(chain, stack, output, k);
        return Err(Cycle(chain[k..] + [id]));
      }
      if output in visited {
        OffStack(chain, stack, output);
        return Ok(());
      }
      hide Marked, Noted, Linked;
      Enter(output, stack);
      r := WalkNeeds(output, chain, stack);
      if r.Err? { return; }
      OffStack(chain, stack, output);
      Finish(output, stack);
    }

    /** Walk the requirements of an output just entered. */
    method WalkNeeds(output: Output, chain: seq<Instance>, ghost stack: seq<Output>) returns (r: Result<(), Failure>)
      requires Settled(index, provided) && Holds(stack + [output]) && OnStack(chain, stack, output)
      requires output in BuildableIn(index) && output in visited
      modifies this
      ensures r.Ok? ==> Holds(stack + [output]) && old(visited) <= visited
      ensures r.Ok? ==> Within(old(done), done) && Within(old(edges), edges)
      ensures r.Ok? ==> forall req :: req in index[output].needs ==> (index[output].id, Target(index, req)) in edges
      ensures r.Ok? ==> forall req :: req in index[output].needs && req in BuildableIn(index) ==> req in done && index[req].id != index[output].id
      ensures r.Err? ==> r.error.Cycle? && InstanceCycle(index, r.error.ids) && PathRepeats(index, roots)
      decreases BuildableIn(index) - visited, 3
    {
      hide Marked, Noted, Linked, Path, Requires, PathRepeats, InstanceCycle;
      var id, needs := index[output].id, index[output].needs;
      for i := 0 to |needs|
        invariant Holds(stack + [output]) && old(visited) <= visited
        invariant Within(old(done), done) && Within(old(edges), edges)
        invariant forall k :: 0 <= k < i ==> (id, Target(index, needs[k])) in edges
        invariant forall k :: 0 <= k < i && needs[k] in BuildableIn(index) ==> needs[k] in done && index[needs[k]].id != id
      {
        var req := needs[i];
        AddEdge(output, req);
        Descend(chain, stack, output, req);
        r := Visit(req, chain + [id], stack + [output]);
        if r.Err? { return; }
      }
      return Ok(());
    }

    /** With nothing left on the stack, the visited outputs are the reachable ones. */
    lemma AllVisited()
      requires Marked([]) && forall o :: o in roots ==> o in done
      ensures forall o :: o in visited <==> o in done
      ensures forall o :: Reachable(index, roots, o) <==> o in visited
      ensures Outward(index, done)
    {
      forall o | Reachable(index, roots, o) ensures o in done {
        var p :| PathTo(index, roots, p, o);
        RankedIsClosed(index, done, p);
      }
    }

    lemma AllWalked()
      requires Holds([]) && forall o :: o in roots ==> o in done
      ensures Walked(index, roots, nodes, edges, needed)
      ensures forall p :: OutputCycle(index, p) ==> !Reachable(index, roots, p[0])
      ensures forall o, r :: Reachable(index, roots, o) && Requires(index, o, r) ==> index[o].id != index[r].id
    {
      hide Reachable, Path, Requires, Edge;
      AllVisited();
      assert visited + {} == visited;
      forall e | e in edges ensures exists o :: Reachable(index, roots, o) && Edge(index, o, e) {
        assert Explained(e);
      }
      forall p | OutputCycle(index, p) ensures !Reachable(index, roots, p[0]) {
        if p[0] in done { RankedIsAcyclic(index, done, p); }
      }
    }

    lemma OffStack(chain: seq<Instance>, stack: seq<Output>, o: Output)
      requires OnStack(chain, stack, o) && o in BuildableIn(index) && index[o].id !in chain
      ensures o !in stack
    {
      assert forall k :: 0 <= k < |stack| ==> chain[k] in chain;
    }

    /** The stack for walking one requirement. */
    lemma Descend(chain: seq<Instance>, stack: seq<Output>, output: Output, req: Output)
      requires Settled(index, provided) && OnStack(chain, stack, output)
      requires output in BuildableIn(index) && req in index[output].needs
      ensures OnStack(chain + [index[output].id], stack + [output], req)
      ensures req in BuildableIn(index) || (req !in index && req in provided)
    {
      assert Met(index, provided, BuildableIn(index), req);
      if req in BuildableIn(index) {
        assert Requires(index, output, req);
        Extend(index, roots, stack + [output], output, req);
      }
    }
  }

  /** What build_graph knows of the outputs once the walk has ended normally. */
  ghost predicate Walked(index: Index, roots: set<Output>, nodes: set<Instance>, edges: seq<(Instance, Name)>,
                         needed: map<Instance, set<Output>>)
  {
    && nodes == needed.Keys
    && (forall o :: Reachable(index, roots, o) <==> o in BuildableIn(index) && index[o].id in needed && o in needed[index[o].id])
    && (forall id :: id in needed ==> needed[id] != {} && forall o :: o in needed[id] ==> o in BuildableIn(index) && index[o].id == id)
    && (forall e :: e in edges <==> exists o :: Reachable(index, roots, o) && Edge(index, o, e))
  }

  /** Walk from every target.  A normal end means that nothing the targets need depends on itself;
      otherwise the error names provider instances that depend on each other in a circle. */
  method Walk(index: Index, provided: set<Output>, targets: seq<Output>)
    returns (r: Result<(set<Instance>, seq<(Instance, Name)>, map<Instance, set<Output>>), Failure>)
    requires Settled(index, provided)
    ensures var roots := RootsOf(targets);
      && (r.Ok? ==> roots <= BuildableIn(index) && Walked(index, roots, r.value.0, r.value.1, r.value.2))
      && (r.Ok? ==> forall p :: OutputCycle(index, p) ==> !Reachable(index, roots, p[0]))
      && (r.Ok? ==> forall o, q :: Reachable(index, roots, o) && Requires(index, o, q) ==> index[o].id != index[q].id)
      && (r.Err? ==> !r.error.Duplicate?)
      && (r.Err? && r.error.KeyError? ==> r.error.name in targets && r.error.name !in BuildableIn(index))
      && (r.Err? && r.error.Cycle? ==> InstanceCycle(index, r.error.ids) && PathRepeats(index, roots))
  {
    hide Settled, Walked, OutputCycle, InstanceCycle, PathRepeats, Reachable, Requires;
    for i := 0 to |targets|
      invariant forall k :: 0 <= k < i ==> targets[k] in BuildableIn(index)
    {
      if !(targets[i] in index && index[targets[i]].buildable) {
        return Err(KeyError(targets[i]));
      }
    }
    ghost var roots := RootsOf(targets);
    var w := new Walker(index, provided, roots);
    for i := 0 to |targets|
      invariant w.Holds([])
      invariant forall k :: 0 <= k < i ==> targets[k] in w.done
    {
      assert PathTo(index, roots, [targets[i]], targets[i]);
      var v := w.Visit(targets[i], [], []);
      if v.Err? {
        return Err(v.error);
      }
    }
    w.AllWalked();
    return Ok((w.nodes, w.edges, w.needed));
  }
}
