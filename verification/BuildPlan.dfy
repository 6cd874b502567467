/** The order of the graph is one the build loop can follow. */
module BuildPlan {
  import opened Wrappers
  import opened OutputIndex
  import opened Sequences
  import opened DependencyGraph
  import BuildOrder
  import G = BuildGraph
  import opened BuildCache

  /** The output that stands for a container image. */
  function Docker(tag: Name): Output {
    Name("docker:" + tag.text)
  }

  predicate IsDocker(o: Output) {
    "docker:" <= o.text
  }

  function RefOf(req: Output): Ref {
    if IsDocker(req) then Image(Name(req.text[7..])) else Artefact(req)
  }

  lemma RefOfDocker(tag: Name, req: Output)
    ensures IsDocker(Docker(tag))
    ensures RefOf(req) == Image(tag) <==> req == Docker(tag)
  {
    assert Docker(tag).text[7..] == tag.text;
    if IsDocker(req) { assert req.text == "docker:" + req.text[7..]; }
  }

  /** The provider that the loop sees for an instance: its files and image tags, those of its files
      that are needed, and what it and its single outputs require. An output may drop some of what its
      provider requires, but no requirement of the provider is dropped by all that are needed. */
  ghost predicate Describes(index: Index, needed: set<Output>, id: Instance, p: Provider) {
    && (forall o :: o in p.outputs <==> o in index && index[o].id == id && !IsDocker(o))
    && (forall t :: t in p.tags <==> Docker(t) in index && index[Docker(t)].id == id)
    && Distinct(p.needed) && (forall o :: o in p.needed <==> o in needed && !IsDocker(o))
    && (forall r :: r in p.refs ==> RequiredByOne(index, needed, r))
    && (forall m :: m in p.mounts ==> Artefact(m) in p.refs)
    && (forall o, q :: o in p.needed && o in index && q in Extra(p, o) ==> q in index[o].needs)
  }

  ghost predicate RequiredAs(index: Index, o: Output, r: Ref) {
    o in index && exists q :: q in index[o].needs && RefOf(q) == r
  }

  ghost predicate RequiredByOne(index: Index, needed: set<Output>, r: Ref) {
    exists o :: o in needed && RequiredAs(index, o, r)
  }

  /** The tags of images that have none in the catalogue are no other provider's. */
  ghost predicate LocalTagsApart(plan: seq<Provider>) {
    forall i, j :: 0 <= i < |plan| && 0 <= j < |plan| && i != j ==> plan[i].localTag != plan[j].localTag && plan[i].localTag !in plan[j].tags
  }

  ghost predicate Follows(index: Index, g: G.Graph, plan: seq<Provider>) {
    && |plan| == |g.order| && Distinct(g.order)
    && forall i :: 0 <= i < |plan| ==> g.order[i] in g.needed && Describes(index, g.needed[g.order[i]], g.order[i], plan[i])
  }

  lemma ProvidersApart(index: Index, g: G.Graph, plan: seq<Provider>, i: nat, j: nat)
    requires Follows(index, g, plan) && LocalTagsApart(plan) && i < j < |plan|
    ensures Apart(plan[i], plan[j])
  {
    assert g.order[i] != g.order[j];
    var p, q := plan[i], plan[j];
    forall t | t in p.tags ensures t !in q.tags {
      assert index[Docker(t)].id == g.order[i];
    }
    assert p.tags != [] ==> Tag(p) in p.tags;
    assert q.tags != [] ==> Tag(q) in q.tags;
    assert p.localTag !in q.tags && q.localTag !in p.tags;
  }

  /** A buildable requirement comes from an instance placed before. */
  lemma RequirementIsBefore(index: Index, roots: set<Output>, g: G.Graph, i: nat, o: Output, req: Output) returns (k: nat)
    requires G.Outcome(index, roots, Ok(g)) && i < |g.order| && g.order[i] in g.needed && o in g.needed[g.order[i]]
    requires Requires(index, o, req)
    ensures k < i && g.order[k] == index[req].id && index[req].id in g.needed && req in g.needed[index[req].id]
  {
    hide Path, BuildOrder.DependsOnCycle, BuildOrder.Chain, OutputCycle;
    var p, d := g.order[i], index[req].id;
    assert index[o].id == p && Reachable(index, roots, o);
    ReachesOn(index, roots, o, req);
    assert Edge(index, o, (p, d)) by { EdgeOf(index, o, req); }
    assert BuildOrder.Ready(g.nodes, g.edges, p, g.order[..i]);
    assert BuildOrder.DependsOn(g.nodes, g.edges, p, d);
    k :| 0 <= k < i && g.order[..i][k] == d;
  }

  lemma EdgeOf(index: Index, o: Output, req: Output)
    requires Requires(index, o, req)
    ensures Edge(index, o, (index[o].id, index[req].id))
  {
    assert Target(index, req) == index[req].id;
  }

  lemma ReachesOn(index: Index, roots: set<Output>, o: Output, req: Output)
    requires Reachable(index, roots, o) && Requires(index, o, req)
    ensures Reachable(index, roots, req)
  {
    var p :| PathTo(index, roots, p, o);
    Extend(index, roots, p, o, req);
  }

  /** What a needed output requires as a file is needed from an earlier provider, or no provider's. */
  lemma RequirementAvailable(index: Index, provided: set<Output>, roots: set<Output>, g: G.Graph, plan: seq<Provider>,
                             i: nat, o: Output, req: Output)
    requires G.Outcome(index, roots, Ok(g)) && Settled(index, provided) && Follows(index, g, plan)
    requires i < |plan| && o in g.needed[g.order[i]] && o in BuildableIn(index) && req in index[o].needs
    ensures Available(plan, i, req)
  {
    hide G.Outcome, Reachable;
    assert Met(index, provided, BuildableIn(index), req);
    if req in index && !IsDocker(req) {
      assert Requires(index, o, req);
      var k := RequirementIsBefore(index, roots, g, i, o, req);
      assert req in plan[k].needed;
      assert Provided(plan, i, req);
    } else {
      assert External(plan, req);
    }
  }

  /** An image to run in that is required is tagged by an earlier provider, and is seen if it is
      the first image that provider tags. */
  lemma ImageIsBefore(index: Index, provided: set<Output>, roots: set<Output>, g: G.Graph, plan: seq<Provider>, i: nat, t: Name)
    returns (k: nat)
    requires G.Outcome(index, roots, Ok(g)) && Settled(index, provided) && Follows(index, g, plan)
    requires i < |plan| && Image(t) in plan[i].refs && Docker(t) !in provided
    ensures k < i && t in plan[k].tags
    ensures plan[k].tags[0] == t ==> Sees(plan, i, t)
  {
    hide G.Outcome, Reachable;
    assert RequiredByOne(index, g.needed[g.order[i]], Image(t));
    var o :| o in g.needed[g.order[i]] && RequiredAs(index, o, Image(t));
    NeededIsBuildable(index, roots, g, i, o);
    var req :| req in index[o].needs && RefOf(req) == Image(t);
    RefOfDocker(t, req);
    assert Met(index, provided, BuildableIn(index), req);
    assert Requires(index, o, req);
    k := RequirementIsBefore(index, roots, g, i, o, req);
    assert t in plan[k].tags;
    assert plan[k].tags[0] == t ==> SeesBy(plan, i, t, Image(t), k);
  }

  lemma NeededIsBuildable(index: Index, roots: set<Output>, g: G.Graph, i: nat, o: Output)
    requires G.Outcome(index, roots, Ok(g)) && i < |g.order| && g.order[i] in g.needed && o in g.needed[g.order[i]]
    ensures o in BuildableIn(index)
  {
    hide Reachable, BuildOrder.DependsOnCycle, BuildOrder.Sorted, OutputCycle, Requires, Edge;
  }

  /** Whatever the graph orders, the build loop can follow: its providers keep apart, and each comes
      after the providers of everything it requires. */
  lemma OrderIsPlan(index: Index, provided: set<Output>, roots: set<Output>, g: G.Graph, plan: seq<Provider>)
    requires G.Outcome(index, roots, Ok(g)) && Settled(index, provided) && Follows(index, g, plan) && LocalTagsApart(plan)
    ensures Ordered(plan)
  {
    hide Settled, Apart, Available, LocalTagsApart, IsDocker, RefOf, Extra, Reachable;
    forall i, j | 0 <= i < j < |plan| ensures Apart(plan[i], plan[j]) {
      ProvidersApart(index, g, plan, i, j);
    }
    forall i | 0 <= i < |plan| ensures WellFormed(plan, i) {
      var p, id := plan[i], g.order[i];
      forall r | Artefact(r) in p.refs ensures Available(plan, i, r) {
        assert RequiredByOne(index, g.needed[id], Artefact(r));
        var o :| o in g.needed[id] && RequiredAs(index, o, Artefact(r));
        NeededIsBuildable(index, roots, g, i, o);
        var q :| q in index[o].needs && RefOf(q) == Artefact(r);
        RefOfArtefact(q, r);
        RequirementAvailable(index, provided, roots, g, plan, i, o, q);
      }
      forall q, r | q in p.needed && r in Extra(p, q) ensures Available(plan, i, r) {
        RequirementAvailable(index, provided, roots, g, plan, i, q, r);
      }
      assert forall q :: q in p.needed ==> q in p.outputs;
    }
  }

  lemma RefOfArtefact(q: Output, r: Output)
    requires RefOf(q) == Artefact(r)
    ensures q == r
  {
  }

  /** The loop gets to a needed output just when its instance depends on no cycle. */
  lemma ReachedIff(index: Index, roots: set<Output>, g: G.Graph, plan: seq<Provider>, o: Output)
    requires G.Outcome(index, roots, Ok(g)) && Follows(index, g, plan)
    requires Reachable(index, roots, o) && o in index && !IsDocker(o)
    ensures Provided(plan, |plan|, o) <==> !BuildOrder.DependsOnCycle(g.nodes, g.edges, index[o].id)
  {
    hide Reachable, BuildOrder.DependsOnCycle, BuildOrder.Sorted, OutputCycle, Requires, Edge, IsDocker;
    var id := index[o].id;
    assert id in g.needed && o in g.needed[id];
    if id in g.order {
      var i :| 0 <= i < |g.order| && g.order[i] == id;
      assert o in plan[i].needed;
    }
  }
}
