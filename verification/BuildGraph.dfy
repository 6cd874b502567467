/** From declarations and targets to a build order. */
module BuildGraph {
  import opened Wrappers
  import opened OutputIndex
  import opened Sequences
  import opened DependencyGraph
  import opened BuildOrder

  datatype Graph = Graph(nodes: set<Instance>, edges: Edges, needed: map<Instance, set<Output>>, order: seq<Instance>)

  /** Outputs that stay in the index have all their requirements met, so the walk never meets an
      output without a provider. */
  lemma IndexIsSettled(declared: Index, index: Index, provided: set<Output>)
    requires Withdrawn(declared, index) && SelfContained(declared, provided, BuildableIn(index))
    ensures Settled(index, provided)
  {
    forall o, req | o in BuildableIn(index) && req in index[o].needs ensures Met(index, provided, BuildableIn(index), req) {
      assert Met(declared, provided, BuildableIn(index), req);
    }
  }

  method BuildGraph(ds: seq<Declaration>, provided: set<Output>, targets: seq<Output>) returns (r: Result<Graph, Failure>)
    ensures !OutputIndex.Unique(ds) <==> r.Err? && r.error.Duplicate?
    ensures OutputIndex.Unique(ds) ==> exists index: Index ::
      && Withdrawn(Declared(ds), index) && SelfContained(Declared(ds), provided, BuildableIn(index))
      && HoldsAll(Declared(ds), provided, BuildableIn(index))
      && Outcome(index, RootsOf(targets), r)
  {
    var made := BuildOutputIndex(ds, provided);
    if made.Err? {
      return Err(Duplicate(made.error));
    }
    var index := made.value;
    IndexIsSettled(Declared(ds), index, provided);
    var w := Walk(index, provided, targets);
    if w.Err? {
      r := Err(w.error);
    } else {
      var (nodes, edges, needed) := w.value;
      forall e | e in edges ensures e.0 in nodes {
        var o :| Reachable(index, RootsOf(targets), o) && Edge(index, o, e);
      }
      var order := TopologicalOrder(nodes, edges);
      r := Ok(Graph(nodes, edges, needed, order));
    }
    assert Outcome(index, RootsOf(targets), r);
  }

  /** Errors name a target that cannot be built or a genuine cycle of instances; a graph records
      exactly what the targets need, no output of it depends on itself or requires another output of its own
      instance, and its order is sound and
      lacks exactly the instances that depend on a cycle. */
  ghost predicate Outcome(index: Index, roots: set<Output>, r: Result<Graph, Failure>) {
    match r
    case Err(Duplicate(_)) => false
    case Err(KeyError(name)) => name in roots && name !in BuildableIn(index)
    case Err(Cycle(ids)) => InstanceCycle(index, ids) && PathRepeats(index, roots)
    case Ok(g) =>
      && roots <= BuildableIn(index) && Walked(index, roots, g.nodes, g.edges, g.needed)
      && (forall p :: OutputCycle(index, p) ==> !Reachable(index, roots, p[0]))
      && (forall o, q :: Reachable(index, roots, o) && Requires(index, o, q) ==> index[o].id != index[q].id)
      && Distinct(g.order) && Sorted(g.nodes, g.edges, g.order)
      && forall p :: p in g.order <==> p in g.nodes && !DependsOnCycle(g.nodes, g.edges, p)
  }

  // ---- An instance cycle that the walk does not see ----

  const A := Name("a")
  const B := Name("b")
  const A1 := Name("a1")
  const A2 := Name("a2")
  const B1 := Name("b1")
  const B2 := Name("b2")

  /** Providers a and b need each other, but through different outputs: a1 needs b1, b2 needs a2. */
  ghost function Crossed(): Index {
    map[A1 := Record(A, true, [B1]), B1 := Record(B, true, []), B2 := Record(B, true, [A2]), A2 := Record(A, true, [])]
  }

  lemma CrossedPaths(p: seq<Output>)
    requires Path(Crossed(), p)
    ensures |p| <= 2 && (|p| == 2 ==> (p[0] == A1 && p[1] == B1) || (p[0] == B2 && p[1] == A2))
  {
    if |p| >= 3 { CrossedStep(p[1], p[1 + 1]); }
    if |p| >= 2 { CrossedStep(p[0], p[0 + 1]); }
  }

  lemma CrossedStep(o: Output, r: Output)
    requires Requires(Crossed(), o, r)
    ensures (o == A1 && r == B1) || (o == B2 && r == A2)
  {
  }

  lemma CrossedWalk()
    ensures Settled(Crossed(), {}) && !PathRepeats(Crossed(), {A1, B2})
    ensures InstanceCycle(Crossed(), [A, B, A])
    ensures Reachable(Crossed(), {A1, B2}, A1) && Reachable(Crossed(), {A1, B2}, B2)
    ensures Edge(Crossed(), A1, (A, B)) && Edge(Crossed(), B2, (B, A))
    ensures forall o :: o in Crossed() ==> Crossed()[o].id in {A, B}
    ensures A1 in Crossed() && Crossed()[A1].id == A && B2 in Crossed() && Crossed()[B2].id == B
  {
    forall p, i | Path(Crossed(), p) && 0 <= i < |p| - 1 ensures Crossed()[p[i]].id != Crossed()[p[|p| - 1]].id {
      CrossedPaths(p);
    }
    assert Requires(Crossed(), A1, B1) && Requires(Crossed(), B2, A2);
    assert InstanceRequires(Crossed(), A, B) && InstanceRequires(Crossed(), B, A);
    assert PathTo(Crossed(), {A1, B2}, [A1], A1) && PathTo(Crossed(), {A1, B2}, [B2], B2);
    assert B1 in Crossed()[A1].needs && A2 in Crossed()[B2].needs;
  }

  lemma TwoCycle(es: Edges)
    requires (A, B) in es && (B, A) in es
    ensures DependsOnCycle({A, B}, es, A) && DependsOnCycle({A, B}, es, B)
  {
    assert Lasso({A, B}, es, A, [A, B, A], 0);
    assert Lasso({A, B}, es, B, [B, A, B], 0);
  }

  lemma FirstIn(s: seq<Instance>)
    ensures s == [] || s[0] in s
  {
  }

  /** No path repeats an instance, so the walk raises no error; but both instances are on a cycle,
      and the build order is empty. */
  lemma CrossedIsMissed(r: Result<Graph, Failure>)
    requires Outcome(Crossed(), {A1, B2}, r)
    ensures r.Ok? && r.value.nodes == {A, B} && r.value.order == []
  {
    hide Crossed, Reachable, Edge, DependsOnCycle, Settled, PathRepeats, InstanceCycle, OutputCycle, Sorted, Distinct;
    CrossedWalk();
    var g := r.value;
    forall id | id in g.needed ensures id in {A, B} {
      var o :| o in g.needed[id];
    }
    assert A in g.needed && B in g.needed;
    TwoCycle(g.edges);
    FirstIn(g.order);
  }

  /** The catalogue that this index is of. */
  function CrossedDeclarations(): seq<Declaration> {
    [Declaration(A1, Record(A, true, [B1])), Declaration(B1, Record(B, true, [])),
     Declaration(B2, Record(B, true, [A2])), Declaration(A2, Record(A, true, []))]
  }

  lemma TheyDeclareCrossed()
    ensures OutputIndex.Unique(CrossedDeclarations()) && Declared(CrossedDeclarations()) == Crossed()
  {
    var ds := CrossedDeclarations();
    assert ds[..3][..2] == ds[..2] && ds[..2][..1] == ds[..1] && ds[..1][..0] == [];
    assert Declared(ds[..1]) == map[A1 := ds[0].record];
    assert Declared(ds[..2]) == Declared(ds[..1])[B1 := ds[1].record];
    assert Declared(ds[..3]) == Declared(ds[..2])[B2 := ds[2].record];
  }

  /** No output of it is withdrawn. */
  lemma NoneWithdrawn(index: Index)
    requires Withdrawn(Crossed(), index) && HoldsAll(Crossed(), {}, BuildableIn(index))
    ensures index == Crossed()
  {
    assert SelfContained(Crossed(), {}, {A1, B1, B2, A2});
    assert {A1, B1, B2, A2} <= BuildableIn(index);
    forall o | o in index ensures index[o] == Crossed()[o] { assert o in {A1, B1, B2, A2}; }
  }

  /** From the catalogue and the targets a1 and b2, a graph is built without an error, and its order
      is empty. */
  method BuildCrossed() returns (r: Result<Graph, Failure>)
    ensures r.Ok? && r.value.nodes == {A, B} && r.value.order == []
  {
    hide Crossed, CrossedDeclarations, Outcome, SelfContained, HoldsAll, Withdrawn;
    r := BuildGraph(CrossedDeclarations(), {}, [A1, B2]);
    TheyDeclareCrossed();
    assert RootsOf([A1, B2]) == {A1, B2};
    ghost var index: Index :| Withdrawn(Crossed(), index) && HoldsAll(Crossed(), {}, BuildableIn(index)) && Outcome(index, {A1, B2}, r);
    NoneWithdrawn(index);
    CrossedIsMissed(r);
  }
}
