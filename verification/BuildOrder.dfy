/** Kahn's algorithm over the provider instances, and what happens to it on cycles. */
module BuildOrder {
  import opened OutputIndex
  import opened Sequences

  type Edges = seq<(Instance, Name)>

  ghost predicate DependsOn(nodes: set<Instance>, es: Edges, p: Instance, d: Instance) {
    d in nodes && d != p && (p, d) in es
  }

  /** The distinct other nodes that p depends on. */
  ghost function Deps(nodes: set<Instance>, es: Edges, p: Instance): set<Instance> {
    set d | d in nodes && DependsOn(nodes, es, p, d)
  }

  ghost function Range(s: seq<Instance>): set<Instance> {
    set x | x in s
  }

  ghost predicate Ready(nodes: set<Instance>, es: Edges, p: Instance, before: seq<Instance>) {
    forall d :: DependsOn(nodes, es, p, d) ==> d in before
  }

  /** Each entry comes after everything it depends on. */
  ghost predicate Sorted(nodes: set<Instance>, es: Edges, order: seq<Instance>) {
    forall i :: 0 <= i < |order| ==> Ready(nodes, es, order[i], order[..i])
  }

  /** A walk along dependencies. */
  ghost predicate Chain(nodes: set<Instance>, es: Edges, q: seq<Instance>) {
    && q != [] && (forall k :: 0 <= k < |q| ==> q[k] in nodes)
    && forall k :: 0 <= k < |q| - 1 ==> DependsOn(nodes, es, q[k], q[k + 1])
  }

  /** A walk from p that comes back to where it has been: p depends on a cycle. */
  ghost predicate Lasso(nodes: set<Instance>, es: Edges, p: Instance, q: seq<Instance>, i: nat) {
    Chain(nodes, es, q) && q[0] == p && i < |q| - 1 && q[i] == q[|q| - 1]
  }

  ghost predicate DependsOnCycle(nodes: set<Instance>, es: Edges, p: Instance) {
    exists q, i :: Lasso(nodes, es, p, q, i)
  }

  // ---- Ordered nodes reach no cycle ----

  lemma {:induction false} ChainDescends(nodes: set<Instance>, es: Edges, order: seq<Instance>, q: seq<Instance>, i: nat, k: nat)
    requires Sorted(nodes, es, order) && Chain(nodes, es, q) && i < |order| && order[i] == q[0] && k < |q|
    ensures exists j :: 0 <= j <= i - k && order[j] == q[k]
    decreases k
  {
    if k > 0 {
      ChainDescends(nodes, es, order, q, i, k - 1);
      var j :| 0 <= j <= i - (k - 1) && order[j] == q[k - 1];
      assert DependsOn(nodes, es, q[k - 1], q[k - 1 + 1]);
      assert q[k] in order[..j];
    }
  }

  lemma OrderedMissesCycles(nodes: set<Instance>, es: Edges, order: seq<Instance>, p: Instance)
    requires Sorted(nodes, es, order) && Distinct(order) && p in order
    ensures !DependsOnCycle(nodes, es, p)
  {
    hide DependsOn;
    forall q, i: nat | Lasso(nodes, es, p, q, i) ensures false {
      var a :| 0 <= a < |order| && order[a] == p;
      ChainDescends(nodes, es, order, q, a, i);
      var b :| 0 <= b <= a - i && order[b] == q[i];
      var tail := q[i..];
      forall k | 0 <= k < |tail| - 1 ensures DependsOn(nodes, es, tail[k], tail[k + 1]) {
        assert DependsOn(nodes, es, q[i + k], q[i + k + 1]);
      }
      ChainDescends(nodes, es, order, tail, b, |tail| - 1);
    }
  }

  // ---- Nodes left over reach a cycle ----

  /** Every left-over node depends on another. */
  ghost predicate Stuck(nodes: set<Instance>, es: Edges, left: set<Instance>) {
    left <= nodes && forall p :: p in left ==> exists d :: DependsOn(nodes, es, p, d) && d in left
  }

  lemma {:induction false} LongChain(nodes: set<Instance>, es: Edges, left: set<Instance>, p: Instance, n: nat) returns (q: seq<Instance>)
    requires Stuck(nodes, es, left) && p in left
    ensures Chain(nodes, es, q) && |q| == n + 1 && q[0] == p && forall k :: 0 <= k < |q| ==> q[k] in left
    decreases n
  {
    hide DependsOn;
    if n == 0 {
      q := [p];
    } else {
      var d :| DependsOn(nodes, es, p, d) && d in left;
      var rest := LongChain(nodes, es, left, d, n - 1);
      q := [p] + rest;
      forall k | 0 <= k < n ensures DependsOn(nodes, es, q[k], q[k + 1]) {
        assert k > 0 ==> DependsOn(nodes, es, rest[k - 1], rest[k - 1 + 1]);
      }
    }
  }

  lemma {:induction false} UniqueFits(q: seq<Instance>, s: set<Instance>)
    requires Distinct(q) && forall k :: 0 <= k < |q| ==> q[k] in s
    ensures |q| <= |s|
    decreases |q|
  {
    if q != [] {
      var n := |q| - 1;
      assert |s - {q[n]}| == |s| - 1;
      UniqueFits(q[..n], s - {q[n]});
    }
  }

  lemma LongChainRepeats(q: seq<Instance>, s: set<Instance>) returns (i: nat, j: nat)
    requires |q| > |s| && forall k :: 0 <= k < |q| ==> q[k] in s
    ensures i < j < |q| && q[i] == q[j]
  {
    if Distinct(q) { UniqueFits(q, s); }
    i, j :| 0 <= i < j < |q| && q[i] == q[j];
  }

  lemma StuckDependsOnCycle(nodes: set<Instance>, es: Edges, left: set<Instance>, p: Instance)
    requires Stuck(nodes, es, left) && p in left
    ensures DependsOnCycle(nodes, es, p)
  {
    hide DependsOn, Stuck;
    var q := LongChain(nodes, es, left, p, |left|);
    var i, j := LongChainRepeats(q, left);
    var r := q[..j + 1];
    forall k | 0 <= k < |r| - 1 ensures DependsOn(nodes, es, r[k], r[k + 1]) {
      assert DependsOn(nodes, es, q[k], q[k + 1]);
    }
    assert Lasso(nodes, es, p, r, i);
  }

  // ---- The algorithm ----

  type Degrees = map<Instance, int>
  type Dependents = map<Instance, set<Instance>>

  ghost predicate Counted(nodes: set<Instance>, es: Edges, degree: Degrees, adj: Dependents) {
    && degree.Keys == nodes && adj.Keys == nodes
    && (forall p :: p in nodes ==> degree[p] == |Deps(nodes, es, p)|)
    && (forall d, p :: d in nodes ==> (p in adj[d] <==> p in nodes && DependsOn(nodes, es, p, d)))
  }

  method CountDependencies(nodes: set<Instance>, es: Edges) returns (degree: Degrees, adj: Dependents)
    requires forall e :: e in es ==> e.0 in nodes
    ensures Counted(nodes, es, degree, adj) && degree.Keys == nodes
  {
    assert forall p :: Deps(nodes, [], p) == {};
    assert es[..0] == [];
    degree, adj := map p | p in nodes :: 0, map p | p in nodes :: {};
    for i := 0 to |es|
      invariant Counted(nodes, es[..i], degree, adj)
    {
      hide DependsOn, Deps;
      var src, dst := es[i].0, es[i].1;
      assert es[i] in es;
      OneMoreEdge(nodes, es, i);
      CountOne(nodes, es[..i], es[..i + 1], degree, adj, src, dst);
      if dst in nodes && dst != src && src !in adj[dst] {
        adj := adj[dst := adj[dst] + {src}];
        degree := degree[src := degree[src] + 1];
      }
    }
    assert es[..|es|] == es;
  }

  lemma CountOne(nodes: set<Instance>, es: Edges, es': Edges, degree: Degrees, adj: Dependents, src: Instance, dst: Instance)
    requires Counted(nodes, es, degree, adj) && Adds(nodes, es, es', src, dst) && src in nodes
    ensures if dst in nodes && dst != src && src !in adj[dst]
            then Counted(nodes, es', degree[src := degree[src] + 1], adj[dst := adj[dst] + {src}])
            else Counted(nodes, es', degree, adj)
  {
    DepsMembers(nodes, es, src, dst);
    hide DependsOn, Deps;
    if dst in nodes && dst != src && src !in adj[dst] {
      assert |Deps(nodes, es', src)| == |Deps(nodes, es, src)| + 1;
    } else {
      assert Deps(nodes, es', src) == Deps(nodes, es, src);
    }
  }

  ghost predicate Adds(nodes: set<Instance>, es: Edges, es': Edges, src: Instance, dst: Instance) {
    && (forall p :: p != src ==> Deps(nodes, es', p) == Deps(nodes, es, p))
    && Deps(nodes, es', src) == Deps(nodes, es, src) + (if dst in nodes && dst != src then {dst} else {})
    && (forall p, d :: DependsOn(nodes, es', p, d) <==> DependsOn(nodes, es, p, d) || (p == src && d == dst && dst in nodes && dst != src))
  }

  lemma OneMoreEdge(nodes: set<Instance>, es: Edges, i: nat)
    requires i < |es|
    ensures Adds(nodes, es[..i], es[..i + 1], es[i].0, es[i].1)
  {
    var a, b, src, dst := es[..i], es[..i + 1], es[i].0, es[i].1;
    assert b == a + [es[i]];
    forall p, d ensures DependsOn(nodes, b, p, d) <==> DependsOn(nodes, a, p, d) || (p == src && d == dst && dst in nodes && dst != src) {}
    forall p | p != src ensures Deps(nodes, b, p) == Deps(nodes, a, p) {}
  }

  lemma DepsMembers(nodes: set<Instance>, es: Edges, p: Instance, d: Instance)
    ensures d in Deps(nodes, es, p) <==> DependsOn(nodes, es, p, d)
  {
  }

  lemma RemoveOne(s: set<Instance>, x: set<Instance>, p: Instance)
    ensures |s - (x + {p})| == |s - x| - if p in s && p !in x then 1 else 0
  {
    if p in s && p !in x {
      assert s - (x + {p}) == (s - x) - {p};
    } else {
      assert s - (x + {p}) == s - x;
    }
  }

  /** How many dependencies of p are not in order yet. */
  ghost function Open(nodes: set<Instance>, es: Edges, order: seq<Instance>, p: Instance): nat {
    |Deps(nodes, es, p) - Range(order)|
  }

  /** The counters agree with the order, apart from the dependents in rest, which still count the
      node taken last; the nodes whose counter is 0 are ordered or waiting. */
  ghost predicate Progress(nodes: set<Instance>, es: Edges, degree: Degrees, order: seq<Instance>, queue: seq<Instance>, rest: set<Instance>) {
    && degree.Keys == nodes && Distinct(order + queue) && Sorted(nodes, es, order)
    && (forall p :: p in order + queue ==> p in nodes)
    && (forall p :: p in nodes ==> degree[p] == Open(nodes, es, order, p) + if p in rest then 1 else 0)
    && (forall p :: p in nodes ==> (p in order + queue <==> degree[p] == 0))
  }

  lemma NothingOpen(nodes: set<Instance>, es: Edges, order: seq<Instance>, p: Instance)
    requires Open(nodes, es, order, p) == 0
    ensures Ready(nodes, es, p, order)
  {
    var open := Deps(nodes, es, p) - Range(order);
    assert open == {};
    forall d | DependsOn(nodes, es, p, d) ensures d in order {
      DepsMembers(nodes, es, p, d);
      assert d !in open;
    }
  }

  lemma AppendSorted(nodes: set<Instance>, es: Edges, order: seq<Instance>, p: Instance)
    requires Sorted(nodes, es, order) && Ready(nodes, es, p, order)
    ensures Sorted(nodes, es, order + [p])
  {
    hide DependsOn;
    var order' := order + [p];
    forall i | 0 <= i < |order'| ensures Ready(nodes, es, order'[i], order'[..i]) {
      assert order'[..i] == if i < |order| then order[..i] else order;
    }
  }

  lemma OpenAfter(nodes: set<Instance>, es: Edges, order: seq<Instance>, p: Instance, q: Instance)
    requires p in nodes && p !in order
    ensures Open(nodes, es, order + [p], q) == Open(nodes, es, order, q) - if DependsOn(nodes, es, q, p) then 1 else 0
  {
    assert Range(order + [p]) == Range(order) + {p};
    RemoveOne(Deps(nodes, es, q), Range(order), p);
    DepsMembers(nodes, es, q, p);
  }

  lemma UniqueSplit(a: seq<Instance>, b: seq<Instance>)
    requires Distinct(a + b) && b != []
    ensures b[0] !in a && (a + [b[0]]) + b[1..] == a + b
  {
    assert (a + b)[|a|] == b[0];
    assert forall i :: 0 <= i < |a| ==> (a + b)[i] == a[i];
  }

  lemma FirstIsNode(nodes: set<Instance>, es: Edges, degree: Degrees, order: seq<Instance>, queue: seq<Instance>)
    requires Progress(nodes, es, degree, order, queue, {}) && queue != []
    ensures queue[0] in nodes
  {
    assert queue[0] in order + queue;
  }

  /** Taking the first node off the queue. */
  lemma TakeFirst(nodes: set<Instance>, es: Edges, degree: Degrees, order: seq<Instance>, queue: seq<Instance>, rest: set<Instance>)
    requires Progress(nodes, es, degree, order, queue, {}) && queue != []
    requires forall p :: p in rest <==> p in nodes && DependsOn(nodes, es, p, queue[0])
    ensures queue[0] in nodes && queue[0] !in order
    ensures Progress(nodes, es, degree, order + [queue[0]], queue[1..], rest)
  {
    hide Sorted, Open, DependsOn, Ready;
    var p := queue[0];
    UniqueSplit(order, queue);
    assert p in order + queue;
    NothingOpen(nodes, es, order, p);
    AppendSorted(nodes, es, order, p);
    forall q | q in nodes ensures degree[q] == Open(nodes, es, order + [p], q) + if q in rest then 1 else 0 {
      OpenAfter(nodes, es, order, p, q);
    }
  }

  /** Counting down one dependent. */
  lemma CountDown(nodes: set<Instance>, es: Edges, degree: Degrees, order: seq<Instance>, queue: seq<Instance>, rest: set<Instance>, q: Instance)
    requires Progress(nodes, es, degree, order, queue, rest) && q in rest && q in nodes
    ensures var d' := degree[q := degree[q] - 1];
      Progress(nodes, es, d', order, if d'[q] == 0 then queue + [q] else queue, rest - {q})
  {
    hide Sorted, Open;
    var d' := degree[q := degree[q] - 1];
    assert q !in order + queue;
    if d'[q] == 0 {
      assert order + (queue + [q]) == (order + queue) + [q];
    }
  }

  /** Every node not ordered when the queue is empty waits for another such node. */
  lemma LeftOverIsStuck(nodes: set<Instance>, es: Edges, degree: Degrees, order: seq<Instance>)
    requires Progress(nodes, es, degree, order, [], {})
    ensures Stuck(nodes, es, nodes - Range(order))
    ensures Distinct(order) && Sorted(nodes, es, order) && forall p :: p in order ==> p in nodes
  {
    assert order + [] == order;
    forall p | p in nodes - Range(order) ensures exists d :: DependsOn(nodes, es, p, d) && d in nodes - Range(order) {
      var open := Deps(nodes, es, p) - Range(order);
      assert |open| != 0;
      var d :| d in open;
      DepsMembers(nodes, es, p, d);
    }
  }

  lemma OpenAtStart(nodes: set<Instance>, es: Edges, p: Instance)
    ensures Open(nodes, es, [], p) == |Deps(nodes, es, p)|
  {
    assert Deps(nodes, es, p) - Range([]) == Deps(nodes, es, p);
  }

  /** Who waits for whom, as the loop needs it. */
  ghost predicate Waiting(nodes: set<Instance>, es: Edges, adj: Dependents) {
    adj.Keys == nodes && forall p, q :: p in nodes ==> (q in adj[p] <==> q in nodes && DependsOn(nodes, es, q, p))
  }

  lemma Start(nodes: set<Instance>, es: Edges, degree: Degrees, adj: Dependents, queue: seq<Instance>)
    requires Counted(nodes, es, degree, adj) && Distinct(queue) && forall p :: p in queue <==> p in nodes && degree[p] == 0
    ensures Progress(nodes, es, degree, [], queue, {}) && Waiting(nodes, es, adj)
  {
    hide DependsOn, Deps, Open, Ready, Distinct;
    assert [] + queue == queue;
    forall p | p in nodes ensures degree[p] == Open(nodes, es, [], p) { OpenAtStart(nodes, es, p); }
  }

  method Roots(nodes: set<Instance>, degree: Degrees) returns (queue: seq<Instance>)
    requires degree.Keys == nodes
    ensures Distinct(queue) && forall p :: p in queue <==> p in nodes && degree[p] == 0
  {
    queue := [];
    var rest := nodes;
    while rest != {}
      invariant rest <= nodes && Distinct(queue)
      invariant forall p :: p in queue <==> p in nodes - rest && degree[p] == 0
    {
      var p :| p in rest;
      rest := rest - {p};
      if degree[p] == 0 {
        queue := queue + [p];
      }
    }
  }

  /** Count down the dependents of the node just ordered; those with nothing left open queue up. */
  method Release(nodes: set<Instance>, ghost es: Edges, degree0: Degrees, ghost order: seq<Instance>, queue0: seq<Instance>, rest0: set<Instance>)
    returns (degree: Degrees, queue: seq<Instance>)
    requires rest0 <= nodes && degree0.Keys == nodes && Progress(nodes, es, degree0, order, queue0, rest0)
    ensures degree.Keys == nodes && Progress(nodes, es, degree, order, queue, {})
  {
    hide Progress;
    degree, queue := degree0, queue0;
    var rest := rest0;
    while rest != {}
      invariant rest <= nodes && Progress(nodes, es, degree, order, queue, rest) && degree.Keys == nodes
    {
      var q :| q in rest;
      CountDown(nodes, es, degree, order, queue, rest, q);
      rest := rest - {q};
      degree := degree[q := degree[q] - 1];
      if degree[q] == 0 {
        queue := queue + [q];
      }
    }
  }

  /** The instances in an order in which each comes after all it depends on.  Exactly those that
      depend on a cycle are missing. */
  method TopologicalOrder(nodes: set<Instance>, es: Edges) returns (order: seq<Instance>)
    requires forall e :: e in es ==> e.0 in nodes
    ensures Distinct(order) && Sorted(nodes, es, order)
    ensures forall p :: p in order <==> p in nodes && !DependsOnCycle(nodes, es, p)
  {
    hide Progress, Open, DependsOn, Deps, Counted, Distinct, DependsOnCycle, Sorted, Stuck;
    var degree, adj := CountDependencies(nodes, es);
    var queue := Roots(nodes, degree);
    order := [];
    Start(nodes, es, degree, adj, queue);
    while queue != []
      invariant Progress(nodes, es, degree, order, queue, {}) && degree.Keys == nodes
      decreases nodes - Range(order)
    {
      var p := queue[0];
      FirstIsNode(nodes, es, degree, order, queue);
      var rest := adj[p];
      TakeFirst(nodes, es, degree, order, queue, rest);
      assert p in Range(order + [p]);
      queue := queue[1..];
      order := order + [p];
      degree, queue := Release(nodes, es, degree, order, queue, rest);
    }
    LeftOverIsStuck(nodes, es, degree, order);
    OrderIsExact(nodes, es, order);
  }

  lemma OrderIsExact(nodes: set<Instance>, es: Edges, order: seq<Instance>)
    requires Sorted(nodes, es, order) && Distinct(order) && (forall p :: p in order ==> p in nodes)
    requires Stuck(nodes, es, nodes - Range(order))
    ensures forall p :: p in order <==> p in nodes && !DependsOnCycle(nodes, es, p)
  {
    hide Sorted, Stuck, DependsOnCycle;
    forall p ensures p in order <==> p in nodes && !DependsOnCycle(nodes, es, p) {
      if p in order {
        OrderedMissesCycles(nodes, es, order, p);
      } else if p in nodes {
        StuckDependsOnCycle(nodes, es, nodes - Range(order), p);
      }
    }
  }
}
