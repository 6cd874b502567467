/** Which declared outputs can be built: the loop that withdraws outputs until nothing changes. */
module OutputIndex {
  import opened Wrappers

  /** Outputs and provider instances are known by name. */
  datatype Name = Name(text: string)

  type Output = Name
  type Instance = Name

  /** One output as declared: the provider instance it comes from, whether the build context
      allows it, and what it requires. */
  datatype Record = Record(id: Instance, buildable: bool, needs: seq<Output>)

  datatype Declaration = Declaration(output: Output, record: Record)

  type Index = map<Output, Record>

  ghost function Declared(ds: seq<Declaration>): Index {
    if ds == [] then map[] else Declared(ds[..|ds| - 1])[ds[|ds| - 1].output := ds[|ds| - 1].record]
  }

  lemma {:induction false} DeclaredKeys(ds: seq<Declaration>)
    ensures forall o :: o in Declared(ds) <==> exists k :: 0 <= k < |ds| && ds[k].output == o
  {
    if ds != [] {
      var n := |ds| - 1;
      DeclaredKeys(ds[..n]);
      forall o ensures o in Declared(ds) <==> exists k :: 0 <= k < |ds| && ds[k].output == o {
        if o in Declared(ds) && o != ds[n].output {
          assert o in Declared(ds[..n]);
          var k :| 0 <= k < n && ds[..n][k].output == o;
          assert ds[k].output == o;
        }
        if k :| 0 <= k < |ds| && ds[k].output == o {
          assert k < n ==> ds[..n][k].output == o;
        }
      }
    }
  }

  // ---- The specification: a greatest fixed point ----

  ghost predicate Unique(ds: seq<Declaration>) {
    forall i, j :: 0 <= i < j < |ds| ==> ds[i].output != ds[j].output
  }

  /** A requirement is met in S by an output of S, or by a name that needs no provider. */
  ghost predicate Met(index: Index, provided: set<Output>, S: set<Output>, req: Output) {
    if req in index then req in S else req in provided
  }

  /** S holds only outputs the context allows, with all their requirements met in S. */
  ghost predicate SelfContained(index: Index, provided: set<Output>, S: set<Output>) {
    forall o :: o in S ==> o in index && index[o].buildable && forall req :: req in index[o].needs ==> Met(index, provided, S, req)
  }

  ghost function BuildableIn(index: Index): set<Output> {
    set o | o in index && index[o].buildable
  }

  /** Apart from outputs having been withdrawn, index is still what was declared. */
  ghost predicate Withdrawn(initial: Index, index: Index) {
    && index.Keys == initial.Keys
    && forall o :: o in index ==> index[o].id == initial[o].id && index[o].needs == initial[o].needs
                                  && (index[o].buildable ==> initial[o].buildable)
  }

  /** Every self-contained set is inside S. */
  ghost predicate HoldsAll(initial: Index, provided: set<Output>, S: set<Output>) {
    forall X :: SelfContained(initial, provided, X) ==> X <= S
  }

  // ---- The loops ----

  method Register(ds: seq<Declaration>) returns (r: Result<Index, Output>)
    ensures r.Ok? <==> Unique(ds)
    ensures r.Ok? ==> r.value == Declared(ds)
  {
    var index: Index := map[];
    for i := 0 to |ds|
      invariant Unique(ds[..i]) && index == Declared(ds[..i])
    {
      DeclaredKeys(ds[..i]);
      assert ds[..i + 1][..i] == ds[..i];
      if ds[i].output in index {
        ghost var k :| 0 <= k < i && ds[..i][k].output == ds[i].output;
        assert ds[k].output == ds[i].output;
        return Err(ds[i].output);
      }
      index := index[ds[i].output := ds[i].record];
    }
    assert ds[..|ds|] == ds;
    return Ok(index);
  }

  /** Does some requirement of o lack a usable provider? */
  method Lacks(index: Index, provided: set<Output>, o: Output) returns (lacks: bool)
    requires o in index
    ensures lacks <==> exists req :: req in index[o].needs && !Met(index, provided, BuildableIn(index), req)
  {
    var needs := index[o].needs;
    for i := 0 to |needs|
      invariant forall k :: 0 <= k < i ==> Met(index, provided, BuildableIn(index), needs[k])
    {
      var req := needs[i];
      if req !in index {
        if req in provided {
          continue;
        }
        assert !Met(index, provided, BuildableIn(index), req);
        return true;
      }
      if index[req].buildable {
        continue;
      }
      assert !Met(index, provided, BuildableIn(index), req);
      return true;
    }
    return false;
  }

  lemma WithdrawingIsForced(initial: Index, index: Index, provided: set<Output>, o: Output, req: Output)
    requires Withdrawn(initial, index) && HoldsAll(initial, provided, BuildableIn(index))
    requires o in index && req in index[o].needs && !Met(index, provided, BuildableIn(index), req)
    ensures HoldsAll(initial, provided, BuildableIn(index) - {o})
  {
    forall X | SelfContained(initial, provided, X) ensures X <= BuildableIn(index) - {o} {
      assert X <= BuildableIn(index);
      assert o in X ==> Met(initial, provided, X, req);
    }
  }

  /** Withdraw outputs that lack a requirement until none does. */
  method Settle(order: seq<Output>, initial: Index, provided: set<Output>) returns (index: Index)
    requires forall o :: o in order <==> o in initial
    ensures Withdrawn(initial, index)
    ensures SelfContained(initial, provided, BuildableIn(index))
    ensures HoldsAll(initial, provided, BuildableIn(index))
  {
    index := initial;
    var changed := true;
    while changed
      invariant Withdrawn(initial, index) && HoldsAll(initial, provided, BuildableIn(index))
      invariant !changed ==> SelfContained(initial, provided, BuildableIn(index))
      decreases BuildableIn(index), changed
    {
      changed := false;
      ghost var before := BuildableIn(index);
      for i := 0 to |order|
        invariant Withdrawn(initial, index) && HoldsAll(initial, provided, BuildableIn(index))
        invariant if changed then BuildableIn(index) < before else BuildableIn(index) == before
        invariant !changed ==> forall k :: 0 <= k < i ==> Kept(index, provided, order[k])
      {
        var o := order[i];
        if !index[o].buildable {
          continue;
        }
        var lacks := Lacks(index, provided, o);
        if lacks {
          ghost var req :| req in index[o].needs && !Met(index, provided, BuildableIn(index), req);
          WithdrawingIsForced(initial, index, provided, o, req);
          assert BuildableIn(index[o := index[o].(buildable := false)]) == BuildableIn(index) - {o};
          index := index[o := index[o].(buildable := false)];
          changed := true;
        }
      }
    }
  }

  ghost predicate Kept(index: Index, provided: set<Output>, o: Output) {
    o in index && index[o].buildable ==> forall req :: req in index[o].needs ==> Met(index, provided, BuildableIn(index), req)
  }

  /** The outputs left buildable are the greatest self-contained set, whatever the order. */
  method BuildOutputIndex(ds: seq<Declaration>, provided: set<Output>) returns (r: Result<Index, Output>)
    ensures r.Ok? <==> Unique(ds)
    ensures r.Ok? ==> Withdrawn(Declared(ds), r.value)
    ensures r.Ok? ==> SelfContained(Declared(ds), provided, BuildableIn(r.value))
    ensures r.Ok? ==> HoldsAll(Declared(ds), provided, BuildableIn(r.value))
  {
    r := Register(ds);
    if r.Err? { return; }
    var order := seq(|ds|, i requires 0 <= i < |ds| => ds[i].output);
    DeclaredKeys(ds);
    forall o ensures o in order <==> o in r.value {
      if o in r.value {
        var i :| 0 <= i < |ds| && ds[i].output == o;
        assert order[i] == o;
      }
    }
    var index := Settle(order, r.value, provided);
    r := Ok(index);
  }

  /** The set so described is unique. */
  lemma GreatestIsUnique(initial: Index, provided: set<Output>, S: set<Output>, S': set<Output>)
    requires SelfContained(initial, provided, S) && HoldsAll(initial, provided, S)
    requires SelfContained(initial, provided, S') && HoldsAll(initial, provided, S')
    ensures S == S'
  {
  }
}
