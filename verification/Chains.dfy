/** Linked chains: following a link from one number to the next until it ends. */
module Chains {
  import opened FiniteSets
  import opened Sequences

  /** Where a link leads. */
  datatype Step = Goes(to: nat) | Ends | Fails

  type Links = nat -> Step

  /** The links lead from first through all of p. */
  ghost predicate Path(links: Links, first: nat, p: seq<nat>) {
    p != [] && p[0] == first && forall i :: 0 <= i < |p| - 1 ==> links(p[i]) == Goes(p[i + 1])
  }

  /** And there they end. */
  ghost predicate Whole(links: Links, first: nat, p: seq<nat>) {
    Path(links, first, p) && links(p[|p| - 1]) == Ends
  }

  lemma PathStart(links: Links, first: nat)
    ensures Path(links, first, [] + [first])
  {
  }

  lemma WholeNow(links: Links, first: nat, p: seq<nat>)
    requires Path(links, first, p) && p != [] && links(p[|p| - 1]) == Ends
    ensures Whole(links, first, p)
  {
  }

  lemma PathNext(links: Links, first: nat, p: seq<nat>, next: nat)
    requires Path(links, first, p) && links(p[|p| - 1]) == Goes(next)
    ensures Path(links, first, p + [next])
  {
  }

  /** Links lead but one way: a path is part of the whole chain, if there is one. */
  lemma {:induction false} PathAgrees(links: Links, first: nat, p: seq<nat>, whole: seq<nat>, i: nat)
    requires Path(links, first, p) && Whole(links, first, whole) && i < |p|
    ensures i < |whole| && p[i] == whole[i]
  {
    if i > 0 {
      PathAgrees(links, first, p, whole, i - 1);
      assert links(p[i - 1]) == Goes(p[i]);
      assert i - 1 < |whole| - 1 ==> links(whole[i - 1]) == Goes(whole[i]);
    }
  }

  lemma WholeIsUnique(links: Links, first: nat, p: seq<nat>, q: seq<nat>)
    requires Whole(links, first, p) && Whole(links, first, q)
    ensures p == q
  {
    PathAgrees(links, first, p, q, |p| - 1);
    PathAgrees(links, first, q, p, |q| - 1);
    forall i | 0 <= i < |p| ensures p[i] == q[i] { PathAgrees(links, first, p, q, i); }
  }

  lemma {:induction false} NoRepeat(links: Links, first: nat, p: seq<nat>, i: nat, j: nat)
    requires Whole(links, first, p) && i < j < |p|
    ensures p[i] != p[j]
    decreases |p| - j
  {
    assert links(p[i]) == Goes(p[i + 1]);
    if p[i] == p[j] && j < |p| - 1 {
      assert links(p[j]) == Goes(p[j + 1]);
      NoRepeat(links, first, p, i + 1, j + 1);
    }
  }

  /** A chain that ends meets nothing twice, so it is no longer than there are links. */
  lemma WholeIsShort(links: Links, first: nat, p: seq<nat>, lo: nat, hi: nat)
    requires Whole(links, first, p) && lo <= hi && forall i :: 0 <= i < |p| ==> lo <= p[i] < hi
    ensures Distinct(p) && |p| <= hi - lo
  {
    forall i, j | 0 <= i < j < |p| ensures p[i] != p[j] { NoRepeat(links, first, p, i, j); }
    DistinctSize(p);
    Between(Set(p), lo, hi);
  }

  lemma WholeNeverFails(links: Links, first: nat, p: seq<nat>)
    requires Whole(links, first, p)
    ensures forall i :: 0 <= i < |p| ==> links(p[i]) != Fails
  {
    forall i | 0 <= i < |p| ensures links(p[i]) != Fails {
      assert i < |p| - 1 ==> links(p[i]) == Goes(p[i + 1]);
    }
  }

  /** A path that fails, or is longer than there are links, is part of no whole chain. */
  lemma NotWhole(links: Links, first: nat, p: seq<nat>, lo: nat, hi: nat)
    requires Path(links, first, p) && (links(p[|p| - 1]) == Fails || |p| > hi - lo)
    requires lo <= hi && forall g: nat :: links(g) != Fails ==> lo <= g < hi
    ensures forall whole :: !Whole(links, first, whole)
  {
    forall whole ensures !Whole(links, first, whole) {
      if Whole(links, first, whole) {
        PathAgrees(links, first, p, whole, |p| - 1);
        WholeNeverFails(links, first, whole);
        WholeIsShort(links, first, whole, lo, hi);
      }
    }
  }
}
