/** The adaptive Huffman tree of the DMS "Deep" mode, as a value.

    A tree of N_CHAR leaves is held in three arrays indexed by node.  Nodes are kept sorted by
    frequency; the two sons of a node are the adjacent nodes `son` and `son + 1`; a leaf for
    symbol c stores c + T in `son`; `prnt` inverts `son` for nodes and symbols alike. */
module DeepTree {

  const N_CHAR: nat := 314
  const T: nat := 627
  const R: nat := 626
  const MAX_FREQ: nat := 0x8000
  const SENTINEL: nat := 0xffff

  type Symbol = x: int | 0 <= x < N_CHAR

  datatype Tree = Tree(freq: seq<int>, prnt: seq<int>, son: seq<int>)

  // ---- The invariant ----

  ghost predicate Shape(t: Tree) {
    |t.freq| == T + 1 && |t.prnt| == T + N_CHAR && |t.son| == T
  }

  /** A `son` entry of node i is a symbol, or an even/odd pair of nodes below i. */
  ghost predicate SonOk(s: int, i: int) {
    T <= s < T + N_CHAR || (0 <= s && s % 2 == 0 && s + 1 < i)
  }

  /** Entry x is the symbol s, or one of the two nodes s and s + 1. */
  predicate Owns(s: int, x: int) {
    x == s || (s < T && x == s + 1)
  }

  /** Each node owns its sons, knows them as its own, and everything but the root is owned. */
  ghost predicate Linked(t: Tree)
    requires Shape(t)
  {
    && (forall i :: 0 <= i < T ==> SonOk(t.son[i], i))
    && (forall i, x {:trigger Owns(t.son[i], x)} :: 0 <= i < T && Owns(t.son[i], x) ==> 0 <= x < T + N_CHAR && t.prnt[x] == i)
    && (forall x {:trigger t.prnt[x]} :: 0 <= x < T + N_CHAR && x != R ==> 0 <= t.prnt[x] < T && Owns(t.son[t.prnt[x]], x))
    && t.prnt[R] == 0
  }

  ghost predicate Ordered(t: Tree)
    requires Shape(t)
  {
    && t.freq[0] >= 1
    && (forall i, j :: 0 <= i <= j < T ==> t.freq[i] <= t.freq[j])
    && t.freq[T] == SENTINEL
  }

  /** Node i, when internal, weighs as much as its two sons together. */
  ghost predicate BalancedAt(t: Tree, i: int)
    requires Shape(t) && 0 <= i < T
  {
    0 <= t.son[i] < T ==> t.son[i] + 1 < T && t.freq[i] == t.freq[t.son[i]] + t.freq[t.son[i] + 1]
  }

  ghost predicate Balanced(t: Tree)
    requires Shape(t)
  {
    forall i :: 0 <= i < T ==> BalancedAt(t, i)
  }

  /** The invariant of the tree between symbols. */
  ghost predicate Valid(t: Tree) {
    Shape(t) && Linked(t) && Ordered(t) && Balanced(t) && t.freq[R] <= MAX_FREQ
  }

  /** The frequency the tree has recorded for a symbol: that of its leaf. */
  ghost function Weight(t: Tree, x: Symbol): int
    requires Shape(t) && Linked(t)
  {
    t.freq[t.prnt[x + T]]
  }

  // ---- Counting one symbol: the climb to the root ----

  /** The last node at or after l whose successor is not lighter than k. */
  function Scan(freq: seq<int>, k: int, l: nat): (r: nat)
    requires l < |freq|
    ensures l <= r < |freq|
    ensures forall m :: l < m <= r ==> freq[m] < k
    ensures r + 1 < |freq| ==> k <= freq[r + 1]
    decreases |freq| - l
  {
    if l + 1 < |freq| && k > freq[l + 1] then Scan(freq, k, l + 1) else l
  }

  /** Make p the parent of entry s: of one symbol, or of a pair of nodes. */
  function Adopt(prnt: seq<int>, s: int, p: int): (r: seq<int>)
    requires |prnt| == T + N_CHAR && 0 <= s < |prnt|
    ensures |r| == |prnt|
  {
    if s < T then prnt[s := p][s + 1 := p] else prnt[s := p]
  }

  /** Frequency k arrives at node c and is carried up to node l, which trades sons with c. */
  function Exchange(t: Tree, c: nat, l: nat, k: int): (r: Tree)
    requires Shape(t) && Linked(t) && c < T && l < T
    ensures Shape(r)
  {
    Tree(t.freq[c := t.freq[l]][l := k],
         Adopt(Adopt(t.prnt, t.son[c], l), t.son[l], c),
         t.son[l := t.son[c]][c := t.son[l]])
  }

  /** Where the node counted at c ends up: the last node still lighter than its new frequency. */
  function Top(t: Tree, c: nat): (l: nat)
    requires Shape(t) && c < T
    ensures c <= l <= T
    ensures forall m :: c < m <= l ==> t.freq[m] <= t.freq[c]
    ensures l < T ==> t.freq[c] < t.freq[l + 1]
  {
    Scan(t.freq, t.freq[c] + 1, c)
  }

  /** The climb has reached node c: everything is in order except that c has not been counted,
      so it is one lighter than its sons. */
  ghost predicate Pending(t: Tree, c: int) {
    && Shape(t) && Linked(t) && Ordered(t) && 0 <= c < T
    && (forall i :: 0 <= i < T && i != c ==> BalancedAt(t, i))
    && (0 <= t.son[c] < T ==> t.son[c] + 1 < T && t.freq[c] + 1 == t.freq[t.son[c]] + t.freq[t.son[c] + 1])
    && t.freq[R] < MAX_FREQ
  }

  lemma LighterSonsAreLower(t: Tree, i: int, x: int)
    requires Shape(t) && Linked(t) && Ordered(t) && 0 <= i < T && 0 <= t.son[i] < T && BalancedAt(t, i)
    requires 0 <= x < T && t.freq[i] <= t.freq[x]
    ensures t.son[i] + 1 < x
  {
  }

  lemma RootIsHeaviest(t: Tree, c: int)
    requires Shape(t) && Linked(t) && Ordered(t) && 0 <= c < R && BalancedAt(t, R)
    ensures t.freq[c] < t.freq[R]
  {
    assert t.prnt[R - 1] == R;
    assert t.son[R] == R - 2;
  }

  lemma TopIsBelowRoot(t: Tree, c: int)
    requires Pending(t, c)
    ensures Top(t, c) < T
    ensures c != R ==> Top(t, c) < R
    ensures c == R ==> Top(t, c) == R
    ensures Top(t, c) != c ==> t.freq[Top(t, c)] == t.freq[c] && t.son[Top(t, c)] != c - c % 2
  {
    if c != R { RootIsHeaviest(t, c); }
    var l := Top(t, c);
    if l != c { assert BalancedAt(t, l); }
  }

  lemma AdoptAt(prnt: seq<int>, s: int, p: int, x: int)
    requires |prnt| == T + N_CHAR && 0 <= s < |prnt| && 0 <= x < |prnt|
    ensures Adopt(prnt, s, p)[x] == if Owns(s, x) then p else prnt[x]
  {
  }

  /** Exchange keeps the tree linked whenever both new parents lie above their new sons. */
  lemma ExchangeKeepsLinks(t: Tree, c: nat, l: nat, k: int)
    requires Shape(t) && Linked(t) && c < l < R
    requires t.son[l] < T ==> t.son[l] + 1 < c
    ensures Linked(Exchange(t, c, l, k))
  {
    var r := Exchange(t, c, l, k);
    var i, j := t.son[c], t.son[l];
    assert SonOk(i, c) && SonOk(j, l) && SonOk(i, l) && SonOk(j, c);
    forall x | 0 <= x < T + N_CHAR
      ensures r.prnt[x] == if t.prnt[x] == l && x != R then c else if t.prnt[x] == c && x != R then l else t.prnt[x]
    {
      AdoptAt(Adopt(t.prnt, i, l), j, c, x);
      AdoptAt(t.prnt, i, l, x);
    }
    forall a, x | 0 <= a < T && Owns(r.son[a], x)
      ensures 0 <= x < T + N_CHAR && r.prnt[x] == a
    {
      var b := if a == c then l else if a == l then c else a;
      assert Owns(t.son[b], x);
    }
    assert forall a, x {:trigger Owns(r.son[a], x)} :: 0 <= a < T && Owns(r.son[a], x) ==> 0 <= x < T + N_CHAR && r.prnt[x] == a;
  }

  /** Count the node at c: raise its frequency, and move it up past its former equals. */
  function Bump(t: Tree, c: nat): (r: Tree)
    requires Pending(t, c)
  {
    TopIsBelowRoot(t, c);
    Exchange(t, c, Top(t, c), t.freq[c] + 1)
  }

  lemma BumpInPlace(t: Tree, c: nat)
    requires Pending(t, c) && Top(t, c) == c
    ensures Bump(t, c) == t.(freq := t.freq[c := t.freq[c] + 1])
  {
    assert SonOk(t.son[c], c);
    forall x | 0 <= x < T + N_CHAR ensures Bump(t, c).prnt[x] == t.prnt[x] {
      AdoptAt(Adopt(t.prnt, t.son[c], c), t.son[c], c, x);
      AdoptAt(t.prnt, t.son[c], c, x);
    }
    assert Bump(t, c).prnt == t.prnt && Bump(t, c).son == t.son;
  }

  lemma BumpKeepsLinks(t: Tree, c: nat)
    requires Pending(t, c)
    ensures Shape(Bump(t, c)) && Linked(Bump(t, c))
  {
    TopIsBelowRoot(t, c);
    var l := Top(t, c);
    if l != c {
      if t.son[l] < T { LighterSonsAreLower(t, l, c); }
      ExchangeKeepsLinks(t, c, l, t.freq[c] + 1);
    } else {
      BumpInPlace(t, c);
    }
  }

  lemma BumpKeepsOrder(t: Tree, c: nat)
    requires Pending(t, c)
    ensures Ordered(Bump(t, c))
    ensures Bump(t, c).freq == t.freq[Top(t, c) := t.freq[c] + 1]
  {
    TopIsBelowRoot(t, c);
  }

  /** After the count at c, only the parent of its new place is still one light. */
  lemma BumpBalances(t: Tree, c: nat, i: nat)
    requires Pending(t, c) && i < T
    ensures Top(t, c) < T
    ensures var r := Bump(t, c);
      0 <= r.son[i] < T ==>
        && r.son[i] + 1 < T
        && r.freq[r.son[i]] + r.freq[r.son[i] + 1] == r.freq[i] + (if Owns(r.son[i], Top(t, c)) then 1 else 0)
  {
    hide Pending, Bump, Top, Owns;
    BumpParts(t, c);
    var l := Top(t, c);
    var b := if i == c then l else if i == l then c else i;
    if 0 <= t.son[b] < T {
      PendingSum(t, c, b);
      SumAfter(t.freq, l, t.son[b]);
    }
  }

  lemma BumpParts(t: Tree, c: nat)
    requires Pending(t, c)
    ensures Shape(t) && c < T && Top(t, c) < T && t.freq[Top(t, c)] == t.freq[c]
    ensures Bump(t, c).son == t.son[Top(t, c) := t.son[c]][c := t.son[Top(t, c)]]
    ensures Bump(t, c).freq == t.freq[Top(t, c) := t.freq[c] + 1]
  {
    TopIsBelowRoot(t, c);
    BumpKeepsOrder(t, c);
  }

  lemma PendingSum(t: Tree, c: nat, b: nat)
    requires Pending(t, c) && b < T && 0 <= t.son[b] < T
    ensures t.son[b] + 1 < T && t.freq[t.son[b]] + t.freq[t.son[b] + 1] == t.freq[b] + if b == c then 1 else 0
  {
    assert b != c ==> BalancedAt(t, b);
  }

  lemma SumAfter(freq: seq<int>, l: nat, s: nat)
    requires l < |freq| && s + 1 < T <= |freq|
    ensures var freq' := freq[l := freq[l] + 1];
      freq'[s] + freq'[s + 1] == freq[s] + freq[s + 1] + if Owns(s, l) then 1 else 0
  {
  }

  /** One step of the climb ends at the root or leaves exactly one node pending, higher up. */
  lemma BumpStep(t: Tree, c: nat)
    requires Pending(t, c)
    ensures Top(t, c) < T
    ensures var r, p := Bump(t, c), Bump(t, c).prnt[Top(t, c)];
      if p == 0 then c == R && Valid(r) else c < p && c < R && Pending(r, p)
    ensures Bump(t, c).freq[R] == if c == R then t.freq[R] + 1 else t.freq[R]
  {
    TopIsBelowRoot(t, c);
    BumpKeepsLinks(t, c);
    BumpKeepsOrder(t, c);
    var r, l := Bump(t, c), Top(t, c);
    var p := r.prnt[l];
    if l < R { assert Owns(r.son[p], l) && SonOk(r.son[p], p); }
    forall i | 0 <= i < T
      ensures i != p || l == R ==> BalancedAt(r, i)
      ensures i == p && l < R ==> r.son[i] < T && r.son[i] + 1 < T && r.freq[i] + 1 == r.freq[r.son[i]] + r.freq[r.son[i] + 1]
    {
      BumpBalances(t, c, i);
      assert SonOk(r.son[i], i);
      assert Owns(r.son[i], l) ==> r.prnt[l] == i;
    }
  }

  lemma BumpCounts(t: Tree, c: nat, x: Symbol)
    requires Pending(t, c)
    ensures Shape(Bump(t, c)) && Linked(Bump(t, c))
    ensures Weight(Bump(t, c), x) == Weight(t, x) + if t.prnt[x + T] == c then 1 else 0
  {
    TopIsBelowRoot(t, c);
    BumpKeepsLinks(t, c);
    BumpKeepsOrder(t, c);
    var l := Top(t, c);
    assert Owns(t.son[t.prnt[x + T]], x + T);
    assert SonOk(t.son[c], c) && SonOk(t.son[l], l);
    AdoptAt(Adopt(t.prnt, t.son[c], l), t.son[l], c, x + T);
    AdoptAt(t.prnt, t.son[c], l, x + T);
    assert Owns(t.son[c], x + T) <==> t.prnt[x + T] == c;
    assert Owns(t.son[l], x + T) <==> t.prnt[x + T] == l;
  }

  function Climb(t: Tree, c: nat): (r: Tree)
    requires Pending(t, c)
    ensures Valid(r)
    ensures r.freq[R] == t.freq[R] + 1
    decreases T - c
  {
    BumpStep(t, c);
    var r, p := Bump(t, c), Bump(t, c).prnt[Top(t, c)];
    if p == 0 then r else Climb(r, p)
  }

  lemma {:induction false} ClimbCounts(t: Tree, c: nat, x: Symbol)
    requires Pending(t, c)
    ensures Weight(Climb(t, c), x) == Weight(t, x) + if t.prnt[x + T] == c then 1 else 0
    decreases T - c
  {
    BumpStep(t, c);
    BumpCounts(t, c, x);
    var r, p := Bump(t, c), Bump(t, c).prnt[Top(t, c)];
    if p != 0 {
      ClimbCounts(r, p, x);
      BumpKeepsLinks(t, c);
      assert Owns(r.son[p], Top(t, c));
      assert SonOk(r.son[p], p);
      assert r.prnt[x + T] == p ==> Owns(r.son[p], x + T);
    }
  }
}
