/** Halving every frequency and rebuilding the "Deep" tree when the root saturates. */
module DeepRebuild {
  import opened DeepTree
  import opened Sequences
  import opened Sums

  // ---- The root weighs as much as all symbols together ----

  /** Frequencies of the nodes whose `son` entry lies below m; 0 for the others. */
  ghost function Below(t: Tree, m: int): (s: seq<int>)
    requires Shape(t)
    ensures |s| == T
  {
    seq(T, p requires 0 <= p < T => if t.son[p] < m then t.freq[p] else 0)
  }

  lemma {:induction false} PairsSum(t: Tree, m: nat)
    requires Shape(t) && Linked(t) && Balanced(t) && m < T && m % 2 == 0
    ensures Sum(Below(t, m)) == Sum(t.freq[..m])
  {
    if m == 0 {
      assert Below(t, 0) == seq(T, p requires 0 <= p < T => 0) by {
        forall p | 0 <= p < T ensures t.son[p] >= 0 { assert SonOk(t.son[p], p); }
      }
      ZeroSum(T);
    } else {
      PairsSum(t, m - 2);
      PairAdded(t, m);
    }
  }

  lemma PairAdded(t: Tree, m: nat)
    requires Shape(t) && Linked(t) && Balanced(t) && 2 <= m < T && m % 2 == 0
    ensures Sum(Below(t, m)) == Sum(Below(t, m - 2)) + t.freq[m - 2] + t.freq[m - 1]
    ensures Sum(t.freq[..m]) == Sum(t.freq[..m - 2]) + t.freq[m - 2] + t.freq[m - 1]
  {
    hide Sum;
    var p := PairParent(t, m);
    assert Below(t, m) == Below(t, m - 2)[p := t.freq[p]];
    SumUpdate(Below(t, m - 2), p, t.freq[p]);
    assert t.freq[..m] == t.freq[..m - 2] + [t.freq[m - 2], t.freq[m - 1]];
    SumConcat(t.freq[..m - 2], [t.freq[m - 2], t.freq[m - 1]]);
    SumPair(t.freq[m - 2], t.freq[m - 1]);
  }

  /** Just one node has the pair below m for sons. */
  lemma PairParent(t: Tree, m: nat) returns (p: nat)
    requires Shape(t) && Linked(t) && Balanced(t) && 2 <= m < T && m % 2 == 0
    ensures p < T && t.son[p] == m - 2 && t.freq[p] == t.freq[m - 2] + t.freq[m - 1]
    ensures forall q :: 0 <= q < T ==> (t.son[q] < m <==> t.son[q] < m - 2 || q == p)
  {
    p := t.prnt[m - 2];
    assert Owns(t.son[p], m - 2) && SonOk(t.son[p], p);
    assert BalancedAt(t, p);
    forall q | 0 <= q < T ensures t.son[q] < m <==> t.son[q] < m - 2 || q == p {
      assert SonOk(t.son[q], q);
      if t.son[q] == m - 2 { assert Owns(t.son[q], m - 2); }
    }
  }

  lemma {:induction false} ZeroSum(n: nat)
    ensures Sum(seq(n, p requires 0 <= p < n => 0)) == 0
  {
    if n > 0 {
      ZeroSum(n - 1);
      assert seq(n, p requires 0 <= p < n => 0)[..n - 1] == seq(n - 1, p requires 0 <= p < n - 1 => 0);
    }
  }

  ghost function Weights(t: Tree, n: nat): (w: seq<int>)
    requires Shape(t) && Linked(t) && n <= N_CHAR
    ensures |w| == n
  {
    seq(n, x requires 0 <= x < n => Weight(t, x))
  }

  lemma {:induction false} LeavesSum(t: Tree, n: nat)
    requires Shape(t) && Linked(t) && Balanced(t) && n <= N_CHAR
    ensures Sum(Below(t, T + n)) == Sum(t.freq[..R]) + Sum(Weights(t, n))
  {
    if n == 0 {
      PairsSum(t, R);
      forall p | 0 <= p < T ensures t.son[p] < T <==> t.son[p] < R { assert SonOk(t.son[p], p); }
      assert Below(t, T) == Below(t, R);
    } else {
      LeavesSum(t, n - 1);
      var p := t.prnt[T + n - 1];
      assert Owns(t.son[p], T + n - 1) && SonOk(t.son[p], p);
      forall q | 0 <= q < T ensures t.son[q] < T + n <==> t.son[q] < T + n - 1 || q == p {
        if t.son[q] == T + n - 1 { assert Owns(t.son[q], T + n - 1); }
      }
      assert Below(t, T + n) == Below(t, T + n - 1)[p := t.freq[p]];
      SumUpdate(Below(t, T + n - 1), p, t.freq[p]);
      assert Weights(t, n)[..n - 1] == Weights(t, n - 1);
    }
  }

  /** The frequency of the root is the number of symbols recorded. */
  lemma RootIsTotal(t: Tree)
    requires Shape(t) && Linked(t) && Balanced(t)
    ensures t.freq[R] == Sum(Weights(t, N_CHAR))
    ensures Sum(Below(t, T)) + t.freq[R] == Sum(t.freq[..T])
  {
    LeavesSum(t, N_CHAR);
    LeavesSum(t, 0);
    forall p | 0 <= p < T ensures t.son[p] < T + N_CHAR { assert SonOk(t.son[p], p); }
    assert Below(t, T + N_CHAR) == t.freq[..T];
    assert t.freq[..T] == t.freq[..R] + [t.freq[R]];
    SumConcat(t.freq[..R], [t.freq[R]]);
    SumPair(t.freq[R], 0);
  }

  // ---- Phase 1: the leaves, in order, with halved frequencies ----

  function Half(f: int): int { (f + 1) / 2 }

  function LeafSons(son: seq<int>, i: nat): (r: seq<int>)
    requires i <= |son|
    ensures |r| <= i
  {
    if i == 0 then [] else LeafSons(son, i - 1) + if son[i - 1] >= T then [son[i - 1]] else []
  }

  function LeafFreqs(freq: seq<int>, son: seq<int>, i: nat): (r: seq<int>)
    requires i <= |son| && i <= |freq|
    ensures |r| == |LeafSons(son, i)|
  {
    if i == 0 then [] else LeafFreqs(freq, son, i - 1) + if son[i - 1] >= T then [Half(freq[i - 1])] else []
  }

  ghost predicate Increasing(s: seq<int>) {
    && (forall p :: 0 <= p < |s| ==> s[p] >= 1)
    && (forall p, q :: 0 <= p <= q < |s| ==> s[p] <= s[q])
  }

  /** The leaves among the first i nodes are those of the symbols whose parent is below i. */
  lemma {:induction false} LeavesCollected(t: Tree, i: nat)
    requires Shape(t) && Linked(t) && Balanced(t) && i <= T
    ensures var so := LeafSons(t.son, i);
      (forall s :: s in so <==> T <= s < T + N_CHAR && t.prnt[s] < i) && Distinct(so)
  {
    if i > 0 {
      LeavesCollected(t, i - 1);
      var v := t.son[i - 1];
      assert SonOk(v, i - 1) && Owns(v, v);
      forall s | T <= s < T + N_CHAR ensures t.prnt[s] == i - 1 <==> s == v {
        assert Owns(t.son[t.prnt[s]], s);
      }
    } else {
      forall s | T <= s < T + N_CHAR ensures t.prnt[s] >= 0 {
        assert Owns(t.son[t.prnt[s]], s);
      }
    }
  }

  /** so lists symbols of t and fr half their weights. */
  ghost predicate Halves(t: Tree, so: seq<int>, fr: seq<int>)
    requires Shape(t) && Linked(t)
  {
    |so| == |fr| && forall p :: 0 <= p < |so| ==> T <= so[p] < T + N_CHAR && fr[p] == Half(Weight(t, so[p] - T))
  }

  lemma {:induction false} LeavesHalved(t: Tree, i: nat)
    requires Shape(t) && Linked(t) && i <= T
    ensures Halves(t, LeafSons(t.son, i), LeafFreqs(t.freq, t.son, i))
  {
    if i > 0 {
      LeavesHalved(t, i - 1);
      var v := t.son[i - 1];
      assert SonOk(v, i - 1) && Owns(v, v);
    }
  }

  lemma AppendIncreasing(fr: seq<int>, f: int)
    requires Increasing(fr) && f >= 1 && (fr != [] ==> fr[|fr| - 1] <= f)
    ensures Increasing(fr + [f])
  {
    forall p, q | 0 <= p <= q <= |fr| ensures (fr + [f])[p] <= (fr + [f])[q] {
      if p < |fr| { assert fr[p] <= fr[|fr| - 1]; }
    }
  }

  lemma {:induction false} LeavesSorted(t: Tree, i: nat)
    requires Shape(t) && Ordered(t) && i <= T
    ensures var fr := LeafFreqs(t.freq, t.son, i);
      && Increasing(fr)
      && (fr != [] ==> fr[|fr| - 1] <= Half(t.freq[i - 1]))
  {
    hide Increasing;
    if i > 0 {
      LeavesSorted(t, i - 1);
      HalfGrows(t, i);
      var fr0 := LeafFreqs(t.freq, t.son, i - 1);
      AppendLeaf(fr0, Half(t.freq[i - 1]));
      assert fr0 + [] == fr0;
    } else {
      NothingIncreasing();
    }
  }

  lemma NothingIncreasing()
    ensures Increasing([])
  {
  }

  lemma AppendLeaf(fr: seq<int>, f: int)
    requires Increasing(fr) && f >= 1
    ensures fr != [] && fr[|fr| - 1] <= f ==> Increasing(fr + [f])
    ensures fr == [] ==> Increasing(fr + [f])
  {
    if fr == [] || fr[|fr| - 1] <= f { AppendIncreasing(fr, f); }
  }

  lemma HalfGrows(t: Tree, i: nat)
    requires Shape(t) && Ordered(t) && 0 < i <= T
    ensures Half(t.freq[i - 1]) >= 1 && (i > 1 ==> Half(t.freq[i - 2]) <= Half(t.freq[i - 1]))
  {
    assert t.freq[0] <= t.freq[i - 1];
    assert i > 1 ==> t.freq[i - 2] <= t.freq[i - 1];
  }

  lemma {:induction false} LeavesHalfSum(t: Tree, i: nat)
    requires Shape(t) && Linked(t) && Balanced(t) && i <= T
    ensures var fr := LeafFreqs(t.freq, t.son, i);
      2 * Sum(fr) <= Sum(t.freq[..i]) - Sum(Below(t, T)[..i]) + |fr|
  {
    if i > 0 {
      LeavesHalfSum(t, i - 1);
      assert t.freq[..i][..i - 1] == t.freq[..i - 1];
      assert Below(t, T)[..i][..i - 1] == Below(t, T)[..i - 1];
      var fr := LeafFreqs(t.freq, t.son, i - 1);
      assert fr + [] == fr;
      SumConcat(fr, [Half(t.freq[i - 1])]);
      SumPair(Half(t.freq[i - 1]), 0);
    }
  }

  lemma {:induction false} FullSet(s: seq<int>, lo: int, n: nat)
    requires Distinct(s)
    requires forall x :: x in s <==> lo <= x < lo + n
    ensures |s| == n
  {
    if n == 0 {
      assert forall p :: 0 <= p < |s| ==> s[p] in s;
    } else {
      assert lo + n - 1 in s;
      var i :| 0 <= i < |s| && s[i] == lo + n - 1;
      var u := s[..i] + s[i + 1..];
      forall x ensures x in u <==> lo <= x < lo + n - 1 {
        if x in s && x != s[i] {
          var k :| 0 <= k < |s| && s[k] == x;
          assert u[if k < i then k else k - 1] == x;
        }
      }
      FullSet(u, lo, n - 1);
    }
  }

  // ---- Phase 2: pair the two lightest free nodes and slide their parent into place ----

  /** Where a node of frequency f goes among the first hi nodes: just past the last not heavier. */
  function Slot(fr: seq<int>, f: int, hi: nat): (k: nat)
    requires hi <= |fr|
    ensures k <= hi
    ensures forall p :: k <= p < hi ==> f < fr[p]
    ensures k > 0 ==> fr[k - 1] <= f
  {
    if hi > 0 && f < fr[hi - 1] then Slot(fr, f, hi - 1) else hi
  }

  function Insert(s: seq<int>, k: nat, v: int): (r: seq<int>)
    requires k <= |s|
    ensures |r| == |s| + 1
  {
    s[..k] + [v] + s[k..]
  }

  /** The sons handed out so far: all symbols, and the m lowest pairs of nodes. */
  ghost predicate Handed(so: seq<int>, m: nat) {
    forall v :: v in so <==> T <= v < T + N_CHAR || (0 <= v < 2 * m && v % 2 == 0)
  }

  ghost predicate Grounded(so: seq<int>) {
    forall p :: 0 <= p < |so| ==> SonOk(so[p], p)
  }

  /** A leaf weighs what its symbol does, any other node as much as its two sons. */
  ghost predicate JoinedAt(fr: seq<int>, so: seq<int>, w: seq<int>, p: nat) {
    p < |fr| && p < |so| &&
    if so[p] >= T then so[p] - T < |w| && fr[p] == w[so[p] - T]
    else 0 <= so[p] && so[p] + 1 < |fr| && fr[p] == fr[so[p]] + fr[so[p] + 1]
  }

  ghost predicate Joined(fr: seq<int>, so: seq<int>, w: seq<int>) {
    forall p :: 0 <= p < |so| ==> JoinedAt(fr, so, w, p)
  }

  /** After m pairings, with w the weights of the symbols. */
  ghost predicate Forest(fr: seq<int>, so: seq<int>, m: nat, w: seq<int>) {
    && |fr| == |so| == N_CHAR + m <= T && |w| == N_CHAR
    && Increasing(fr) && Distinct(so) && Handed(so, m) && Grounded(so) && Joined(fr, so, w)
  }

  /** The next parent goes above every node that already has one. */
  lemma PairedNodesStay(fr: seq<int>, i: nat)
    requires Increasing(fr) && i + 1 < |fr|
    ensures i + 2 <= Slot(fr, fr[i] + fr[i + 1], |fr|)
    ensures fr[i] + fr[i + 1] <= Sum(fr[i..])
  {
    var k := Slot(fr, fr[i] + fr[i + 1], |fr|);
    assert fr[i] >= 1;
    LightestFit(fr, i);
  }

  lemma LightestFit(fr: seq<int>, i: nat)
    requires Increasing(fr) && i + 1 < |fr|
    ensures fr[i] + fr[i + 1] <= Sum(fr[i..])
  {
    var rest := fr[i + 2..];
    assert fr[i..] == [fr[i], fr[i + 1]] + rest;
    SumConcat([fr[i], fr[i + 1]], rest);
    SumPair(fr[i], fr[i + 1]);
    SumBound(rest, 0);
  }

  lemma InsertIncreasing(fr: seq<int>, f: int)
    requires Increasing(fr) && f >= 1
    ensures Increasing(Insert(fr, Slot(fr, f, |fr|), f))
  {
    var k := Slot(fr, f, |fr|);
    var r := Insert(fr, k, f);
    forall p, q | 0 <= p <= q < |r| ensures r[p] >= 1 && r[p] <= r[q] {
      assert r[p] == if p < k then fr[p] else if p == k then f else fr[p - 1];
      assert r[q] == if q < k then fr[q] else if q == k then f else fr[q - 1];
      assert p < k ==> fr[p] <= fr[k - 1];
    }
  }

  lemma InsertDistinct(so: seq<int>, k: nat, v: int)
    requires Distinct(so) && k <= |so| && v !in so
    ensures Distinct(Insert(so, k, v))
    ensures forall x :: x in Insert(so, k, v) <==> x in so || x == v
  {
    var r := Insert(so, k, v);
    forall p, q | 0 <= p < q < |r| ensures r[p] != r[q] {
      assert r[p] == if p < k then so[p] else if p == k then v else so[p - 1];
      assert r[q] == if q < k then so[q] else if q == k then v else so[q - 1];
    }
    assert so == so[..k] + so[k..];
  }

  lemma InsertJoined(fr: seq<int>, so: seq<int>, i: nat, k: nat, w: seq<int>)
    requires |fr| == |so| < T && |w| == N_CHAR && Grounded(so) && Joined(fr, so, w)
    requires i % 2 == 0 && i + 2 <= k <= |fr| && i + 2 <= T
    requires forall p :: 0 <= p < |so| ==> so[p] >= T || so[p] < i
    ensures Grounded(Insert(so, k, i)) && Joined(Insert(fr, k, fr[i] + fr[i + 1]), Insert(so, k, i), w)
  {
    var fr', so' := Insert(fr, k, fr[i] + fr[i + 1]), Insert(so, k, i);
    forall p | 0 <= p < |so'|
      ensures SonOk(so'[p], p) && JoinedAt(fr', so', w, p)
    {
      if p != k {
        var q := if p < k then p else p - 1;
        assert so'[p] == so[q] && fr'[p] == fr[q] && SonOk(so[q], q) && JoinedAt(fr, so, w, q);
        if so[q] < T { assert fr'[so[q]] == fr[so[q]] && fr'[so[q] + 1] == fr[so[q] + 1]; }
      } else {
        assert fr'[i] == fr[i] && fr'[i + 1] == fr[i + 1];
      }
    }
  }

  lemma MergeSum(fr: seq<int>, i: nat, k: nat)
    requires i + 2 <= k <= |fr|
    ensures Sum(Insert(fr, k, fr[i] + fr[i + 1])[i + 2..]) == Sum(fr[i..])
  {
    var f := fr[i] + fr[i + 1];
    assert Insert(fr, k, f)[i + 2..] == fr[i + 2..k] + ([f] + fr[k..]);
    assert fr[i..] == [fr[i], fr[i + 1]] + (fr[i + 2..k] + fr[k..]);
    SumConcat([fr[i], fr[i + 1]], fr[i + 2..k] + fr[k..]);
    SumConcat(fr[i + 2..k], fr[k..]);
    SumConcat(fr[i + 2..k], [f] + fr[k..]);
    SumConcat([f], fr[k..]);
    SumPair(fr[i], fr[i + 1]);
    SumPair(f, 0);
  }

  lemma HandedNext(so: seq<int>, k: nat, m: nat)
    requires Distinct(so) && Handed(so, m) && k <= |so| && 2 * m < T
    ensures Distinct(Insert(so, k, 2 * m)) && Handed(Insert(so, k, 2 * m), m + 1)
  {
    assert 2 * m !in so;
    InsertDistinct(so, k, 2 * m);
  }

  lemma HandedBelow(so: seq<int>, m: nat)
    requires Handed(so, m)
    ensures forall p :: 0 <= p < |so| ==> so[p] >= T || so[p] < 2 * m
  {
    forall p | 0 <= p < |so| ensures so[p] >= T || so[p] < 2 * m { assert so[p] in so; }
  }

  /** The step keeps the array sorted, and hands out the next pair of nodes. */
  lemma MergeStep(fr: seq<int>, so: seq<int>, m: nat, w: seq<int>, i: nat, f: int, k: nat)
    requires Forest(fr, so, m, w) && |fr| < T && i == 2 * m
    requires i + 1 < |fr| && f == fr[i] + fr[i + 1] && k == Slot(fr, f, |fr|)
    ensures i + 2 <= k
    ensures Forest(Insert(fr, k, f), Insert(so, k, i), m + 1, w)
    ensures Sum(Insert(fr, k, f)[i + 2..]) == Sum(fr[i..])
  {
    hide Insert, Slot, Increasing, Handed, Grounded, Joined, Sum, Distinct;
    PairedNodesStay(fr, i);
    MergeSum(fr, i, k);
    PairIsPositive(fr, i);
    InsertIncreasing(fr, f);
    HandedNext(so, k, m);
    HandedBelow(so, m);
    InsertJoined(fr, so, i, k, w);
  }

  lemma PairIsPositive(fr: seq<int>, i: nat)
    requires Increasing(fr) && i + 1 < |fr|
    ensures fr[i] + fr[i + 1] >= 1
  {
  }

  function Merge(fr: seq<int>, so: seq<int>, m: nat, ghost w: seq<int>): (r: (seq<int>, seq<int>))
    requires Forest(fr, so, m, w)
    ensures Forest(r.0, r.1, T - N_CHAR, w)
    ensures Sum(r.0[R..]) == Sum(fr[2 * m..])
    decreases T - |fr|
  {
    hide Insert, Slot, Increasing, Handed, Grounded, Joined, Sum;
    if |fr| < T then
      var f := fr[2 * m] + fr[2 * m + 1];
      var k := Slot(fr, f, |fr|);
      MergeStep(fr, so, m, w, 2 * m, f, k);
      Merge(Insert(fr, k, f), Insert(so, k, 2 * m), m + 1, w)
    else
      (fr, so)
  }

  lemma MergeNext(fr: seq<int>, so: seq<int>, m: nat, w: seq<int>, i: nat, f: int, k: nat)
    requires Forest(fr, so, m, w) && |fr| < T && i == 2 * m
    requires i + 1 < |fr| && f == fr[i] + fr[i + 1] && k == Slot(fr, f, |fr|)
    ensures Forest(Insert(fr, k, f), Insert(so, k, i), m + 1, w)
    ensures Merge(fr, so, m, w) == Merge(Insert(fr, k, f), Insert(so, k, i), m + 1, w)
    ensures Sum(Insert(fr, k, f)[i + 2..]) == Sum(fr[i..])
  {
    hide Insert, Slot, Increasing, Handed, Grounded, Joined, Sum;
    MergeStep(fr, so, m, w, i, f, k);
  }

  // ---- Phase 3: parents again ----

  function Relink(prnt: seq<int>, so: seq<int>, i: nat): (r: seq<int>)
    requires |prnt| == T + N_CHAR && i <= |so| <= T && Grounded(so)
    ensures |r| == |prnt|
  {
    if i == 0 then prnt else
      assert SonOk(so[i - 1], i - 1);
      Adopt(Relink(prnt, so, i - 1), so[i - 1], i - 1)
  }

  ghost predicate Pairwise(so: seq<int>) {
    forall p, q, x {:trigger Owns(so[p], x), Owns(so[q], x)} ::
      0 <= p < |so| && 0 <= q < |so| && Owns(so[p], x) && Owns(so[q], x) ==> p == q
  }

  lemma OwnersDiffer(so: seq<int>)
    requires |so| <= T && Distinct(so) && Grounded(so)
    ensures Pairwise(so)
  {
    forall p, q, x | 0 <= p < |so| && 0 <= q < |so| && Owns(so[p], x) && Owns(so[q], x)
      ensures p == q
    {
      assert SonOk(so[p], p) && SonOk(so[q], q);
    }
  }

  lemma {:induction false} RelinkedAt(prnt: seq<int>, so: seq<int>, i: nat, x: int)
    requires |prnt| == T + N_CHAR && i <= |so| <= T && Grounded(so) && Pairwise(so)
    requires 0 <= x < T + N_CHAR
    ensures forall p :: 0 <= p < i && Owns(so[p], x) ==> Relink(prnt, so, i)[x] == p
    ensures (forall p :: 0 <= p < i ==> !Owns(so[p], x)) ==> Relink(prnt, so, i)[x] == prnt[x]
  {
    if i > 0 {
      RelinkedAt(prnt, so, i - 1, x);
      assert SonOk(so[i - 1], i - 1);
      AdoptAt(Relink(prnt, so, i - 1), so[i - 1], i - 1, x);
    }
  }

  lemma RelinkLinks(fr: seq<int>, so: seq<int>, prnt: seq<int>)
    requires |fr| == T + 1 && |so| == T && |prnt| == T + N_CHAR && prnt[R] == 0
    requires Distinct(so) && Grounded(so) && Handed(so, T - N_CHAR)
    ensures Linked(Tree(fr, Relink(prnt, so, T), so))
  {
    var t := Tree(fr, Relink(prnt, so, T), so);
    OwnersDiffer(so);
    HandedBelow(so, T - N_CHAR);
    forall i, x | 0 <= i < T && Owns(so[i], x)
      ensures 0 <= x < T + N_CHAR && t.prnt[x] == i
    {
      assert SonOk(so[i], i);
      RelinkedAt(prnt, so, T, x);
    }
    forall x | 0 <= x < T + N_CHAR && x != R
      ensures 0 <= t.prnt[x] < T && Owns(so[t.prnt[x]], x)
    {
      assert (if x < T then x - x % 2 else x) in so;
      RelinkedAt(prnt, so, T, x);
    }
    forall p | 0 <= p < T ensures !Owns(so[p], R) { assert so[p] in so && SonOk(so[p], p); }
    RelinkedAt(prnt, so, T, R);
  }

  // ---- The whole rebuild ----

  ghost function HalfWeights(t: Tree): (w: seq<int>)
    requires Shape(t) && Linked(t)
    ensures |w| == N_CHAR
  {
    seq(N_CHAR, x requires 0 <= x < N_CHAR => Half(Weight(t, x)))
  }

  lemma LeavesForest(t: Tree)
    requires Valid(t)
    ensures Forest(LeafFreqs(t.freq, t.son, T), LeafSons(t.son, T), 0, HalfWeights(t))
    ensures 2 * Sum(LeafFreqs(t.freq, t.son, T)) <= t.freq[R] + N_CHAR
  {
    hide LeafSons, LeafFreqs, Sum, Increasing, Halves, Grounded, Joined, HalfWeights, Below;
    var so, fr := LeafSons(t.son, T), LeafFreqs(t.freq, t.son, T);
    LeavesCollected(t, T);
    LeavesSorted(t, T);
    LeavesHalved(t, T);
    forall s | T <= s < T + N_CHAR ensures t.prnt[s] < T { assert Owns(t.son[t.prnt[s]], s); }
    FullSet(so, T, N_CHAR);
    HalvesJoined(t, so, fr);
    LeavesLight(t);
  }

  lemma HalvesJoined(t: Tree, so: seq<int>, fr: seq<int>)
    requires Shape(t) && Linked(t) && Halves(t, so, fr)
    ensures Grounded(so) && Joined(fr, so, HalfWeights(t))
  {
    forall p | 0 <= p < |so| ensures SonOk(so[p], p) && JoinedAt(fr, so, HalfWeights(t), p) {}
  }

  lemma LeavesLight(t: Tree)
    requires Valid(t)
    ensures var fr := LeafFreqs(t.freq, t.son, T);
      2 * Sum(fr) <= t.freq[R] + |fr|
  {
    hide LeafFreqs, Sum, Below;
    LeavesHalfSum(t, T);
    RootIsTotal(t);
    assert Below(t, T)[..T] == Below(t, T);
  }

  function Rebuild(t: Tree): (r: Tree)
    requires Valid(t)
  {
    LeavesForest(t);
    var (fr, so) := Merge(LeafFreqs(t.freq, t.son, T), LeafSons(t.son, T), 0, HalfWeights(t));
    Tree(fr + [SENTINEL], Relink(t.prnt, so, T), so)
  }

  /** Rebuilding yields a valid tree with every weight halved, rounding up, and room to count on. */
  lemma RebuildKeepsTree(t: Tree)
    requires Valid(t)
    ensures Valid(Rebuild(t))
    ensures 2 * Rebuild(t).freq[R] <= t.freq[R] + N_CHAR
    ensures forall x: Symbol :: Weight(Rebuild(t), x) == (Weight(t, x) + 1) / 2
  {
    hide Merge, Relink, LeafFreqs, LeafSons, HalfWeights, Sum, Forest, Linked, Ordered, Balanced;
    LeavesForest(t);
    var fr0, so0, w := LeafFreqs(t.freq, t.son, T), LeafSons(t.son, T), HalfWeights(t);
    var (fr, so) := Merge(fr0, so0, 0, w);
    var r := Rebuild(t);
    NodeCount(fr, so, w);
    RootUnlinked(t);
    ForestIsTree(r, fr, so, t.prnt, w);
    RootAlone(fr0, fr);
    forall x: Symbol ensures Weight(r, x) == (Weight(t, x) + 1) / 2 {
      WeightInForest(r, fr, so, w, x);
      HalfWeightOf(t, x);
    }
  }

  lemma NodeCount(fr: seq<int>, so: seq<int>, w: seq<int>)
    requires Forest(fr, so, T - N_CHAR, w)
    ensures |fr| == |so| == T && |w| == N_CHAR && Grounded(so)
  {
  }

  lemma RootUnlinked(t: Tree)
    requires Valid(t)
    ensures t.prnt[R] == 0
  {
  }

  lemma RootAlone(fr0: seq<int>, fr: seq<int>)
    requires |fr| == T
    ensures fr0[0..] == fr0 && Sum(fr[R..]) == fr[R]
  {
    assert fr[R..] == [fr[R]];
    SumPair(fr[R], 0);
  }

  lemma HalfWeightOf(t: Tree, x: Symbol)
    requires Shape(t) && Linked(t)
    ensures HalfWeights(t)[x] == (Weight(t, x) + 1) / 2
  {
  }

  /** A forest of a single tree, with its parents linked, is a tree in order. */
  lemma ForestIsTree(r: Tree, fr: seq<int>, so: seq<int>, prnt: seq<int>, w: seq<int>)
    requires Forest(fr, so, T - N_CHAR, w) && |fr| == |so| == T && |prnt| == T + N_CHAR && prnt[R] == 0 && Grounded(so)
    requires r == Tree(fr + [SENTINEL], Relink(prnt, so, T), so)
    ensures Shape(r) && Linked(r) && Ordered(r) && Balanced(r)
  {
    hide Linked, Handed, Relink;
    RelinkLinks(r.freq, so, prnt);
    forall i | 0 <= i < T ensures BalancedAt(r, i) { assert JoinedAt(fr, so, w, i) && SonOk(so[i], i); }
    assert Ordered(r) by { assert r.freq[..T] == fr; }
  }

  lemma WeightInForest(r: Tree, fr: seq<int>, so: seq<int>, w: seq<int>, x: Symbol)
    requires Shape(r) && Linked(r) && r.freq == fr + [SENTINEL] && r.son == so && Forest(fr, so, T - N_CHAR, w)
    ensures Weight(r, x) == w[x]
  {
    hide Handed, Increasing;
    var p := r.prnt[x + T];
    assert Owns(so[p], x + T) && JoinedAt(fr, so, w, p) && SonOk(so[p], p);
  }

  // ---- Counting one symbol ----

  /** The tree after one occurrence of c. */
  function Count(t: Tree, c: Symbol): (r: Tree)
    requires Valid(t)
    ensures Valid(r)
  {
    RebuildKeepsTree(t);
    var t' := if t.freq[R] == MAX_FREQ then Rebuild(t) else t;
    LeafPending(t', c);
    Climb(t', t'.prnt[c + T])
  }

  lemma LeafPending(t: Tree, c: Symbol)
    requires Valid(t) && t.freq[R] < MAX_FREQ
    ensures Pending(t, t.prnt[c + T])
  {
    assert Owns(t.son[t.prnt[c + T]], c + T);
    assert SonOk(t.son[t.prnt[c + T]], t.prnt[c + T]);
  }

  /** Counting is exact: c gains one, every other symbol keeps its weight, after a halving of all
      weights when the root was saturated. */
  lemma CountIsExact(t: Tree, c: Symbol, x: Symbol)
    requires Valid(t)
    ensures var w := if t.freq[R] == MAX_FREQ then (Weight(t, x) + 1) / 2 else Weight(t, x);
      Weight(Count(t, c), x) == w + if x == c then 1 else 0
  {
    hide Climb, Rebuild, Linked, Ordered, Balanced, Pending, Weight;
    RebuildKeepsTree(t);
    var t' := if t.freq[R] == MAX_FREQ then Rebuild(t) else t;
    LeafPending(t', c);
    ClimbCounts(t', t'.prnt[c + T], x);
    LeafIsOwn(t', c, x);
  }

  lemma LeafIsOwn(t: Tree, c: Symbol, x: Symbol)
    requires Shape(t) && Linked(t)
    ensures t.prnt[x + T] == t.prnt[c + T] <==> x == c
  {
    assert Owns(t.son[t.prnt[c + T]], c + T) && Owns(t.son[t.prnt[x + T]], x + T);
    assert SonOk(t.son[t.prnt[c + T]], t.prnt[c + T]);
  }
}
