/** The three arrays of the "Deep" mode, changed in place as the decoder changes them. */
module DeepTables {
  import opened DeepTree
  import opened DeepRebuild
  import opened Sums
  import opened Arithmetic
  import opened Sequences

  /** Every symbol seen once: leaf x at node x, and the pairs joined from the bottom up. */
  ghost predicate Fresh(t: Tree) {
    && Valid(t)
    && (forall x: Symbol :: t.son[x] == x + T && Weight(t, x) == 1)
    && (forall j :: N_CHAR <= j < T ==> t.son[j] == 2 * (j - N_CHAR))
  }

  function FreshSon(p: nat): nat
    requires p < T
  {
    if p < N_CHAR then p + T else 2 * (p - N_CHAR)
  }

  ghost predicate PairsJoined(fr: seq<int>) {
    forall p :: N_CHAR <= p < |fr| && p < T ==> fr[p] == fr[FreshSon(p)] + fr[FreshSon(p) + 1]
  }

  lemma {:induction false} OnesSum(n: nat)
    ensures Sum(seq(n, _ => 1)) == n
  {
    if n > 0 {
      OnesSum(n - 1);
      assert seq(n, _ => 1)[..n - 1] == seq(n - 1, _ => 1);
    }
  }

  /** The frequencies while the fresh tree is being joined: the last pair joined is the heaviest. */
  ghost predicate FreshFreqs(fr: seq<int>) {
    && N_CHAR <= |fr| <= T && Increasing(fr) && PairsJoined(fr)
    && (forall p :: 0 <= p < N_CHAR ==> fr[p] == 1)
    && Sum(fr[2 * (|fr| - N_CHAR)..]) == N_CHAR
  }

  lemma OnesAreFresh(fr: seq<int>)
    requires |fr| == N_CHAR && forall p :: 0 <= p < N_CHAR ==> fr[p] == 1
    ensures FreshFreqs(fr)
  {
    OnesSum(N_CHAR);
    assert fr == seq(N_CHAR, _ => 1) && fr[0..] == fr;
  }

  lemma JoinNext(fr: seq<int>, i: nat)
    requires FreshFreqs(fr) && |fr| < T && i == 2 * (|fr| - N_CHAR)
    ensures i + 1 < |fr| && fr[i] + fr[i + 1] <= N_CHAR
    ensures FreshFreqs(fr + [fr[i] + fr[i + 1]])
  {
    hide Increasing, PairsJoined, Insert;
    var f := fr[i] + fr[i + 1];
    LightestFit(fr, i);
    LastIsLight(fr, i);
    AppendIncreasing(fr, f);
    AppendJoined(fr, i);
    MergeSum(fr, i, |fr|);
    InsertLast(fr, f);
    AppendOnes(fr, f);
  }

  lemma InsertLast(fr: seq<int>, f: int)
    ensures Insert(fr, |fr|, f) == fr + [f]
  {
  }

  lemma AppendOnes(fr: seq<int>, f: int)
    requires N_CHAR <= |fr| && forall p :: 0 <= p < N_CHAR ==> fr[p] == 1
    ensures forall p :: 0 <= p < N_CHAR ==> (fr + [f])[p] == 1
  {
  }

  /** The pair joined last is no heavier than the next. */
  lemma LastIsLight(fr: seq<int>, i: nat)
    requires FreshFreqs(fr) && |fr| < T && i == 2 * (|fr| - N_CHAR)
    ensures i + 1 < |fr| && fr[|fr| - 1] <= fr[i] + fr[i + 1] && fr[i] >= 1 && fr[i + 1] >= 1
  {
    hide Sum;
    if |fr| > N_CHAR {
      assert FreshSon(|fr| - 1) == i - 2 && fr[|fr| - 1] == fr[i - 2] + fr[i - 1];
      assert fr[i - 2] <= fr[i] && fr[i - 1] <= fr[i + 1];
    } else {
      assert fr[|fr| - 1] == 1;
    }
  }

  lemma AppendJoined(fr: seq<int>, i: nat)
    requires PairsJoined(fr) && N_CHAR <= |fr| < T && i == 2 * (|fr| - N_CHAR)
    ensures i + 1 < |fr| && PairsJoined(fr + [fr[i] + fr[i + 1]])
  {
  }

  lemma FreshIsValid(t: Tree, fr: seq<int>)
    requires Shape(t) && t.freq == fr + [SENTINEL] && |fr| == T && FreshFreqs(fr)
    requires forall p :: 0 <= p < T ==> t.son[p] == FreshSon(p)
    requires forall x {:trigger t.prnt[x]} :: 0 <= x < T + N_CHAR ==> t.prnt[x] == if x < R then N_CHAR + x / 2 else if x < T then 0 else x - T
    ensures Fresh(t)
  {
    assert fr[R..] == [fr[R]];
    SumPair(fr[R], 0);
    forall i | 0 <= i < T ensures BalancedAt(t, i) { assert FreshSon(i) >= 0; }
  }

  lemma LeavesStart(t: Tree)
    requires Shape(t)
    ensures LeafSons(t.son, 0) == [] && LeafFreqs(t.freq, t.son, 0) == []
  {
  }

  lemma LeavesNext(t: Tree, i: nat)
    requires Shape(t) && i < T
    ensures LeafSons(t.son, i + 1) == LeafSons(t.son, i) + if t.son[i] >= T then [t.son[i]] else []
    ensures LeafFreqs(t.freq, t.son, i + 1) == LeafFreqs(t.freq, t.son, i) + if t.son[i] >= T then [Half(t.freq[i])] else []
    ensures Half(t.freq[i]) == (t.freq[i] + 1) / 2
  {
  }

  lemma RootBound(t: Tree)
    requires Valid(t)
    ensures t.freq[R] <= MAX_FREQ
  {
  }

  lemma ClimbNext(t: Tree, c: nat)
    requires Pending(t, c)
    ensures Top(t, c) < T
    ensures var r, p := Bump(t, c), Bump(t, c).prnt[Top(t, c)];
      && (p == 0 ==> Climb(t, c) == r)
      && (p != 0 ==> Pending(r, p) && Climb(t, c) == Climb(r, p))
  {
    hide Valid, Pending, Bump, Top;
    BumpStep(t, c);
  }

  class Tables {
    const freq: array<u16>
    const prnt: array<u16>
    const son: array<u16>

    ghost predicate Separate()
      reads this
    {
      && freq.Length == T + 1 && prnt.Length == T + N_CHAR && son.Length == T
      && freq != prnt && freq != son && prnt != son
    }

    ghost function Contents(): (t: Tree)
      requires Separate()
      reads this, freq, prnt, son
      ensures Shape(t)
    {
      Tree(freq[..], prnt[..], son[..])
    }

    constructor ()
      ensures Separate() && fresh(freq) && fresh(prnt) && fresh(son)
      ensures forall x :: 0 <= x < prnt.Length ==> prnt[x] == 0
    {
      freq := new u16[T + 1](_ => 0);
      prnt := new u16[T + N_CHAR](_ => 0);
      son := new u16[T](_ => 0);
    }

    method InitLeaves()
      requires Separate()
      modifies freq, prnt, son
      ensures forall p :: 0 <= p < N_CHAR ==> freq[p] == 1 && son[p] == p + T
      ensures forall x {:trigger prnt[x]} :: T <= x < prnt.Length ==> prnt[x] == x - T
    {
      for i := 0 to N_CHAR
        invariant forall p :: 0 <= p < i ==> freq[p] == 1 && son[p] == p + T
        invariant forall x {:trigger prnt[x]} :: T <= x < T + i ==> prnt[x] == x - T
      {
        freq[i] := 1;
        son[i] := i + T;
        prnt[i + T] := i;
      }
    }

    /** Set up the tables, whatever earlier use has left in them. */
    method Init()
      requires Separate()
      modifies freq, prnt, son
      ensures Fresh(Contents())
    {
      hide FreshFreqs, Increasing, PairsJoined, Sum, Valid;
      InitLeaves();
      var i, j := 0, N_CHAR;
      ghost var fr: seq<int> := freq[..N_CHAR];
      OnesAreFresh(fr);
      while j <= R
        invariant N_CHAR <= j <= T && i == 2 * (j - N_CHAR)
        invariant freq[..j] == fr && |fr| == j && FreshFreqs(fr)
        invariant forall p :: 0 <= p < j ==> son[p] == FreshSon(p)
        invariant forall x {:trigger prnt[x]} :: 0 <= x < i ==> prnt[x] == N_CHAR + x / 2
        invariant forall x {:trigger prnt[x]} :: T <= x < prnt.Length ==> prnt[x] == x - T
      {
        JoinNext(fr, i);
        assert freq[..j][i] == freq[i] && freq[..j][i + 1] == freq[i + 1];
        freq[j] := freq[i] + freq[i + 1];
        son[j] := i;
        prnt[i] := j;
        prnt[i + 1] := j;
        fr := fr + [fr[i] + fr[i + 1]];
        i := i + 2;
        j := j + 1;
      }
      freq[T] := 0xffff;
      prnt[R] := 0;
      FreshIsValid(Contents(), fr);
    }

    /** First phase of the rebuild: the leaves, in order, at the front. */
    method CollectLeaves()
      requires Separate() && Valid(Contents())
      modifies freq, son
      ensures var t := old(Contents());
        && freq[..N_CHAR] == LeafFreqs(t.freq, t.son, T) && son[..N_CHAR] == LeafSons(t.son, T)
        && prnt[..] == t.prnt && freq[T] == SENTINEL
    {
      ghost var t := Contents();
      LeavesForest(t);
      hide Sum, Forest, Linked, Balanced, Ordered, LeafSons, LeafFreqs, Half;
      var j := 0;
      LeavesStart(t);
      for i := 0 to T
        invariant j == |LeafSons(t.son, i)| <= i
        invariant freq[..j] == LeafFreqs(t.freq, t.son, i) && son[..j] == LeafSons(t.son, i)
        invariant freq[T] == SENTINEL && forall p :: i <= p < T ==> freq[p] == t.freq[p] && son[p] == t.son[p]
      {
        LeavesNext(t, i);
        if son[i] >= T {
          KeepLeaf(i, j, Half(t.freq[i]), LeafFreqs(t.freq, t.son, i), LeafSons(t.son, i));
          j := j + 1;
        }
      }
    }

    /** Move the leaf at i to j, and halve its frequency. */
    method KeepLeaf(i: nat, j: nat, ghost half: int, ghost fr: seq<int>, ghost so: seq<int>)
      requires Separate() && j <= i < T && freq[..j] == fr && son[..j] == so
      requires half == Half(freq[i])
      modifies freq, son
      ensures freq[..j + 1] == fr + [half] && son[..j + 1] == so + [old(son[i])]
      ensures forall p :: i < p < T ==> freq[p] == old(freq[p]) && son[p] == old(son[p])
      ensures freq[T] == old(freq[T])
    {
      var f: int := freq[i];
      freq[j] := (f + 1) / 2;
      son[j] := son[i];
      assert freq[..j] == fr && son[..j] == so;
    }

    /** Second phase: join the two lightest free nodes until one is left. */
    method JoinPairs(ghost w: seq<int>)
      requires Separate() && Forest(freq[..N_CHAR], son[..N_CHAR], 0, w)
      requires 2 * Sum(freq[..N_CHAR]) <= MAX_FREQ + N_CHAR
      modifies freq, son
      ensures (freq[..T], son[..]) == Merge(old(freq[..N_CHAR]), old(son[..N_CHAR]), 0, w)
      ensures freq[T] == old(freq[T])
    {
      hide Increasing, Distinct, Handed, Grounded, Joined, Insert, Slot, Sum;
      ghost var fr: seq<int>, so: seq<int>, m := freq[..N_CHAR], son[..N_CHAR], 0;
      ghost var goal := Merge(fr, so, 0, w);
      assert fr[0..] == fr;
      var i, j := 0, N_CHAR;
      while j < T
        invariant Forest(fr, so, m, w) && Merge(fr, so, m, w) == goal
        invariant i == 2 * m && j == N_CHAR + m <= T
        invariant freq[..j] == fr && son[..j] == so && freq[T] == old(freq[T])
        invariant 2 * Sum(fr[i..]) <= MAX_FREQ + N_CHAR
      {
        ghost var f := fr[i] + fr[i + 1];
        ghost var k := Slot(fr, f, |fr|);
        JoinNextPair(i, j, fr, so);
        MergeNext(fr, so, m, w, i, f, k);
        fr, so, m := Insert(fr, k, f), Insert(so, k, i), m + 1;
        i := i + 2;
        j := j + 1;
      }
      assert son[..] == so;
    }

    /** Node i and its neighbour get a parent, which is slid into place below j. */
    method JoinNextPair(i: nat, j: nat, ghost fr: seq<int>, ghost so: seq<int>)
      requires Separate() && i + 1 < j < T && freq[..j] == fr && son[..j] == so
      requires Increasing(fr) && 2 * Sum(fr[i..]) <= MAX_FREQ + N_CHAR
      modifies freq, son
      ensures var f := fr[i] + fr[i + 1]; var k := Slot(fr, f, |fr|);
        freq[..j + 1] == Insert(fr, k, f) && son[..j + 1] == Insert(so, k, i)
      ensures freq[T] == old(freq[T])
    {
      hide Sum, Increasing, Insert, Slot;
      var k := i + 1;
      LightestFit(fr, i);
      PairedNodesStay(fr, i);
      assert freq[..j][i] == freq[i] && freq[..j][k] == freq[k];
      var f: u16 := freq[i] + freq[k];
      ghost var before := freq[..];
      freq[j] := f;
      assert freq[..j] == before[..j];
      var kk := Place(f, j, fr);
      SlideIn(freq, kk, j, f);
      SlideIn(son, kk, j, i);
    }

    /** Look down from j for the place of a node of frequency f. */
    method Place(f: u16, j: nat, ghost fr: seq<int>) returns (kk: nat)
      requires Separate() && 0 < j < T && freq[..j] == fr && 0 < Slot(fr, f, |fr|)
      ensures kk == Slot(fr, f, |fr|)
    {
      kk := j - 1;
      assert freq[..j][kk] == freq[kk];
      while f < freq[kk]
        invariant kk < j && Slot(fr, f, kk + 1) == Slot(fr, f, |fr|)
        decreases kk
      {
        assert freq[..j][kk] == freq[kk];
        kk := kk - 1;
      }
      assert freq[..j][kk] == freq[kk];
      kk := kk + 1;
    }

    /** Put v at k, moving the entries from there up to j one place up. */
    static method SlideIn(a: array<u16>, k: nat, j: nat, v: u16)
      requires k <= j < a.Length
      modifies a
      ensures a[..j + 1] == Insert(old(a[..j]), k, v)
      ensures a[j + 1..] == old(a[j + 1..])
    {
      forall p | k <= p < j { a[p + 1] := a[p]; }
      a[k] := v;
    }

    /** Third phase: every node tells its sons who their parent is. */
    method RelinkParents()
      requires Separate() && Grounded(son[..])
      modifies prnt
      ensures prnt[..] == Relink(old(prnt[..]), son[..], T)
    {
      ghost var so := son[..];
      for i := 0 to T
        invariant prnt[..] == Relink(old(prnt[..]), so, i)
      {
        assert SonOk(so[i], i);
        var k := son[i];
        if k >= T {
          prnt[k] := i;
        } else {
          prnt[k] := i;
          prnt[k + 1] := i;
        }
      }
    }

    /** Halve all frequencies and rebuild the tree. */
    method Reconstruct()
      requires Separate() && Valid(Contents())
      modifies freq, prnt, son
      ensures Contents() == Rebuild(old(Contents()))
    {
      ghost var t := Contents();
      LeavesForest(t);
      CollectLeaves();
      JoinPairs(HalfWeights(t));
      assert freq[..] == freq[..T] + [freq[T]];
      RelinkParents();
    }

    /** Nodes c and l swap sons, and frequency k settles on l. */
    method Swap(c: nat, l: nat, k: u16)
      requires Separate() && Linked(Contents()) && c < T && l < T
      modifies freq, prnt, son
      ensures Contents() == Exchange(old(Contents()), c, l, k)
    {
      ghost var t := Contents();
      assert SonOk(t.son[c], c) && SonOk(t.son[l], l);
      freq[c] := freq[l];
      freq[l] := k;
      var i := son[c];
      prnt[i] := l;
      if i < T { prnt[i + 1] := l; }
      var j := son[l];
      son[l] := i;
      prnt[j] := c;
      if j < T { prnt[j + 1] := c; }
      son[c] := j;
    }

    /** Count the node at c, which trades places with the last of its former equals. */
    method Raise(c: nat) returns (l: nat)
      requires Separate() && Pending(Contents(), c)
      modifies freq, prnt, son
      ensures l == Top(old(Contents()), c) && Contents() == Bump(old(Contents()), c)
    {
      ghost var t := Contents();
      TopIsBelowRoot(t, c);
      freq[c] := freq[c] + 1;
      var k := freq[c];
      l := c + 1;
      if k > freq[l] {
        while k > freq[l + 1]
          invariant c < l <= Top(t, c)
          decreases T - l
        {
          l := l + 1;
        }
        Swap(c, l, k);
      } else {
        l := c;
        BumpInPlace(t, c);
      }
    }

    /** Count symbol c. */
    method Update(c: Symbol)
      requires Separate() && Valid(Contents())
      modifies freq, prnt, son
      ensures Contents() == Count(old(Contents()), c)
      ensures Valid(Contents())
    {
      hide Valid, Pending, Climb, Bump, Top, Rebuild, Linked, Ordered, Balanced;
      RebuildKeepsTree(Contents());
      RootBound(Contents());
      if freq[R] == MAX_FREQ {
        Reconstruct();
      }
      LeafPending(Contents(), c);
      var idx := prnt[c + T];
      ghost var goal := Climb(Contents(), idx);
      while true
        invariant Pending(Contents(), idx) && Climb(Contents(), idx) == goal
        decreases T - idx
      {
        BumpStep(Contents(), idx);
        ClimbNext(Contents(), idx);
        idx := Raise(idx);
        var p := prnt[idx];
        if p == 0 { break; }
        idx := p;
      }
    }
  }
}
