/** Sequences as sets of numbers, and how many numbers a set can hold. */
module FiniteSets {
  import opened Sequences

  ghost function Set(s: seq<nat>): set<nat> {
    set i | 0 <= i < |s| :: s[i]
  }

  lemma SetMembers(s: seq<nat>)
    ensures forall i :: 0 <= i < |s| ==> s[i] in Set(s)
  {
  }

  lemma SetAppend(s: seq<nat>, x: nat)
    ensures Set(s + [x]) == Set(s) + {x}
  {
    assert (s + [x])[|s|] == x;
    forall y | y in Set(s) ensures y in Set(s + [x]) {
      var i :| 0 <= i < |s| && s[i] == y;
      assert (s + [x])[i] == y;
    }
  }

  lemma PrefixSet(s: seq<nat>, s': seq<nat>)
    requires s <= s'
    ensures Set(s) <= Set(s')
  {
    assert forall i :: 0 <= i < |s| ==> s[i] == s'[i];
  }

  lemma {:induction false} DistinctSize(s: seq<nat>)
    requires Distinct(s)
    ensures |Set(s)| == |s|
  {
    if s != [] {
      var m := |s| - 1;
      DistinctSize(s[..m]);
      assert s[..m] + [s[m]] == s;
      SetAppend(s[..m], s[m]);
      assert s[m] !in Set(s[..m]);
    }
  }

  lemma {:induction false} Between(s: set<nat>, lo: nat, hi: nat)
    requires lo <= hi && forall x :: x in s ==> lo <= x < hi
    ensures |s| <= hi - lo
    decreases hi
  {
    if lo < hi {
      Between(s - {hi - 1}, lo, hi - 1);
      assert s <= s - {hi - 1} + {hi - 1};
    } else {
      assert s == {};
    }
  }

  lemma {:induction false} RangeSize(s: set<nat>, lo: nat, hi: nat)
    requires lo <= hi && forall b :: b in s <==> lo <= b < hi
    ensures |s| == hi - lo
    decreases hi
  {
    if lo < hi {
      RangeSize(s - {hi - 1}, lo, hi - 1);
    } else {
      assert s == {};
    }
  }

  lemma {:induction false} SubsetSize(a: set<nat>, b: set<nat>)
    requires a <= b
    ensures |a| <= |b|
  {
    if x :| x in a {
      SubsetSize(a - {x}, b - {x});
    }
  }

  lemma DistinctBelow(blocks: seq<nat>, n: nat)
    requires forall i :: 0 <= i < |blocks| ==> blocks[i] < n
    requires Distinct(blocks)
    ensures |Set(blocks)| == |blocks| <= n
  {
    DistinctSize(blocks);
    Between(Set(blocks), 0, n);
  }
}
