/** Sums of integer sequences. */
module Sums {

  function Sum(s: seq<int>): int {
    if s == [] then 0 else Sum(s[..|s| - 1]) + s[|s| - 1]
  }

  lemma {:induction false} SumConcat(a: seq<int>, b: seq<int>)
    ensures Sum(a + b) == Sum(a) + Sum(b)
    decreases |b|
  {
    if b == [] {
      assert a + b == a;
    } else {
      SumConcat(a, b[..|b| - 1]);
      assert (a + b)[..|a + b| - 1] == a + b[..|b| - 1];
    }
  }

  lemma SumPair(x: int, y: int)
    ensures Sum([x]) == x
    ensures Sum([x, y]) == x + y
  {
    assert [x, y][..1] == [x];
  }

  lemma SumUpdate(s: seq<int>, i: nat, v: int)
    requires i < |s|
    ensures Sum(s[i := v]) == Sum(s) - s[i] + v
  {
    SumConcat(s[..i], [s[i]] + s[i + 1..]);
    SumConcat(s[..i], [v] + s[i + 1..]);
    SumConcat([s[i]], s[i + 1..]);
    SumConcat([v], s[i + 1..]);
    SumPair(s[i], v);
    SumPair(v, v);
    assert s == s[..i] + ([s[i]] + s[i + 1..]);
    assert s[i := v] == s[..i] + ([v] + s[i + 1..]);
  }

  lemma {:induction false} SumBound(s: seq<int>, lo: int)
    requires forall i :: 0 <= i < |s| ==> s[i] >= lo
    ensures Sum(s) >= |s| * lo
  {
    if s != [] { SumBound(s[..|s| - 1], lo); }
  }
}
