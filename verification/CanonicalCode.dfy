/** Canonical prefix codes: the code lengths of n symbols decide which part of the code space
    each symbol gets.

    The code space is [0, SPACE); a symbol of length l takes an interval of 2^(32 - l), and the
    intervals are handed out in order of length and, among equals, of symbol. */
module CanonicalCode {
  import opened Arithmetic

  const SPACE: nat := 0x1_0000_0000

  type Lengths = seq<nat>

  /** The share of the code space for a code of length l; lengths 0 and over 32 get none. */
  function Share(l: nat): (r: nat)
    ensures r > 0 <==> 1 <= l <= 32
  {
    if 1 <= l <= 32 then Pow2(32 - l) else 0
  }

  /** Symbol j, of length l, comes no later than symbol c of length len. */
  predicate Before(l: nat, j: int, len: nat, c: int) {
    1 <= l <= 32 && (l < len || (l == len && j <= c))
  }

  /** Code space used up by the first n symbols that come no later than (len, c). */
  ghost function Used(bl: Lengths, n: nat, len: nat, c: int): (u: nat)
    requires n <= |bl|
  {
    if n == 0 then 0 else Used(bl, n - 1, len, c) + if Before(bl[n - 1], n - 1, len, c) then Share(bl[n - 1]) else 0
  }

  /** How many symbols those are. */
  ghost function Taken(bl: Lengths, n: nat, len: nat, c: int): (u: nat)
    requires n <= |bl|
    ensures u <= n
  {
    if n == 0 then 0 else Taken(bl, n - 1, len, c) + if Before(bl[n - 1], n - 1, len, c) then 1 else 0
  }

  /** All the code space the lengths ask for. */
  ghost function Demand(bl: Lengths, n: nat): nat
    requires n <= |bl|
  {
    Used(bl, n, 33, -1)
  }

  /** Where the interval of symbol j begins. */
  ghost function Start(bl: Lengths, n: nat, j: nat): int
    requires j < n <= |bl|
  {
    Used(bl, n, bl[j], j) - Share(bl[j])
  }

  ghost predicate NoneBetween(bl: Lengths, len: nat, lo: int, hi: int) {
    forall j :: 0 <= j < |bl| && lo < j < hi ==> bl[j] != len
  }

  /** Taking the next symbol of length len. */
  lemma {:induction false} TakeNext(bl: Lengths, n: nat, len: nat, c: int, c': nat)
    requires n <= |bl| && 1 <= len <= 32 && -1 <= c < c'
    requires NoneBetween(bl, len, c, c') && c' < |bl| && bl[c'] == len
    ensures Used(bl, n, len, c') == Used(bl, n, len, c) + if c' < n then Share(len) else 0
    ensures Taken(bl, n, len, c') == Taken(bl, n, len, c) + if c' < n then 1 else 0
  {
    if n > 0 { TakeNext(bl, n - 1, len, c, c'); }
  }

  /** When a length is exhausted the next one begins. */
  lemma {:induction false} NextLength(bl: Lengths, n: nat, len: nat, c: int)
    requires n <= |bl| && NoneBetween(bl, len, c, n)
    ensures Used(bl, n, len + 1, -1) == Used(bl, n, len, c)
    ensures Taken(bl, n, len + 1, -1) == Taken(bl, n, len, c)
  {
    if n > 0 { NextLength(bl, n - 1, len, c); }
  }

  lemma {:induction false} AllUsed(bl: Lengths, n: nat, c: int)
    requires n <= |bl|
    ensures Used(bl, n, 33, c) == Demand(bl, n)
  {
    if n > 0 { AllUsed(bl, n - 1, c); }
  }

  /** The symbols still to come are at least len long: enough of them must be left for the
      space that is left. */
  lemma {:induction false} EnoughLeft(bl: Lengths, n: nat, len: nat, c: int, d: nat)
    requires n <= |bl| && d <= len && 1 <= d <= 32
    ensures 0 <= Taken(bl, n, 33, -1) - Taken(bl, n, len, c)
    ensures 0 <= Demand(bl, n) - Used(bl, n, len, c) <= (Taken(bl, n, 33, -1) - Taken(bl, n, len, c)) * Share(d)
  {
    if n > 0 {
      EnoughLeft(bl, n - 1, len, c, d);
      var l := bl[n - 1];
      MulSplit(Taken(bl, n - 1, 33, -1) - Taken(bl, n - 1, len, c), 1, Share(d));
      if 1 <= l <= 32 && !Before(l, n - 1, len, c) {
        Pow2Grows(32 - l, 32 - d);
      }
    }
  }

  /** Intervals of different symbols do not meet. */
  lemma IntervalsApart(bl: Lengths, n: nat, i: nat, j: nat)
    requires i < n <= |bl| && j < n && i != j && bl[j] <= 32 && Before(bl[i], i, bl[j], j)
    ensures Start(bl, n, i) + Share(bl[i]) <= Start(bl, n, j)
  {
    UsedGrows(bl, n, bl[i], i, bl[j], j);
  }

  lemma {:induction false} UsedGrows(bl: Lengths, n: nat, len: nat, i: int, len': nat, j: nat)
    requires n <= |bl| && j < |bl| && bl[j] == len' && (len < len' <= 32 || (len == len' && i < j))
    ensures Used(bl, n, len, i) + (if j < n then Share(len') else 0) <= Used(bl, n, len', j)
  {
    if n > 0 { UsedGrows(bl, n - 1, len, i, len', j); }
  }

  lemma {:induction false} NothingUsed(bl: Lengths, n: nat)
    requires n <= |bl|
    ensures Used(bl, n, 1, -1) == 0 && Taken(bl, n, 1, -1) == 0
  {
    if n > 0 { NothingUsed(bl, n - 1); }
  }

  lemma {:induction false} UsedAligned(bl: Lengths, n: nat, len: nat, c: int) returns (q: nat)
    requires n <= |bl| && 1 <= len <= 32
    ensures Used(bl, n, len, c) == q * Share(len)
  {
    if n == 0 {
      q := 0;
    } else {
      q := UsedAligned(bl, n - 1, len, c);
      var l := bl[n - 1];
      if Before(l, n - 1, len, c) {
        Pow2Adds(len - l, 32 - len);
        MulSplit(q, Pow2(len - l), Share(len));
        q := q + Pow2(len - l);
      }
    }
  }

  /** The bl[j] bits of the code of j. */
  ghost function Codeword(bl: Lengths, n: nat, j: nat): nat
    requires j < n <= |bl| && 1 <= bl[j] <= 32
  {
    HasItself(bl, n, j);
    High(Start(bl, n, j), 32 - bl[j])
  }

  /** The interval of j consists of the numbers that begin with the code of j. */
  lemma StartAligned(bl: Lengths, n: nat, j: nat)
    requires j < n <= |bl| && 1 <= bl[j] <= 32
    ensures Start(bl, n, j) == Codeword(bl, n, j) * Share(bl[j])
  {
    hide High, Pow2, Used;
    var w := Share(bl[j]);
    var q := UsedAligned(bl, n, bl[j], j);
    HasItself(bl, n, j);
    MulSplit(q, 1, w);
    MulSplit(q - 1, 1, w);
    HighIs(Start(bl, n, j), 32 - bl[j], q - 1);
  }

  lemma {:induction false} HasItself(bl: Lengths, n: nat, j: nat)
    requires j < n <= |bl| && 1 <= bl[j] <= 32
    ensures Used(bl, n, bl[j], j) >= Share(bl[j])
  {
    if j < n - 1 { HasItself(bl, n - 1, j); }
  }
}
