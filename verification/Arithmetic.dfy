/** Machine-sized numbers; multiplication, division and powers of two. */
module Arithmetic {

  type byte = x: int | 0 <= x < 0x100
  type bit = x: int | 0 <= x < 2
  type u16 = x: int | 0 <= x < 0x10000
  type u32 = x: int | 0 <= x < 0x1_0000_0000

  function Min(a: nat, b: nat): nat {
    if a < b then a else b
  }

  lemma MulGrows(a: int, b: int, c: nat)
    requires a <= b
    ensures a * c <= b * c
  {
  }

  lemma MulSplit(a: int, b: int, c: int)
    ensures (a + b) * c == a * c + b * c
    ensures (a - b) * c == a * c - b * c
  {
  }

  lemma MulDouble(a: int, b: int)
    ensures a * (2 * b) == 2 * (a * b) == (2 * a) * b
  {
  }

  lemma QuotientUnique(p: nat, q: int, r: int, q': int, r': int)
    requires 0 <= r < p && 0 <= r' < p && q * p + r == q' * p + r'
    ensures q == q' && r == r'
  {
    if q < q' {
      MulGrows(q + 1, q', p);
      MulSplit(q, 1, p);
    } else if q' < q {
      MulGrows(q' + 1, q, p);
      MulSplit(q', 1, p);
    }
  }

  lemma QuotientIs(b: nat, p: nat, q: nat, r: nat)
    requires r < p && b == q * p + r
    ensures b / p == q && b % p == r
  {
    QuotientUnique(p, b / p, b % p, q, r);
  }

  function Pow2(n: nat): (r: nat)
    ensures r > 0
  {
    if n == 0 then 1 else 2 * Pow2(n - 1)
  }

  lemma Pow2Zero()
    ensures Pow2(0) == 1
  {
  }

  lemma Pow2Next(n: nat)
    requires n > 0
    ensures Pow2(n) == 2 * Pow2(n - 1)
  {
  }

  lemma {:induction false} Pow2Adds(m: nat, n: nat)
    ensures Pow2(m + n) == Pow2(m) * Pow2(n)
  {
    if n > 0 {
      Pow2Adds(m, n - 1);
      MulDouble(Pow2(m), Pow2(n - 1));
    }
  }

  lemma {:induction false} Pow2Grows(m: nat, n: nat)
    requires m <= n
    ensures Pow2(m) <= Pow2(n)
  {
    if m < n { Pow2Grows(m, n - 1); }
  }

  lemma Pow2Values()
    ensures Pow2(8) == 0x100 && Pow2(15) == 0x8000 && Pow2(16) == 0x10000 && Pow2(32) == 0x1_0000_0000
  {
    assert Pow2(8) == 0x100;
    assert Pow2(12) == 0x1000;
    assert Pow2(20) == 0x10_0000;
    assert Pow2(24) == 0x100_0000;
    assert Pow2(28) == 0x1000_0000;
  }

  /** x without its low k bits. */
  function High(x: nat, k: nat): (q: nat)
    ensures q * Pow2(k) <= x < (q + 1) * Pow2(k)
  {
    hide Pow2;
    MulSplit(x / Pow2(k), 1, Pow2(k));
    x / Pow2(k)
  }

  lemma HighIs(x: nat, k: nat, q: nat)
    requires q * Pow2(k) <= x < (q + 1) * Pow2(k)
    ensures High(x, k) == q
  {
    hide Pow2, High;
    var h, p := High(x, k), Pow2(k);
    MulSplit(h, 1, p);
    MulSplit(q, 1, p);
    QuotientUnique(p, h, x - h * p, q, x - q * p);
  }

  /** Dropping k bits less keeps one bit more. */
  lemma HighHalf(x: nat, k: nat)
    ensures High(x, k + 1) == High(x, k) / 2
  {
    hide High;
    var h := High(x, k);
    MulDouble(h / 2, Pow2(k));
    MulDouble(h / 2 + 1, Pow2(k));
    MulGrows(2 * (h / 2), h, Pow2(k));
    MulGrows(h + 1, 2 * (h / 2 + 1), Pow2(k));
    HighIs(x, k + 1, h / 2);
  }
}
