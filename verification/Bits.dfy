/** The bits of a byte, the high bit first. */
module Bits {
  import opened Arithmetic

  function Weight(k: nat): (w: nat)
    requires k < 8
  {
    match k
    case 0 => 128 case 1 => 64 case 2 => 32 case 3 => 16 case 4 => 8 case 5 => 4 case 6 => 2 case 7 => 1
  }

  function BitAt(x: byte, k: nat): (r: nat)
    requires k < 8
    ensures r < 2
  {
    x / Weight(k) % 2
  }

  function WithBit(x: byte, k: nat, v: nat): (r: byte)
    requires k < 8 && v < 2
    ensures BitAt(r, k) == v && forall j :: 0 <= j < 8 && j != k ==> BitAt(r, j) == BitAt(x, j)
  {
    BitChange(x, k, v);
    x + (v - BitAt(x, k)) * Weight(k)
  }

  /** A byte is the sum of its bits, and its bits are determined by that. */
  lemma OfBits(a: bit, b: bit, c: bit, d: bit, e: bit, f: bit, g: bit, h: bit)
    ensures var y := 128 * a + 64 * b + 32 * c + 16 * d + 8 * e + 4 * f + 2 * g + h;
      && 0 <= y < 256
      && BitAt(y, 0) == a && BitAt(y, 1) == b && BitAt(y, 2) == c && BitAt(y, 3) == d
      && BitAt(y, 4) == e && BitAt(y, 5) == f && BitAt(y, 6) == g && BitAt(y, 7) == h
  {
    HighBits(a, b, c, d, 8 * e + 4 * f + 2 * g + h);
    LowBits(8 * a + 4 * b + 2 * c + d, e, f, g, h);
  }

  lemma HighBits(a: bit, b: bit, c: bit, d: bit, r: nat)
    requires r < 16
    ensures var y := 128 * a + 64 * b + 32 * c + 16 * d + r;
      0 <= y < 256 && BitAt(y, 0) == a && BitAt(y, 1) == b && BitAt(y, 2) == c && BitAt(y, 3) == d
  {
    var y := 128 * a + 64 * b + 32 * c + 16 * d + r;
    assert y / 128 == a && y / 64 == 2 * a + b && y / 32 == 4 * a + 2 * b + c && y / 16 == 8 * a + 4 * b + 2 * c + d;
  }

  lemma LowBits(q: nat, e: bit, f: bit, g: bit, h: bit)
    requires q < 16
    ensures var y := 16 * q + 8 * e + 4 * f + 2 * g + h;
      0 <= y < 256 && BitAt(y, 4) == e && BitAt(y, 5) == f && BitAt(y, 6) == g && BitAt(y, 7) == h
  {
    var y := 16 * q + 8 * e + 4 * f + 2 * g + h;
    assert y / 8 == 2 * q + e && y / 4 == 4 * q + 2 * e + f && y / 2 == 8 * q + 4 * e + 2 * f + g;
  }

  lemma ToBits(x: byte)
    ensures x == 128 * BitAt(x, 0) + 64 * BitAt(x, 1) + 32 * BitAt(x, 2) + 16 * BitAt(x, 3)
      + 8 * BitAt(x, 4) + 4 * BitAt(x, 5) + 2 * BitAt(x, 6) + BitAt(x, 7)
  {
    assert x / 128 / 2 == 0 && x / 64 / 2 == x / 128 && x / 32 / 2 == x / 64 && x / 16 / 2 == x / 32;
    assert x / 8 / 2 == x / 16 && x / 4 / 2 == x / 8 && x / 2 / 2 == x / 4;
  }

  lemma BitChange(x: byte, k: nat, v: nat)
    requires k < 8 && v < 2
    ensures 0 <= x + (v - BitAt(x, k)) * Weight(k) < 256
    ensures BitAt(x + (v - BitAt(x, k)) * Weight(k), k) == v
    ensures forall j :: 0 <= j < 8 && j != k ==> BitAt(x + (v - BitAt(x, k)) * Weight(k), j) == BitAt(x, j)
  {
    hide BitAt;
    ToBits(x);
    var a, b, c, d, e, f, g, h := BitAt(x, 0), BitAt(x, 1), BitAt(x, 2), BitAt(x, 3), BitAt(x, 4), BitAt(x, 5), BitAt(x, 6), BitAt(x, 7);
    match k
    case 0 => OfBits(v, b, c, d, e, f, g, h);
    case 1 => OfBits(a, v, c, d, e, f, g, h);
    case 2 => OfBits(a, b, v, d, e, f, g, h);
    case 3 => OfBits(a, b, c, v, e, f, g, h);
    case 4 => OfBits(a, b, c, d, v, f, g, h);
    case 5 => OfBits(a, b, c, d, e, v, g, h);
    case 6 => OfBits(a, b, c, d, e, f, v, h);
    case 7 => OfBits(a, b, c, d, e, f, g, v);
  }
}
