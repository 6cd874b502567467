/** The shift-register bit reader of the DMS decoders.

    The register is a number: shifting it left by 8 and or-ing in a byte is `* 256 + byte`,
    shifting right by n divides by Pow2(n), and masking to n bits keeps the remainder. */
module BitReader {
  import opened Arithmetic

  // ---- The stream: the data, most significant bit first, and zeros for ever after ----

  function ByteAt(data: seq<byte>, j: nat): byte {
    if j < |data| then data[j] else 0
  }

  function Bit(data: seq<byte>, k: nat): bit {
    ByteAt(data, k / 8) / Pow2(7 - k % 8) % 2
  }

  /** The number written by the n bits at position at. */
  function Field(data: seq<byte>, at: nat, n: nat): (v: nat)
    ensures v < Pow2(n)
  {
    if n == 0 then 0 else 2 * Field(data, at, n - 1) + Bit(data, at + n - 1)
  }

  lemma {:induction false} FieldSplit(data: seq<byte>, at: nat, m: nat, n: nat)
    ensures Field(data, at, m + n) == Field(data, at, m) * Pow2(n) + Field(data, at + m, n)
  {
    hide Field, Bit, Pow2;
    if n == 0 {
      NoBits(data, at + m);
      Pow2Zero();
    } else {
      FieldSplit(data, at, m, n - 1);
      FieldNext(data, at, m + n);
      FieldNext(data, at + m, n);
      Pow2Next(n);
      SplitStep(Field(data, at, m), Pow2(n - 1), Pow2(n), Field(data, at + m, n - 1), Field(data, at + m, n),
                Field(data, at, m + n - 1), Bit(data, at + m + n - 1));
    }
  }

  lemma FieldNext(data: seq<byte>, at: nat, n: nat)
    requires n > 0
    ensures Field(data, at, n) == 2 * Field(data, at, n - 1) + Bit(data, at + n - 1)
  {
    hide Bit;
  }

  lemma SplitStep(a: nat, p: nat, p': nat, f: nat, f': nat, g: nat, b: nat)
    requires p' == 2 * p && f' == 2 * f + b && g == a * p + f
    ensures 2 * g + b == a * p' + f'
  {
    MulDouble(a, p);
  }

  lemma {:induction false} ByteBits(data: seq<byte>, j: nat, n: nat)
    requires n <= 8
    ensures Field(data, 8 * j, n) == High(ByteAt(data, j), 8 - n)
    ensures n == 8 ==> Field(data, 8 * j, n) == ByteAt(data, j)
  {
    hide Field, Bit, High, Pow2;
    var b := ByteAt(data, j);
    if n == 0 {
      NoBits(data, 8 * j);
      Pow2Values();
      HighIs(b, 8, 0);
    } else {
      ByteBits(data, j, n - 1);
      FieldNext(data, 8 * j, n);
      BitOfByte(data, j, n - 1);
      HighHalf(b, 8 - n);
      AllBits(b);
    }
  }

  lemma NoBits(data: seq<byte>, at: nat)
    ensures Field(data, at, 0) == 0
  {
  }

  lemma AllBits(b: nat)
    ensures High(b, 0) == b
  {
  }

  lemma BitOfByte(data: seq<byte>, j: nat, n: nat)
    requires n < 8
    ensures Bit(data, 8 * j + n) == High(ByteAt(data, j), 7 - n) % 2
  {
    hide Pow2;
    assert (8 * j + n) / 8 == j && (8 * j + n) % 8 == n;
  }

  /** The high m bits of an (m + n)-bit field, and its low n bits. */
  lemma FieldParts(data: seq<byte>, at: nat, m: nat, n: nat)
    ensures Field(data, at, m + n) / Pow2(n) == Field(data, at, m)
    ensures Field(data, at, m + n) % Pow2(n) == Field(data, at + m, n)
  {
    hide Field, Pow2;
    FieldSplit(data, at, m, n);
    QuotientIs(Field(data, at, m + n), Pow2(n), Field(data, at, m), Field(data, at + m, n));
  }

  /** The field once one more byte has been shifted in. */
  lemma FieldGrows(data: seq<byte>, fed: nat, n: nat)
    requires n <= 8 * fed && n <= 15
    ensures Field(data, 8 * fed - n, n + 8) == Field(data, 8 * fed - n, n) * 256 + ByteAt(data, fed)
    ensures Field(data, 8 * fed - n, n) < 0x8000
  {
    hide Field, Pow2;
    Pow2Values();
    Pow2Grows(n, 15);
    FieldSplit(data, 8 * fed - n, n, 8);
    ByteBits(data, fed, 8);
  }

  class BitReader {
    const data: seq<byte>
    var pos: nat
    var bitbuf: u32
    var bitcount: u32
    /** Bytes shifted in so far, counting the zeros after the end of the data. */
    ghost var fed: nat

    /** The register holds the stream bits just before 8 * fed. */
    ghost predicate Holds()
      reads this
    {
      && pos == (if fed <= |data| then fed else |data|)
      && bitcount <= 8 * fed && bitcount < 24
      && bitbuf == Field(data, 8 * fed - bitcount, bitcount)
    }

    ghost predicate Valid()
      reads this
    {
      Holds() && 16 <= bitcount
    }

    /** Position in the stream of the next bit to deliver. */
    ghost function Cursor(): nat
      requires Holds()
      reads this
    {
      8 * fed - bitcount
    }

    constructor (data: seq<byte>)
      ensures Valid() && Cursor() == 0 && this.data == data
    {
      this.data := data;
      pos, bitbuf, bitcount, fed := 0, 0, 0, 0;
      new;
      Fill();
    }

    method Fill()
      requires Holds()
      modifies this
      ensures Valid() && Cursor() == old(Cursor())
    {
      hide Field;
      while bitcount < 16
        invariant Holds() && Cursor() == old(Cursor())
      {
        var b: byte := 0;
        if pos < |data| {
          b := data[pos];
          pos := pos + 1;
        }
        FieldGrows(data, fed, bitcount);
        bitbuf := bitbuf * 256 + b;
        bitcount := bitcount + 8;
        fed := fed + 1;
      }
    }

    /** The next n bits, without consuming them. */
    method Peek(n: nat) returns (v: u16)
      requires Valid() && n <= 16
      ensures v == Field(data, Cursor(), n)
    {
      hide Field, Pow2;
      FieldParts(data, Cursor(), n, bitcount - n);
      Pow2Grows(n, 16);
      Pow2Values();
      v := bitbuf / Pow2(bitcount - n);
    }

    /** Consume n bits. */
    method Drop(n: nat)
      requires Valid() && n <= bitcount
      modifies this
      ensures Valid() && Cursor() == old(Cursor()) + n
    {
      hide Field, Pow2;
      ghost var cur := Cursor();
      FieldParts(data, cur, n, bitcount - n);
      ghost var rest := Field(data, cur + n, bitcount - n);
      bitcount := bitcount - n;
      bitbuf := bitbuf % Pow2(bitcount);
      assert bitbuf == rest && 8 * fed - bitcount == cur + n;
      Fill();
    }

    /** The next n bits of the stream. */
    method Get(n: nat) returns (v: u16)
      requires Valid() && n <= 16
      modifies this
      ensures Valid() && Cursor() == old(Cursor()) + n
      ensures v == Field(data, old(Cursor()), n)
    {
      v := Peek(n);
      Drop(n);
    }
  }
}
