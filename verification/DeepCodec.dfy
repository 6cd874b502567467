/** Decoding with the adaptive tree of the "Deep" mode undoes encoding with it. */
module DeepCodec {
  import opened Arithmetic
  import opened BitReader
  import opened DeepTree
  import opened DeepRebuild
  import opened DeepTables

  // ---- Codes ----

  ghost function Leaf(t: Tree, x: Symbol): (p: nat)
    requires Valid(t)
    ensures p < T && t.son[p] == x + T
  {
    assert Owns(t.son[t.prnt[x + T]], x + T) && SonOk(t.son[t.prnt[x + T]], t.prnt[x + T]);
    t.prnt[x + T]
  }

  lemma ParentIsAbove(t: Tree, p: nat)
    requires Valid(t) && p < R
    ensures p < t.prnt[p] < T && t.son[t.prnt[p]] == p - p % 2
  {
    assert Owns(t.son[t.prnt[p]], p) && SonOk(t.son[t.prnt[p]], t.prnt[p]);
  }

  /** The turns from the root down to node p: an encoder collects them climbing up `prnt`. */
  ghost function Path(t: Tree, p: nat): seq<bit>
    requires Valid(t) && p < T
    decreases T - p
  {
    if p == R then [] else
      ParentIsAbove(t, p);
      Path(t, t.prnt[p]) + [p % 2]
  }

  ghost function Code(t: Tree, x: Symbol): seq<bit>
    requires Valid(t)
  {
    Path(t, Leaf(t, x))
  }

  ghost predicate Reads(data: seq<byte>, cur: nat, bits: seq<bit>) {
    forall k :: 0 <= k < |bits| ==> Bit(data, cur + k) == bits[k]
  }

  lemma ReadsOne(data: seq<byte>, cur: nat, b: bit)
    ensures Reads(data, cur, [b]) <==> Bit(data, cur) == b
  {
    hide Bit;
    assert [b][0] == b && cur + 0 == cur;
  }

  lemma ReadsBoth(data: seq<byte>, cur: nat, a: seq<bit>, b: seq<bit>)
    ensures Reads(data, cur, a + b) <==> Reads(data, cur, a) && Reads(data, cur + |a|, b)
  {
    hide Bit;
    if Reads(data, cur, a + b) {
      forall k | 0 <= k < |a| ensures Bit(data, cur + k) == a[k] { assert (a + b)[k] == a[k]; }
      forall k | 0 <= k < |b| ensures Bit(data, cur + |a| + k) == b[k] { assert (a + b)[|a| + k] == b[k]; }
    }
    if Reads(data, cur, a) && Reads(data, cur + |a|, b) {
      forall k | 0 <= k < |a + b| ensures Bit(data, cur + k) == (a + b)[k] {
        if k >= |a| { assert Bit(data, cur + |a| + (k - |a|)) == b[k - |a|]; }
      }
    }
  }

  // ---- Decoding one symbol ----

  /** What a `son` entry can be. */
  predicate Entry(s: int) {
    0 <= s < T + N_CHAR && (s < T ==> s % 2 == 0 && s < R)
  }

  /** Descend from son entry s; the symbol reached, and the position in the stream after it. */
  ghost function Descend(t: Tree, data: seq<byte>, cur: nat, s: nat): (r: (Symbol, nat))
    requires Valid(t) && Entry(s)
    decreases if s < T then s + 1 else 0
  {
    if s >= T then (s - T, cur) else
      var s' := t.son[s + Bit(data, cur)];
      assert SonOk(s', s + Bit(data, cur));
      Descend(t, data, cur + 1, s')
  }

  ghost function Decode(t: Tree, data: seq<byte>, cur: nat): (r: (Symbol, nat))
    requires Valid(t)
  {
    RootPair(t);
    Descend(t, data, cur, t.son[R])
  }

  /** Reading the path of a node leads the descent to that node. */
  lemma {:induction false} DescentFollowsPath(t: Tree, data: seq<byte>, cur: nat, p: nat)
    requires Valid(t) && p < T && Reads(data, cur, Path(t, p))
    ensures SonOk(t.son[p], p)
    ensures Decode(t, data, cur) == Descend(t, data, cur + |Path(t, p)|, t.son[p])
    decreases T - p
  {
    hide Bit, Ordered, Balanced, Reads;
    assert SonOk(t.son[p], p);
    if p != R {
      ParentIsAbove(t, p);
      var q := t.prnt[p];
      ReadsBoth(data, cur, Path(t, q), [p % 2]);
      DescentFollowsPath(t, data, cur, q);
      ReadsOne(data, cur + |Path(t, q)|, p % 2);
    }
  }

  /** Wherever the code of x stands in the stream, x is decoded and exactly its code consumed. */
  lemma DecodeOfCode(t: Tree, data: seq<byte>, cur: nat, x: Symbol)
    requires Valid(t) && Reads(data, cur, Code(t, x))
    ensures Decode(t, data, cur) == (x, cur + |Code(t, x)|)
  {
    DescentFollowsPath(t, data, cur, Leaf(t, x));
  }

  /** Any bits at all decode to a symbol, and it is the one whose code they are. */
  lemma {:induction false} DescentReadsPath(t: Tree, data: seq<byte>, start: nat, cur: nat, p: nat)
    requires Valid(t) && p < T && cur == start + |Path(t, p)| && Reads(data, start, Path(t, p))
    ensures SonOk(t.son[p], p)
    ensures var (x, end) := Descend(t, data, cur, t.son[p]);
      Reads(data, start, Code(t, x)) && end == start + |Code(t, x)|
    decreases p
  {
    hide Bit, Ordered, Balanced, Reads;
    assert SonOk(t.son[p], p);
    var s := t.son[p];
    if s < T {
      var q := s + Bit(data, cur);
      assert Owns(s, q) && t.prnt[q] == p;
      assert Path(t, q) == Path(t, p) + [q % 2];
      ReadsBoth(data, start, Path(t, p), [q % 2]);
      ReadsOne(data, cur, q % 2);
      DescentReadsPath(t, data, start, cur + 1, q);
    } else {
      assert Owns(s, s) && t.prnt[s] == p;
    }
  }

  lemma DecodedIsCode(t: Tree, data: seq<byte>, cur: nat)
    requires Valid(t)
    ensures var (x, end) := Decode(t, data, cur);
      Reads(data, cur, Code(t, x)) && end == cur + |Code(t, x)|
  {
    DescentReadsPath(t, data, cur, cur, R);
  }

  // ---- Sequences of symbols: encoder and decoder keep step ----

  ghost function EncodeAll(t: Tree, xs: seq<Symbol>): seq<bit>
    requires Valid(t)
    decreases |xs|
  {
    if xs == [] then [] else Code(t, xs[0]) + EncodeAll(Count(t, xs[0]), xs[1..])
  }

  ghost function DecodeAll(t: Tree, data: seq<byte>, cur: nat, n: nat): (xs: seq<Symbol>)
    requires Valid(t)
    ensures |xs| == n
    decreases n
  {
    if n == 0 then [] else
      var (x, cur') := Decode(t, data, cur);
      [x] + DecodeAll(Count(t, x), data, cur', n - 1)
  }

  lemma {:induction false} DecodeUndoesEncode(t: Tree, data: seq<byte>, cur: nat, xs: seq<Symbol>)
    requires Valid(t) && Reads(data, cur, EncodeAll(t, xs))
    ensures DecodeAll(t, data, cur, |xs|) == xs
    decreases |xs|
  {
    hide Valid, Reads, Bit, Path, Decode, Count;
    if xs != [] {
      var code, rest := Code(t, xs[0]), EncodeAll(Count(t, xs[0]), xs[1..]);
      ReadsBoth(data, cur, code, rest);
      DecodeOfCode(t, data, cur, xs[0]);
      DecodeUndoesEncode(Count(t, xs[0]), data, cur + |code|, xs[1..]);
    }
  }

  // ---- Bits packed into bytes ----

  ghost function PackByte(bits: seq<bit>, n: nat): (v: nat)
    requires n <= 8
    ensures v < Pow2(n)
  {
    if n == 0 then 0 else 2 * PackByte(bits, n - 1) + if n - 1 < |bits| then bits[n - 1] else 0
  }

  ghost function Pack(bits: seq<bit>): seq<byte>
    decreases |bits|
  {
    Pow2Values();
    if bits == [] then [] else [PackByte(bits, 8)] + Pack(if |bits| <= 8 then [] else bits[8..])
  }

  lemma {:induction false} PackByteAt(bits: seq<bit>, n: nat, k: nat)
    requires k < n <= 8
    ensures PackByte(bits, n) / Pow2(n - 1 - k) % 2 == if k < |bits| then bits[k] else 0
  {
    var v := PackByte(bits, n - 1);
    if k < n - 1 {
      PackByteAt(bits, n - 1, k);
      DropLastBit(v, PackByte(bits, n) - 2 * v, Pow2(n - 2 - k));
      assert Pow2(n - 1 - k) == 2 * Pow2(n - 2 - k);
    } else {
      assert Pow2(0) == 1;
    }
  }

  lemma DropLastBit(v: nat, b: bit, p: nat)
    requires p > 0
    ensures (2 * v + b) / (2 * p) == v / p
  {
    var q, r := v / p, v % p;
    assert v == q * p + r;
    MulDouble(q, p);
    QuotientIs(2 * v + b, 2 * p, q, 2 * r + b);
  }

  lemma {:induction false} PackReads(bits: seq<bit>, k: nat)
    requires k < |bits|
    ensures Bit(Pack(bits), k) == bits[k]
    decreases |bits|
  {
    var rest := if |bits| <= 8 then [] else bits[8..];
    assert Pack(bits) == [PackByte(bits, 8)] + Pack(rest);
    if k < 8 {
      PackByteAt(bits, 8, k);
    } else {
      PackReads(rest, k - 8);
      assert k / 8 == (k - 8) / 8 + 1 && k % 8 == (k - 8) % 8;
      assert ByteAt(Pack(bits), k / 8) == ByteAt(Pack(rest), (k - 8) / 8);
    }
  }

  /** From any tree, decoding the packed codes of a sequence of symbols returns the sequence. */
  lemma RoundTrip(t: Tree, xs: seq<Symbol>)
    requires Valid(t)
    ensures DecodeAll(t, Pack(EncodeAll(t, xs)), 0, |xs|) == xs
  {
    var bits := EncodeAll(t, xs);
    forall k | 0 <= k < |bits| ensures Bit(Pack(bits), 0 + k) == bits[k] { PackReads(bits, k); }
    DecodeUndoesEncode(t, Pack(bits), 0, xs);
  }

  // ---- The decoder itself ----

  method DecodeChar(tables: Tables, br: BitReader) returns (x: Symbol)
    requires tables.Separate() && Valid(tables.Contents()) && br.Valid()
    modifies tables.freq, tables.prnt, tables.son, br
    ensures br.Valid()
    ensures (x, br.Cursor()) == Decode(old(tables.Contents()), br.data, old(br.Cursor()))
    ensures tables.Contents() == Count(old(tables.Contents()), x) && Valid(tables.Contents())
  {
    hide Valid, Bit, Count;
    ghost var t := tables.Contents();
    RootPair(t);
    var c := tables.son[R];
    while c < T
      invariant br.Valid() && tables.Contents() == t && Entry(c)
      invariant Decode(t, br.data, old(br.Cursor())) == Descend(t, br.data, br.Cursor(), c)
      decreases if c < T then c + 1 else 0
    {
      DescendStep(t, br.data, br.Cursor(), c);
      var b := br.Get(1);
      c := tables.son[c + b];
    }
    x := c - T;
    tables.Update(x);
  }

  lemma RootPair(t: Tree)
    requires Valid(t)
    ensures Entry(t.son[R])
  {
    assert SonOk(t.son[R], R);
  }

  lemma DescendStep(t: Tree, data: seq<byte>, cur: nat, s: nat)
    requires Valid(t) && Entry(s) && s < T
    ensures var b := Field(data, cur, 1);
      && 0 <= b < 2 && Entry(t.son[s + b]) && (t.son[s + b] < T ==> t.son[s + b] < s)
      && Descend(t, data, cur, s) == Descend(t, data, cur + 1, t.son[s + b])
  {
    assert Field(data, cur, 0) == 0;
    var b := Field(data, cur, 1);
    assert b == Bit(data, cur);
    assert SonOk(t.son[s + b], s + b);
  }
}
