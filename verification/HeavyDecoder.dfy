/** Decoding symbols of the DMS "Heavy" mode: a table look-up, and a descent that sees at most
    16 bits more. */
module HeavyDecoder {
  import opened Arithmetic
  import opened Wrappers
  import opened CanonicalCode
  import opened HeavyTable
  import opened BitReader

  /** The bits that the descent can see. */
  const SEEN := 16

  /** The 32-bit window x with all but its first k bits taken for zeros. */
  ghost function Cut(x: nat, k: nat): nat
    requires k <= 32
  {
    High(x, 32 - k) * Pow2(32 - k)
  }

  lemma CutSees(x: nat, k: nat, e: nat)
    requires e <= k <= 32
    ensures High(Cut(x, k), 32 - e) == High(x, 32 - e)
  {
    hide High, Pow2;
    var a, b := 32 - k, k - e;
    var q, h := High(x, a + b), High(x, a);
    Pow2Adds(b, a);
    assert q * Pow2(a + b) == (q * Pow2(b)) * Pow2(a);
    if h + 1 <= q * Pow2(b) { MulGrows(h + 1, q * Pow2(b), Pow2(a)); }
    MulGrows(q * Pow2(b), h, Pow2(a));
    HighIs(h * Pow2(a), a + b, q);
  }

  /** Beyond the cut there are only zeros. */
  lemma CutHides(x: nat, k: nat, e: nat)
    requires k < e <= 32
    ensures High(Cut(x, k), 32 - e) % 2 == 0
  {
    hide High, Pow2;
    var h, half := High(x, 32 - k), Pow2(e - k - 1);
    Pow2Adds(e - k, 32 - e);
    Pow2Next(e - k);
    MulDouble(h, half);
    var q := 2 * (h * half);
    Regrouped(h, 2 * half, Pow2(32 - e));
    MulSplit(q, 1, Pow2(32 - e));
    HighIs(Cut(x, k), 32 - e, q);
  }

  lemma Regrouped(a: nat, b: nat, c: nat)
    ensures a * (b * c) == (a * b) * c
  {
  }

  lemma CutBelow(x: nat, k: nat)
    requires k <= 32 && x < SPACE
    ensures Cut(x, k) <= x < Cut(x, k) + Pow2(32 - k) && Cut(x, k) < SPACE
  {
    hide High, Pow2;
    MulSplit(High(x, 32 - k), 1, Pow2(32 - k));
  }

  // ---- The stream as windows ----

  lemma WindowHigh(data: seq<byte>, at: nat, e: nat)
    requires e <= 32
    ensures Field(data, at, 32) < SPACE && High(Field(data, at, 32), 32 - e) == Field(data, at, e)
  {
    hide Field, Pow2;
    Pow2Values();
    FieldSplit(data, at, e, 32 - e);
    MulSplit(Field(data, at, e), 1, Pow2(32 - e));
    HighIs(Field(data, at, 32), 32 - e, Field(data, at, e));
  }

  lemma FieldLast(data: seq<byte>, at: nat, n: nat)
    ensures Field(data, at, n + 1) % 2 == Bit(data, at + n)
  {
    hide Bit;
  }

  lemma SeenBit(data: seq<byte>, at: nat, k: nat)
    requires k < SEEN
    ensures Field(data, at, SEEN) / Pow2(SEEN - 1 - k) % 2 == Bit(data, at + k)
  {
    hide Field, Pow2, Bit;
    FieldParts(data, at, k + 1, SEEN - 1 - k);
    FieldLast(data, at, k);
  }

  /** Bit tb + k of the window as the descent sees it. */
  lemma WindowBit(data: seq<byte>, at: nat, tb: nat, k: nat)
    requires tb <= 15 && tb + k < 32
    ensures High(SeenWindow(data, at, tb), 31 - (tb + k)) % 2
         == if k < SEEN then Field(data, at + tb, SEEN) / Pow2(SEEN - 1 - k) % 2 else 0
  {
    hide High, Pow2, Field, Bit, Cut;
    if k < SEEN {
      WindowBitSeen(data, at, tb, k);
      SeenBit(data, at + tb, k);
    } else {
      CutHides(Field(data, at, 32), tb + SEEN, tb + k + 1);
    }
  }

  lemma WindowBitSeen(data: seq<byte>, at: nat, tb: nat, k: nat)
    requires tb <= 15 && k < SEEN
    ensures High(SeenWindow(data, at, tb), 31 - (tb + k)) % 2 == Bit(data, at + tb + k)
  {
    hide High, Pow2, Field, Bit, Cut;
    var e := tb + k + 1;
    CutSees(Field(data, at, 32), tb + SEEN, e);
    WindowHigh(data, at, e);
    FieldLast(data, at, tb + k);
  }

  // ---- Decoding one symbol ----

  /** The window at the cursor, as far as it is looked at. */
  ghost function SeenWindow(data: seq<byte>, at: nat, tb: nat): nat
    requires tb <= 15
  {
    Cut(Field(data, at, 32), tb + SEEN)
  }

  lemma SeenSlot(data: seq<byte>, at: nat, tb: nat)
    requires tb <= 15
    ensures SeenWindow(data, at, tb) < SPACE && High(SeenWindow(data, at, tb), 32 - tb) == Field(data, at, tb) < Pow2(tb)
  {
    hide High, Pow2;
    WindowHigh(data, at, tb);
    CutSees(Field(data, at, 32), tb + SEEN, tb);
    CutBelow(Field(data, at, 32), tb + SEEN);
  }

  /** Where the descent stands after d bits of the window x: at entry j, over the part of the code
      space that begins with those bits. */
  ghost predicate At(l: seq<int>, g: seq<int>, bl: Lengths, n: nat, j: int, x: nat, d: nat, found: int) {
    && 1 <= n <= |bl| && d <= 32 && 0 <= found < n && Walk(l, g, n, j, x, d) == found
    && exists a :: Above(l, g, bl, n, j, x, d, a)
  }

  ghost predicate Above(l: seq<int>, g: seq<int>, bl: Lengths, n: nat, j: int, x: nat, d: nat, a: int)
    requires n <= |bl| && d <= 32
  {
    Covers(l, g, bl, n, j, High(x, 32 - d) * Pow2(32 - d), d, a, 2 * n - 1)
  }

  /** One bit of the descent: down to the left for a 0, to the right for a 1. */
  lemma DescentStep(l: seq<int>, g: seq<int>, bl: Lengths, n: nat, j: int, x: nat, d: nat, found: int)
    requires At(l, g, bl, n, j, x, d, found) && n <= j
    ensures j < 2 * n - 1 && d < 32 && j < |l| && j < |g|
    ensures var son := if High(x, 31 - d) % 2 == 0 then l[j] else g[j];
      At(l, g, bl, n, son, x, d + 1, found) && 0 <= son && (son < n || j < son)
  {
    hide High, Pow2, Covers, Walk;
    var a :| Above(l, g, bl, n, j, x, d, a);
    var lo := High(x, 32 - d) * Pow2(32 - d);
    SonsCover(l, g, bl, n, j, lo, d, a, 2 * n - 1);
    MoveDown(High(x, 32 - d), d);
    HighHalf(x, 31 - d);
    var h := High(x, 31 - d);
    var son := if h % 2 == 0 then l[j] else g[j];
    assert h == 2 * High(x, 32 - d) + h % 2;
    WalkDown(l, g, n, j, x, d);
    assert Above(l, g, bl, n, son, x, d + 1, j + 1);
    SonIsAbove(l, g, bl, n, son, h * Pow2(31 - d), d + 1, j + 1, 2 * n - 1);
  }

  lemma SonIsAbove(l: seq<int>, g: seq<int>, bl: Lengths, n: nat, v: int, lo: int, d: nat, a: int, b: int)
    requires n <= |bl| && Covers(l, g, bl, n, v, lo, d, a, b)
    ensures 0 <= v < n || a <= v
  {
  }

  lemma AtSymbol(l: seq<int>, g: seq<int>, bl: Lengths, n: nat, j: int, x: nat, d: nat, found: int)
    requires At(l, g, bl, n, j, x, d, found) && 0 <= j < n
    ensures j == found && bl[j] == d
  {
  }

  lemma AtSlot(table: seq<int>, l: seq<int>, g: seq<int>, bl: Lengths, n: nat, tb: nat, x: nat)
    requires TableOk(table, l, g, bl, n, tb) && x < SPACE
    ensures High(x, 32 - tb) < |table|
    ensures var j, found := table[High(x, 32 - tb)], Lookup(table, l, g, n, tb, x);
      && 0 <= found < n && 0 <= j && if j < n then j == found && 1 <= bl[j] <= tb else At(l, g, bl, n, j, x, tb, found)
  {
    hide High, Pow2;
    LookupMatches(table, l, g, bl, n, tb, x);
    TopBitsInTable(x, tb);
    var s := High(x, 32 - tb);
    assert SlotOk(l, g, bl, n, tb, s, table[s], n, 2 * n - 1);
    if !(0 <= table[s] < n) { assert Above(l, g, bl, n, table[s], x, tb, n); }
  }

  /** The symbol found for the bits at a position. */
  ghost function Found(table: seq<int>, left: seq<int>, right: seq<int>, bl: Lengths, n: nat, tb: nat, x: nat): (j: int)
    requires TableOk(table, left, right, bl, n, tb) && x < SPACE
    ensures 0 <= j < n
  {
    CutBelow(x, tb + SEEN);
    AtSlot(table, left, right, bl, n, tb, Cut(x, tb + SEEN));
    Lookup(table, left, right, n, tb, Cut(x, tb + SEEN))
  }

  /** Follow 16 bits of the stream, and then zeros, from entry j0 down to a symbol. */
  method Descend(left: array<u16>, right: array<u16>, ghost bl: seq<byte>, n: u16, ghost tb: nat, j0: u16, i: u16,
                 ghost data: seq<byte>, ghost at: nat, ghost found: int)
    returns (j: u16)
    requires tb <= 15 && n <= j0 && At(left[..], right[..], bl, n, j0, SeenWindow(data, at, tb), tb, found)
    requires i == Field(data, at + tb, SEEN)
    ensures j == found && tb <= bl[j]
  {
    hide At, High, Pow2, Field, SeenWindow;
    j := j0;
    var m := 0x8000;
    ghost var l, g, x, k: nat := left[..], right[..], SeenWindow(data, at, tb), 0;
    Pow2Values();
    while true
      invariant n <= j && At(l, g, bl, n, j, x, tb + k, found)
      invariant m == if k < SEEN then Pow2(SEEN - 1 - k) else 0
      decreases 2 * n - j
    {
      DescentStep(l, g, bl, n, j, x, tb + k, found);
      WindowBit(data, at, tb, k);
      HalveMask(k);
      if m != 0 && i / m % 2 != 0 {
        j := right[j];
      } else {
        j := left[j];
      }
      m := m / 2;
      k := k + 1;
      if j < n {
        break;
      }
    }
    AtSymbol(l, g, bl, n, j, x, tb + k, found);
  }

  lemma HalveMask(k: nat)
    ensures k + 1 < SEEN ==> Pow2(SEEN - 1 - k) / 2 == Pow2(SEEN - 1 - (k + 1))
    ensures k + 1 == SEEN ==> Pow2(SEEN - 1 - k) / 2 == 0
  {
  }

  /** Decode a symbol; None if more bits are to be dropped than the reader has at hand. */
  method DecodeSymbol(table: array<u16>, left: array<u16>, right: array<u16>, bl: seq<byte>, n: u16, tb: nat, br: BitReader)
    returns (r: Option<u16>)
    requires TableOk(table[..], left[..], right[..], bl, n, tb) && br.Valid()
    modifies br
    ensures br.Valid()
    ensures Field(br.data, old(br.Cursor()), 32) < SPACE
    ensures var j := Found(table[..], left[..], right[..], bl, n, tb, Field(br.data, old(br.Cursor()), 32));
      && (bl[j] <= tb + SEEN ==> r.Some?)
      && (r.Some? ==> r.value == j && br.Cursor() == old(br.Cursor()) + bl[j])
  {
    hide At, High, Pow2, Field, TableOk, Lookup, SlotOk;
    ghost var cur := br.Cursor();
    ghost var x := Field(br.data, cur, 32);
    TableBits(table[..], left[..], right[..], bl, n, tb);
    WindowHigh(br.data, cur, tb);
    SeenSlot(br.data, cur, tb);
    AtSlot(table[..], left[..], right[..], bl, n, tb, SeenWindow(br.data, cur, tb));
    ghost var found := Found(table[..], left[..], right[..], bl, n, tb, x);
    var slot := br.Peek(tb);
    var j := table[slot];
    if j < n {
      br.Drop(bl[j]);
      return Some(j);
    }
    br.Drop(tb);
    var i := br.Peek(SEEN);
    j := Descend(left, right, bl, n, tb, j, i, br.data, cur, found);
    if bl[j] - tb > br.bitcount {
      return None;
    }
    br.Drop(bl[j] - tb);
    return Some(j);
  }

  lemma TableBits(table: seq<int>, l: seq<int>, g: seq<int>, bl: Lengths, n: nat, tb: nat)
    requires TableOk(table, l, g, bl, n, tb)
    ensures 1 <= tb <= 15 && 1 <= n <= |bl|
  {
  }

  // ---- When that is right ----

  /** The symbol decoded is the one whose code the window x begins with. */
  ghost predicate DecodesRight(table: seq<int>, left: seq<int>, right: seq<int>, bl: Lengths, n: nat, tb: nat, x: nat)
    requires TableOk(table, left, right, bl, n, tb) && x < SPACE
  {
    Matches(bl, n, Found(table, left, right, bl, n, tb, x), x)
  }

  /** Symbol j has a code, and a part of the code space that is there. */
  ghost predicate Coded(bl: Lengths, n: nat, j: nat) {
    j < n <= |bl| && 1 <= bl[j] <= 32 && Start(bl, n, j) < SPACE
  }

  /** Code j is short enough: what is cut off the window lies beyond it. */
  lemma ShortIsRight(table: seq<int>, left: seq<int>, right: seq<int>, bl: Lengths, n: nat, tb: nat, x: nat, j: nat)
    requires TableOk(table, left, right, bl, n, tb) && x < SPACE && Matches(bl, n, j, x) && bl[j] <= tb + SEEN
    ensures DecodesRight(table, left, right, bl, n, tb, x)
    ensures Found(table, left, right, bl, n, tb, x) == j
  {
    hide High, Pow2;
    var len, q := bl[j], Codeword(bl, n, j);
    StartAligned(bl, n, j);
    MulSplit(q, 1, Share(len));
    HighIs(x, 32 - len, q);
    CutSees(x, tb + SEEN, len);
    CutBelow(x, tb + SEEN);
    LookupUndoesCode(table, left, right, bl, n, tb, j, Cut(x, tb + SEEN));
  }

  /** A code that is too long is confused with its neighbour. */
  lemma LongIsWrong(table: seq<int>, left: seq<int>, right: seq<int>, bl: Lengths, n: nat, tb: nat, j: nat) returns (x: nat)
    requires TableOk(table, left, right, bl, n, tb) && Coded(bl, n, j) && bl[j] > tb + SEEN
    ensures x < SPACE && !DecodesRight(table, left, right, bl, n, tb, x)
  {
    hide High, Pow2, Covers;
    var k, start := tb + SEEN, Start(bl, n, j);
    StartAligned(bl, n, j);
    var lo := Cut(start, k);
    CutBelow(start, k);
    LookupMatches(table, left, right, bl, n, tb, lo);
    if lo < start {
      x := start;
      if DecodesRight(table, left, right, bl, n, tb, x) {
        CodesApart(bl, n, Lookup(table, left, right, n, tb, lo), j, x);
      }
    } else {
      x := start + Share(bl[j]);
      SameCut(start, k, Share(bl[j]));
      ShareIsSmall(bl[j], k);
      InsideNode(start, k, Share(bl[j]));
      CodesApart(bl, n, Lookup(table, left, right, n, tb, lo), j, lo);
    }
  }

  lemma ShareIsSmall(len: nat, k: nat)
    requires k < len <= 32
    ensures Share(len) < Pow2(32 - k)
  {
    Pow2Grows(32 - len, 32 - k - 1);
  }

  /** The node of depth k that starts at start lies within the code space. */
  lemma InsideNode(start: nat, k: nat, s: nat)
    requires start < SPACE && k <= 32 && Cut(start, k) == start && s < Pow2(32 - k)
    ensures start + s < SPACE
  {
    hide High, Pow2;
    var h := High(start, 32 - k);
    Pow2Adds(k, 32 - k);
    Pow2Values();
    TopBitsInTable(start, k);
    MulGrows(h + 1, Pow2(k), Pow2(32 - k));
    MulSplit(h, 1, Pow2(32 - k));
  }

  lemma SameCut(start: nat, k: nat, s: nat)
    requires k <= 32 && Cut(start, k) == start
    ensures s < Pow2(32 - k) ==> Cut(start + s, k) == start
  {
    hide High, Pow2;
    var h := High(start, 32 - k);
    MulSplit(h, 1, Pow2(32 - k));
    if s < Pow2(32 - k) { HighIs(start + s, 32 - k, h); }
  }

  /** Decoding is right on every stream if and only if no code is longer than the bits seen. */
  lemma RightIff(table: seq<int>, left: seq<int>, right: seq<int>, bl: Lengths, n: nat, tb: nat)
    requires TableOk(table, left, right, bl, n, tb)
    ensures (forall x: nat :: x < SPACE ==> DecodesRight(table, left, right, bl, n, tb, x))
      <==> forall j: nat :: Coded(bl, n, j) ==> bl[j] <= tb + SEEN
  {
    hide High, Pow2, DecodesRight;
    if forall j: nat :: Coded(bl, n, j) ==> bl[j] <= tb + SEEN {
      forall x: nat | x < SPACE ensures DecodesRight(table, left, right, bl, n, tb, x) {
        LookupMatches(table, left, right, bl, n, tb, x);
        var j := Lookup(table, left, right, n, tb, x);
        assert Coded(bl, n, j);
        ShortIsRight(table, left, right, bl, n, tb, x, j);
      }
    } else {
      var j: nat :| Coded(bl, n, j) && bl[j] > tb + SEEN;
      var x := LongIsWrong(table, left, right, bl, n, tb, j);
    }
  }

  // ---- Round trip ----

  /** The codes of the symbols xs stand in the stream, one after another. */
  ghost predicate CodesAt(bl: Lengths, n: nat, data: seq<byte>, at: nat, xs: seq<nat>)
    decreases |xs|
  {
    xs == [] || (xs[0] < n <= |bl| && 1 <= bl[xs[0]] <= 32 && Field(data, at, bl[xs[0]]) == Codeword(bl, n, xs[0])
                 && CodesAt(bl, n, data, at + bl[xs[0]], xs[1..]))
  }

  /** A code of at most tb + 16 bits at the cursor is the one found. */
  lemma CodeIsFound(table: seq<int>, left: seq<int>, right: seq<int>, bl: Lengths, n: nat, tb: nat, data: seq<byte>, at: nat, j: nat)
    requires TableOk(table, left, right, bl, n, tb) && j < n && 1 <= bl[j] <= tb + SEEN
    requires Field(data, at, bl[j]) == Codeword(bl, n, j)
    ensures Field(data, at, 32) < SPACE && Found(table, left, right, bl, n, tb, Field(data, at, 32)) == j
  {
    hide High, Pow2, Field, TableOk, Lookup, Found;
    TableBits(table, left, right, bl, n, tb);
    var x := Field(data, at, 32);
    WindowHigh(data, at, bl[j]);
    StartAligned(bl, n, j);
    MulSplit(Codeword(bl, n, j), 1, Share(bl[j]));
    assert Matches(bl, n, j, x);
    ShortIsRight(table, left, right, bl, n, tb, x, j);
  }

  /** Decode the symbols whose codes were written: they come back in order. */
  method DecodeSymbols(table: array<u16>, left: array<u16>, right: array<u16>, bl: seq<byte>, n: u16, tb: nat, br: BitReader,
                       count: nat, ghost xs: seq<nat>)
    returns (ys: seq<u16>)
    requires TableOk(table[..], left[..], right[..], bl, n, tb) && br.Valid() && |xs| == count
    requires CodesAt(bl, n, br.data, br.Cursor(), xs) && forall k :: 0 <= k < |xs| ==> xs[k] < n && bl[xs[k]] <= tb + SEEN
    modifies br
    ensures br.Valid() && ys == xs
  {
    hide High, Pow2, Field, TableOk, Lookup, Found, Codeword;
    ys := [];
    for k := 0 to count
      invariant br.Valid() && ys == xs[..k] && CodesAt(bl, n, br.data, br.Cursor(), xs[k..])
    {
      assert xs[k..][0] == xs[k] && xs[k..][1..] == xs[k + 1..];
      CodeIsFound(table[..], left[..], right[..], bl, n, tb, br.data, br.Cursor(), xs[k]);
      var r := DecodeSymbol(table, left, right, bl, n, tb, br);
      ys := ys + [r.value];
    }
  }

  // ---- The two trees of the format: characters, and positions ----

  /** Both trees lie in the same two arrays: making one of m symbols leaves one of n intact, if
      their inner nodes are numbered apart. */
  lemma TreesKeepApart(table: seq<int>, l: seq<int>, g: seq<int>, l': seq<int>, g': seq<int>, bl: Lengths, n: nat, tb: nat, m: nat)
    requires TableOk(table, l, g, bl, n, tb) && SameOutside(l, l', m, 2 * m - 1) && SameOutside(g, g', m, 2 * m - 1)
    requires 2 * m - 1 <= n || 2 * n - 1 <= m
    ensures TableOk(table, l', g', bl, n, tb)
  {
    forall s | 0 <= s < Pow2(tb) ensures SlotOk(l', g', bl, n, tb, s, table[s], n, 2 * n - 1) {
      SlotFrame(l, g, l', g', bl, n, tb, s, table[s], n, 2 * n - 1, n, 2 * n - 1);
    }
  }

  /** Positions have codes of at most 15 bits and a table of 8: decoding them is always right. */
  lemma PositionsAreRight(table: seq<int>, left: seq<int>, right: seq<int>, bl: Lengths, n: nat)
    requires TableOk(table, left, right, bl, n, 8) && forall j :: 0 <= j < |bl| ==> bl[j] < 16
    ensures forall x: nat :: x < SPACE ==> DecodesRight(table, left, right, bl, n, 8, x)
  {
    RightIff(table, left, right, bl, n, 8);
  }

  /** Lengths that the characters' tree can have: 1, 2, ... up to 28, and 29 twice. */
  ghost function Staircase(): Lengths {
    seq(510, k requires 0 <= k < 510 => if k < 29 then k + 1 else if k == 29 then 29 else 0)
  }

  lemma {:induction false} StairsUsed(k: nat, len: nat, c: int)
    requires k <= 29 && (len > 29 || (len == 29 && c >= 29))
    ensures Used(Staircase(), k, len, c) == SPACE - Pow2(32 - k)
  {
    if k > 0 { StairsUsed(k - 1, len, c); } else { Pow2Values(); }
  }

  lemma {:induction false} StairsEnd(n: nat, len: nat, c: int)
    requires 30 <= n <= 510 && (len > 29 || (len == 29 && c >= 29))
    ensures Used(Staircase(), n, len, c) == SPACE
    decreases n
  {
    if n == 30 { StairsUsed(29, len, c); } else { StairsEnd(n - 1, len, c); }
  }

  /** For those the table is built, and some stream is decoded wrong. */
  lemma StaircaseFails(table: seq<int>, left: seq<int>, right: seq<int>) returns (x: nat)
    requires TableOk(table, left, right, Staircase(), 510, 12)
    ensures SPACE <= Demand(Staircase(), 510)
    ensures x < SPACE && !DecodesRight(table, left, right, Staircase(), 510, 12, x)
  {
    hide Pow2, DecodesRight, TableOk;
    StairsEnd(510, 33, -1);
    StairsEnd(510, 29, 29);
    x := LongIsWrong(table, left, right, Staircase(), 510, 12, 29);
  }
}
