/** The decoding table of the DMS "Heavy" mode: a table for the first bits of a code, and a
    binary tree in two arrays for the bits beyond. */
module HeavyTable {
  import opened Arithmetic
  import opened Wrappers
  import opened CanonicalCode

  datatype Error = TableOverflow | DepthExceeded | AvailExceeded | CodewordOverflow | Incomplete

  /** The two ways in which running out of symbols shows. */
  predicate OutOfSymbols(e: Error) {
    e == DepthExceeded || e == AvailExceeded
  }

  // ---- What the table and the tree mean ----

  /** Entry v decodes the part of the code space that starts at lo and has d bits fixed: it is a
      symbol of length d whose interval that is, or an inner node, numbered from a up to b, over
      the two halves. */
  ghost predicate Covers(left: seq<int>, right: seq<int>, bl: Lengths, n: nat, v: int, lo: int, d: nat, a: int, b: int)
    requires n <= |bl|
    decreases 33 - d
  {
    && 1 <= d <= 32
    && if 0 <= v < n then bl[v] == d && Start(bl, n, v) == lo
       else
         && n <= a <= v < b && v < |left| && v < |right| && d < 32
         && Covers(left, right, bl, n, left[v], lo, d + 1, v + 1, b)
         && Covers(left, right, bl, n, right[v], lo + Pow2(31 - d), d + 1, v + 1, b)
  }

  /** Entry v of table slot s: the symbol whose interval contains the slot, or a tree over it. */
  ghost predicate SlotOk(left: seq<int>, right: seq<int>, bl: Lengths, n: nat, tb: nat, s: nat, v: int, a: int, b: int)
    requires n <= |bl| && tb <= 32
  {
    var lo, unit := SlotStart(s, tb), Pow2(32 - tb);
    if 0 <= v < n then 1 <= bl[v] <= tb && Start(bl, n, v) <= lo && lo + unit <= Start(bl, n, v) + Share(bl[v])
    else Covers(left, right, bl, n, v, lo, tb, a, b)
  }

  /** Slots lo to hi of a table are right, their trees numbered from a up to b. */
  ghost predicate SlotsOk(t: seq<int>, left: seq<int>, right: seq<int>, bl: Lengths, n: nat, tb: nat, lo: int, hi: int, a: int, b: int) {
    && n <= |bl| && tb <= 32 && 0 <= lo <= hi <= |t|
    && forall s :: lo <= s < hi ==> SlotOk(left, right, bl, n, tb, s, t[s], a, b)
  }

  ghost predicate SameBetween(l: seq<int>, l': seq<int>, a: int, b: int) {
    |l| == |l'| && forall x :: 0 <= x < |l| && a <= x < b ==> l[x] == l'[x]
  }

  ghost predicate SameOutside(l: seq<int>, l': seq<int>, a: int, b: int) {
    |l| == |l'| && forall x :: 0 <= x < |l| && !(a <= x < b) ==> l[x] == l'[x]
  }

  lemma OutsideBoth(t0: seq<int>, t1: seq<int>, t2: seq<int>, a: int, m: int, b: int)
    requires a <= m <= b && SameOutside(t0, t1, a, m) && SameOutside(t1, t2, m, b)
    ensures SameOutside(t0, t2, a, b)
  {
  }

  lemma OutsideWider(l: seq<int>, l': seq<int>, a: int, b: int, b': int)
    requires b <= b' && SameOutside(l, l', a, b)
    ensures SameOutside(l, l', a, b')
  {
  }

  lemma OutsideSelf(l: seq<int>, a: int)
    ensures SameOutside(l, l, a, a)
  {
  }

  lemma {:induction false} CoversFrame(l: seq<int>, r: seq<int>, l': seq<int>, r': seq<int>, bl: Lengths, n: nat,
                                       v: int, lo: int, d: nat, a: int, b: int, a': int, b': int)
    requires n <= |bl| && Covers(l, r, bl, n, v, lo, d, a, b)
    requires n <= a' <= a && b <= b' && SameBetween(l, l', a, b) && SameBetween(r, r', a, b)
    ensures Covers(l', r', bl, n, v, lo, d, a', b')
    decreases 33 - d
  {
    if !(0 <= v < n) {
      CoversFrame(l, r, l', r', bl, n, l[v], lo, d + 1, v + 1, b, v + 1, b');
      CoversFrame(l, r, l', r', bl, n, r[v], lo + Pow2(31 - d), d + 1, v + 1, b, v + 1, b');
    }
  }

  lemma SlotFrame(l: seq<int>, r: seq<int>, l': seq<int>, r': seq<int>, bl: Lengths, n: nat, tb: nat,
                  s: nat, v: int, a: int, b: int, a': int, b': int)
    requires n <= |bl| && tb <= 32 && SlotOk(l, r, bl, n, tb, s, v, a, b)
    requires n <= a' <= a && b <= b' && SameBetween(l, l', a, b) && SameBetween(r, r', a, b)
    ensures SlotOk(l', r', bl, n, tb, s, v, a', b')
  {
    if !(0 <= v < n) {
      CoversFrame(l, r, l', r', bl, n, v, SlotStart(s, tb), tb, a, b, a', b');
    }
  }

  // ---- Arithmetic of positions ----

  /** The code space of k nodes of depth d. */
  function Nodes(k: nat, d: nat): nat
    requires d <= 32
  {
    k * Pow2(32 - d)
  }

  /** Where table slot s begins in the code space, the table resolving tb bits. */
  function SlotStart(s: nat, tb: nat): nat
    requires tb <= 32
  {
    s * Pow2(32 - tb)
  }

  /** A subtree at depth d <= tb spans 2^(tb - d) table slots. */
  lemma SlotsOfDepth(tb: nat, d: nat)
    requires d <= tb <= 32
    ensures Pow2(32 - d) == Pow2(tb - d) * Pow2(32 - tb)
  {
    Pow2Adds(tb - d, 32 - tb);
  }

  lemma HalfOf(d: nat, tb: nat, k: nat)
    requires d <= 32
    ensures d < 32 ==> Pow2(32 - d) == 2 * Pow2(32 - (d + 1)) && Nodes(k, d) == Nodes(2 * k, d + 1)
    ensures d < tb ==> Pow2(tb - d) == 2 * Pow2(tb - (d + 1))
    ensures Pow2(0) == 1
  {
    if d < 32 { MulDouble(k, Pow2(32 - (d + 1))); }
  }

  /** Two nodes of depth 1 are the whole code space, and the whole table. */
  lemma WholeSpace(tb: nat)
    requires 1 <= tb
    ensures Nodes(2, 1) == 2 * Pow2(31) == SPACE && Pow2(tb) == 2 * Pow2(tb - 1)
    ensures tb <= 32 ==> SlotStart(0, tb) == 0
  {
    HalfOf(0, tb, 1);
    Pow2Values();
  }

  /** What two nodes need is what the first needs with the second pending, and then the second. */
  lemma ShareOut(d: nat, pend: nat)
    requires d <= 32
    ensures Nodes(1 + (pend + 1), d) <= Nodes(2 * (1 + pend), d)
    ensures Nodes(1 + pend, d) + Pow2(32 - d) <= Nodes(2 * (1 + pend), d)
    ensures Pow2(32 - d) <= Nodes(1 + pend, d)
  {
    var w := Pow2(32 - d);
    MulSplit(1 + pend, 1, w);
    MulSplit(1, pend, w);
    MulGrows(1 + pend + 1, 2 * (1 + pend), w);
  }

  /** Once a node of depth d is done the next one starts at the next multiple. */
  lemma NextNode(tb: nat, d: nat, cw: nat)
    requires d <= tb <= 15
    ensures SlotStart(cw + Pow2(tb - d), tb) == SlotStart(cw, tb) + Pow2(32 - d)
  {
    SlotsOfDepth(tb, d);
    MulSplit(cw, Pow2(tb - d), Pow2(32 - tb));
  }

  /** The run fits in the table because its node fits in the code space. */
  lemma RunFits(tb: nat, d: nat, cw: nat)
    requires d <= tb <= 15 && SlotStart(cw, tb) + Pow2(32 - d) <= SPACE
    ensures cw + Pow2(tb - d) <= Pow2(tb)
  {
    hide Pow2;
    var unit, w := Pow2(32 - tb), Pow2(tb - d);
    NextNode(tb, d, cw);
    Pow2Adds(tb, 32 - tb);
    Pow2Values();
    if cw + w > Pow2(tb) {
      MulGrows(Pow2(tb) + 1, cw + w, unit);
      MulSplit(Pow2(tb), 1, unit);
    }
  }

  /** The slots of a run of symbol j starting at its interval all lie in the interval. */
  lemma RunIsOk(l: seq<int>, r: seq<int>, bl: Lengths, n: nat, tb: nat, cw: nat, s: nat, j: nat, a: int, b: int)
    requires j < n <= |bl| && 1 <= bl[j] <= tb <= 15 && Start(bl, n, j) == SlotStart(cw, tb)
    requires cw <= s < cw + Pow2(tb - bl[j])
    ensures SlotOk(l, r, bl, n, tb, s, j, a, b)
  {
    hide Pow2;
    var unit, w := Pow2(32 - tb), Pow2(tb - bl[j]);
    NextNode(tb, bl[j], cw);
    MulGrows(cw, s, unit);
    MulGrows(s + 1, cw + w, unit);
    MulSplit(s, 1, unit);
  }

  lemma SymbolCovers(l: seq<int>, r: seq<int>, bl: Lengths, n: nat, j: nat, lo: int, d: nat, a: int, b: int)
    requires j < n <= |bl| && 1 <= d <= 32 && bl[j] == d && Start(bl, n, j) == lo
    ensures Covers(l, r, bl, n, j, lo, d, a, b)
  {
  }

  /** The left son was built, its entry r1 stored at i, then the right son; storing r2 completes
      node i. */
  lemma JoinSons(l0: seq<int>, g0: seq<int>, l1: seq<int>, g1: seq<int>, l2: seq<int>, g2: seq<int>, bl: Lengths, n: nat,
                 i: nat, r1: int, r2: int, lo: int, d: nat, a1: int, b: int)
    requires n <= |bl| && n <= i < a1 <= b && i < |l1| && i < |g1| && 2 <= d <= 32
    requires SameOutside(l0, l1, i + 1, a1) && SameOutside(g0, g1, i + 1, a1)
    requires Covers(l1, g1, bl, n, r1, lo, d, i + 1, a1)
    requires SameOutside(l1[i := r1], l2, a1, b) && SameOutside(g1, g2, a1, b)
    requires Covers(l2, g2, bl, n, r2, lo + Pow2(32 - d), d, a1, b)
    ensures Covers(l2, g2[i := r2], bl, n, i, lo, d - 1, i, b)
    ensures SameOutside(l0, l2, i, b) && SameOutside(g0, g2[i := r2], i, b)
  {
    CoversFrame(l1, g1, l2, g2[i := r2], bl, n, r1, lo, d, i + 1, a1, i + 1, b);
    CoversFrame(l2, g2, l2, g2[i := r2], bl, n, r2, lo + Pow2(32 - d), d, a1, b, i + 1, b);
  }

  lemma SlotOfTree(l: seq<int>, r: seq<int>, bl: Lengths, n: nat, tb: nat, s: nat, i: nat, a: int, b: int)
    requires n <= |bl| && tb <= 32 && n <= i && Covers(l, r, bl, n, i, SlotStart(s, tb), tb, a, b)
    ensures SlotOk(l, r, bl, n, tb, s, i, a, b)
  {
  }

  /** The slots of one node, then those of the next: together, those of both. */
  lemma SlotsJoin(t1: seq<int>, l1: seq<int>, g1: seq<int>, t2: seq<int>, l2: seq<int>, g2: seq<int>, bl: Lengths, n: nat, tb: nat,
                  lo: int, mid: int, hi: int, a: int, a1: int, b: int)
    requires SlotsOk(t1, l1, g1, bl, n, tb, lo, mid, a, a1) && SlotsOk(t2, l2, g2, bl, n, tb, mid, hi, a1, b)
    requires SameOutside(t1, t2, mid, hi) && SameOutside(l1, l2, a1, b) && SameOutside(g1, g2, a1, b)
    requires n <= a <= a1 <= b
    ensures SlotsOk(t2, l2, g2, bl, n, tb, lo, hi, a, b)
  {
    hide SlotOk;
    forall s | lo <= s < mid ensures SlotOk(l2, g2, bl, n, tb, s, t2[s], a, b) {
      SlotFrame(l1, g1, l2, g2, bl, n, tb, s, t2[s], a, a1, a, b);
    }
    forall s | mid <= s < hi ensures SlotOk(l2, g2, bl, n, tb, s, t2[s], a, b) {
      SlotFrame(l2, g2, l2, g2, bl, n, tb, s, t2[s], a1, b, a, b);
    }
  }

  lemma SlotsWiden(t: seq<int>, l: seq<int>, g: seq<int>, bl: Lengths, n: nat, tb: nat, lo: int, hi: int, a: int, b: int, b': int)
    requires SlotsOk(t, l, g, bl, n, tb, lo, hi, a, b) && n <= a && b <= b'
    ensures SlotsOk(t, l, g, bl, n, tb, lo, hi, a, b')
  {
    hide SlotOk;
    forall s | lo <= s < hi ensures SlotOk(l, g, bl, n, tb, s, t[s], a, b') {
      SlotFrame(l, g, l, g, bl, n, tb, s, t[s], a, b, a, b');
    }
  }

  /** A tree built below the resolution of the table goes to a single slot. */
  lemma TreeSlot(t0: seq<int>, t: seq<int>, l: seq<int>, g: seq<int>, bl: Lengths, n: nat, tb: nat, s: nat, i: nat, a: int, b: int)
    requires n <= |bl| && tb <= 32 && n <= i && s < |t| && Covers(l, g, bl, n, i, SlotStart(s, tb), tb, a, b)
    requires SameOutside(t0, t, s, s)
    ensures SlotsOk(t[s := i], l, g, bl, n, tb, s, s + 1, a, b) && SameOutside(t0, t[s := i], s, s + 1)
  {
    hide Covers;
    SlotOfTree(l, g, bl, n, tb, s, i, a, b);
  }

  class TableBuilder {
    const n: u16
    const bl: seq<byte>
    const tbl: array<u16>
    const left: array<u16>
    const right: array<u16>
    const tb: nat
    const tblsiz: u16
    const maxdepth: u16
    var bit: u16
    var depth: u16
    var len: u16
    var c: int
    var codeword: u16
    var avail: u16

    constructor (nchar: u16, bitlen: seq<byte>, tablebits: nat, table: array<u16>, left: array<u16>, right: array<u16>)
      requires 1 <= nchar < 0x8000 && 1 <= tablebits <= 15 && nchar <= |bitlen| && Pow2(tablebits) <= table.Length
      requires 2 * nchar - 1 <= left.Length && 2 * nchar - 1 <= right.Length
      requires table != left && table != right && left != right
      ensures Fixed() && Ready() && Position() == 0 && TakenSoFar() == 0
      ensures n == nchar && bl == bitlen && tb == tablebits && tbl == table && this.left == left && this.right == right
      ensures depth == 1 && codeword == 0 && avail == n
    {
      Pow2Grows(tablebits, 15);
      Pow2Values();
      NothingUsed(bitlen, nchar);
      n, bl, tb := nchar, bitlen, tablebits;
      tbl, this.left, this.right := table, left, right;
      tblsiz := Pow2(tablebits);
      maxdepth := tablebits + 1;
      bit := Pow2(tablebits) / 2;
      depth, len, c, codeword, avail := 1, 1, -1, 0, nchar;
    }

    ghost predicate Fixed()
      reads this
    {
      && 1 <= n < 0x8000 && 1 <= tb <= 15 && n <= |bl|
      && tblsiz == Pow2(tb) <= tbl.Length && maxdepth == tb + 1
      && 2 * n - 1 <= left.Length && 2 * n - 1 <= right.Length
      && tbl != left && tbl != right && left != right
    }

    /** Between steps: the length looked for is at least the depth reached. */
    ghost predicate Ready()
      requires Fixed()
      reads this
    {
      && 1 <= depth <= 32 && depth <= len <= 33 && -1 <= c < n
      && bit == (if len <= tb then Pow2(tb - len) else 0)
      && n <= avail <= 2 * n - 1 && codeword <= tblsiz
    }

    /** The part of the code space already handed out. */
    ghost function Position(): nat
      requires Fixed()
      reads this
    {
      Used(bl, n, len, c)
    }

    ghost function TakenSoFar(): nat
      requires Fixed()
      reads this
    {
      Taken(bl, n, len, c)
    }

    /** A node of the current depth starts at position p, within the code space. */
    ghost predicate AtNode(p: nat)
      requires Fixed() && Ready()
      reads this
    {
      && p + Pow2(32 - depth) <= SPACE
      && (depth <= tb ==> SlotStart(codeword, tb) == p)
      && codeword < tblsiz
    }

    /** Since the old state one node of the tree was completed, r being its entry: it took its
        part of the code space, its table slots and some node numbers, and touched no others. */
    twostate predicate Node(r: int)
      requires Fixed() && old(Fixed() && Ready())
      reads this, tbl, left, right
    {
      && Ready() && depth == old(depth)
      && Position() == old(Position()) + Pow2(32 - depth)
      && codeword == old(codeword) + (if depth <= tb then Pow2(tb - depth) else 0)
      && old(avail) <= avail && avail - old(avail) + 1 <= TakenSoFar() - old(TakenSoFar())
      && SameOutside(old(left[..]), left[..], old(avail), avail)
      && SameOutside(old(right[..]), right[..], old(avail), avail)
      && SameOutside(old(tbl[..]), tbl[..], old(codeword), codeword)
      && (depth >= tb ==> Covers(left[..], right[..], bl, n, r, old(Position()), depth, old(avail), avail))
      && (depth <= tb ==> SlotsOk(tbl[..], left[..], right[..], bl, n, tb, old(codeword), codeword, old(avail), avail))
    }

    /** Enough symbols are left for this node and pend further nodes no deeper than it. */
    ghost predicate Enough(pend: nat)
      requires Fixed() && Ready()
      reads this
    {
      && Nodes(1 + pend, depth) <= Demand(bl, n) - Position()
      && avail - n < TakenSoFar() + pend
    }

    /** Look for the next symbol whose code is as long as the depth reached. */
    method NextSymbol() returns (found: bool)
      requires Fixed() && Ready() && len == depth
      modifies this`c, this`len, this`bit
      ensures Ready() && -1 <= c
      ensures found ==> len == depth && 0 <= c && bl[c] == len && old(c) < c && NoneBetween(bl, len, old(c), c)
      ensures !found ==> len == depth + 1 && Position() == old(Position()) && TakenSoFar() == old(TakenSoFar())
      ensures !found && depth == 32 ==> Demand(bl, n) <= Position()
    {
      while true
        invariant old(c) <= c < n && NoneBetween(bl, len, old(c), c + 1)
        invariant len == old(len) && bit == old(bit)
        decreases n - c
      {
        c := c + 1;
        if c >= n { break; }
        if bl[c] == len {
          return true;
        }
      }
      NextLength(bl, n, len, old(c));
      c := -1;
      len := len + 1;
      bit := bit / 2;
      return false;
    }

    /** Fill the run of slots of the symbol found. */
    method FillRun(ghost c0: int) returns (r: Result<u16, Error>)
      requires Fixed() && Ready() && AtNode(Used(bl, n, len, c0)) && len == depth && -1 <= c0 < c && bl[c] == len && NoneBetween(bl, len, c0, c)
      modifies this`codeword, tbl
      ensures r == Ok(c)
      ensures old(codeword) <= codeword == old(codeword) + bit <= tblsiz
      ensures SameOutside(old(tbl[..]), tbl[..], old(codeword), codeword)
      ensures forall s :: old(codeword) <= s < codeword ==> tbl[s] == c
    {
      if depth <= tb { RunFits(tb, depth, codeword); }
      var i := codeword;
      codeword := codeword + bit;
      if codeword > tblsiz {
        return Err(TableOverflow);
      }
      while i < codeword
        invariant old(codeword) <= i <= codeword
        invariant codeword == old(codeword) + bit <= tblsiz
        invariant SameOutside(old(tbl[..]), tbl[..], old(codeword), codeword)
        invariant forall s :: old(codeword) <= s < i ==> tbl[s] == c
      {
        tbl[i] := c;
        i := i + 1;
      }
      return Ok(c);
    }

    /** Make a node of the symbol found, searched for from c0. */
    method SymbolNode(ghost c0: int) returns (r: Result<u16, Error>)
      requires Fixed() && Ready() && AtNode(Used(bl, n, len, c0)) && len == depth && -1 <= c0 < c && bl[c] == len && NoneBetween(bl, len, c0, c)
      modifies this`codeword, tbl
      ensures r == Ok(c) && Ready() && Position() == Used(bl, n, len, c0) + Pow2(32 - depth)
      ensures TakenSoFar() == Taken(bl, n, len, c0) + 1
      ensures codeword == old(codeword) + (if depth <= tb then Pow2(tb - depth) else 0)
      ensures SameOutside(old(tbl[..]), tbl[..], old(codeword), codeword)
      ensures Covers(left[..], right[..], bl, n, c, Used(bl, n, len, c0), depth, avail, avail)
      ensures depth <= tb ==> SlotsOk(tbl[..], left[..], right[..], bl, n, tb, old(codeword), codeword, avail, avail)
    {
      hide Covers, SlotOk, Used, Taken, Pow2, Nodes, SlotStart;
      TakeNext(bl, n, len, c0, c);
      r := FillRun(c0);
      SymbolCovers(left[..], right[..], bl, n, c, Used(bl, n, len, c0), depth, avail, avail);
      if depth <= tb {
        forall s | old(codeword) <= s < codeword ensures SlotOk(left[..], right[..], bl, n, tb, s, tbl[s], avail, avail) {
          RunIsOk(left[..], right[..], bl, n, tb, old(codeword), s, c, avail, avail);
        }
      }
    }

    /** Make a node of the next symbol whose code is as long as the depth reached, if there is one. */
    method SymbolDue() returns (found: bool, r: Result<u16, Error>)
      requires Fixed() && Ready() && len == depth && AtNode(Position())
      modifies this`c, this`len, this`bit, this`codeword, tbl
      ensures Ready()
      ensures found ==> r.Ok? && Node(r.value)
      ensures !found ==> len == depth + 1 && Position() == old(Position()) && TakenSoFar() == old(TakenSoFar())
      ensures !found ==> codeword == old(codeword) && tbl[..] == old(tbl[..])
      ensures !found && depth == 32 ==> Demand(bl, n) <= Position()
    {
      hide Covers, SlotsOk, SameOutside, Used, Taken, Pow2, Nodes, SlotStart;
      ghost var c0 := c;
      found := NextSymbol();
      if found {
        OutsideSelf(left[..], avail);
        OutsideSelf(right[..], avail);
        r := SymbolNode(c0);
      } else {
        r := Err(Incomplete);
      }
    }

    /** Enough symbols are left for two nodes of the depth reached and pend more above. */
    ghost predicate EnoughForPair(pend: nat)
      requires Fixed() && Ready()
      reads this
    {
      && Nodes(2 * (1 + pend), depth) <= Demand(bl, n) - Position()
      && avail - n < TakenSoFar() + pend
    }

    /** Since the old state two nodes side by side at the depth reached were completed, with their
        table slots. */
    twostate predicate Pair()
      requires Fixed() && old(Fixed() && Ready())
      reads this, tbl, left, right
    {
      && Sons()
      && (depth <= tb ==> SlotsOk(tbl[..], left[..], right[..], bl, n, tb, old(codeword), codeword, old(avail), avail))
    }

    twostate predicate Sons()
      requires Fixed() && old(Fixed() && Ready())
      reads this, tbl, left, right
    {
      && Ready() && depth == old(depth)
      && Position() == old(Position()) + 2 * Pow2(32 - depth)
      && old(avail) <= avail && avail - old(avail) + 1 <= TakenSoFar() - old(TakenSoFar())
      && SameOutside(old(left[..]), left[..], old(avail), avail)
      && SameOutside(old(right[..]), right[..], old(avail), avail)
      && SameOutside(old(tbl[..]), tbl[..], old(codeword), codeword)
      && old(codeword) <= codeword
    }

    /** Two nodes that the table still resolves. */
    method Halves(ghost pend: nat) returns (r: Result<u16, Error>)
      requires Fixed() && Ready() && depth <= tb
      requires Position() + 2 * Pow2(32 - depth) <= SPACE && SlotStart(codeword, tb) == Position()
      modifies this, tbl, left, right
      ensures r.Ok? ==> Pair() && codeword == old(codeword) + 2 * Pow2(tb - depth)
      ensures r.Err? ==> OutOfSymbols(r.error)
      ensures old(Nodes(2 * (1 + pend), depth) <= Demand(bl, n) - Position() && avail - n <= TakenSoFar() + pend) ==> r.Ok?
      decreases 33 - depth, 2
    {
      hide Covers, SlotOk, SlotsOk, SameOutside, Used, Taken, Pow2, Nodes, SlotStart;
      ghost var cw, a, t0, l0, g0 := codeword, avail, tbl[..], left[..], right[..];
      RunFits(tb, depth, codeword);
      NextNode(tb, depth, codeword);
      ShareOut(depth, pend);
      r := Mktbl(pend + 1);
      if r.Err? { return; }
      ghost var cw1, a1, t1, l1, g1 := codeword, avail, tbl[..], left[..], right[..];
      RunFits(tb, depth, codeword);
      r := Mktbl(pend);
      if r.Err? { return; }
      SlotsJoin(t1, l1, g1, tbl[..], left[..], right[..], bl, n, tb, cw, cw1, codeword, a, a1, avail);
      OutsideBoth(t0, t1, tbl[..], cw, cw1, codeword);
      OutsideBoth(l0, l1, left[..], a, a1, avail);
      OutsideBoth(g0, g1, right[..], a, a1, avail);
    }

    /** Build the two sons of node i. */
    method BuildSons(i: u16, ghost pend: nat) returns (r: Result<u16, Error>)
      requires Fixed() && Ready() && tb < depth && codeword < tblsiz && n <= i < 2 * n - 1 && avail == i + 1
      requires Position() + 2 * Pow2(32 - depth) <= SPACE
      modifies this, tbl, left, right
      ensures r.Ok? ==> r.value == i && Ready() && depth == old(depth) && codeword == old(codeword)
      ensures r.Ok? ==> Position() == old(Position()) + 2 * Pow2(32 - depth)
      ensures r.Ok? ==> i < avail && avail - i + 1 <= TakenSoFar() - old(TakenSoFar())
      ensures r.Ok? ==> SameOutside(old(left[..]), left[..], i, avail) && SameOutside(old(right[..]), right[..], i, avail)
      ensures r.Ok? ==> SameOutside(old(tbl[..]), tbl[..], codeword, codeword)
      ensures r.Ok? ==> Covers(left[..], right[..], bl, n, i, old(Position()), depth - 1, i, avail)
      ensures r.Err? ==> OutOfSymbols(r.error)
      ensures old(Nodes(2 * (1 + pend), depth) <= Demand(bl, n) - Position() && avail - n <= TakenSoFar() + pend) ==> r.Ok?
      decreases 33 - depth, 2
    {
      hide Covers, SlotOk, SlotsOk, Used, Taken, Pow2, Nodes, SlotStart, SameOutside;
      ghost var p, t0, l0, g0 := Position(), tbl[..], left[..], right[..];
      ShareOut(depth, pend);
      r := Mktbl(pend + 1);
      if r.Err? { return; }
      ghost var r1, a1, t1, l1, g1 := r.value, avail, tbl[..], left[..], right[..];
      left[i] := r.value;
      r := Mktbl(pend);
      if r.Err? { return; }
      ghost var r2, l2, g2 := r.value, left[..], right[..];
      right[i] := r.value;
      OutsideBoth(t0, t1, tbl[..], codeword, codeword, codeword);
      JoinSons(l0, g0, l1, g1, l2, g2, bl, n, i, r1, r2, p, depth, a1, avail);
      return Ok(i);
    }

    /** An inner node of the tree with its two sons. */
    method Branch(ghost pend: nat) returns (r: Result<u16, Error>)
      requires Fixed() && Ready() && tb < depth && codeword < tblsiz
      requires Position() + 2 * Pow2(32 - depth) <= SPACE
      modifies this, tbl, left, right
      ensures r.Ok? ==> Sons() && codeword == old(codeword) && n <= r.value
      ensures r.Ok? ==> Covers(left[..], right[..], bl, n, r.value, old(Position()), depth - 1, old(avail), avail)
      ensures r.Err? ==> OutOfSymbols(r.error)
      ensures old(EnoughForPair(pend)) ==> r.Ok?
      decreases 33 - depth, 3
    {
      hide Covers, SlotOk, SlotsOk, Used, Taken, Pow2, Nodes, SlotStart, SameOutside;
      if EnoughForPair(pend) { RoomForNode(pend); }
      var i := avail;
      avail := avail + 1;
      if i >= 2 * n - 1 {
        return Err(AvailExceeded);
      }
      r := BuildSons(i, pend);
    }

    /** A tree below the resolution of the table; at that resolution it goes to its slot. */
    method Subtree(ghost pend: nat) returns (r: Result<u16, Error>)
      requires Fixed() && Ready() && tb < depth && codeword < tblsiz
      requires Position() + 2 * Pow2(32 - depth) <= SPACE && (depth == maxdepth ==> SlotStart(codeword, tb) == Position())
      modifies this, tbl, left, right
      ensures r.Ok? ==> Sons() && codeword == old(codeword) + (if depth == maxdepth then 1 else 0)
      ensures r.Ok? ==> Covers(left[..], right[..], bl, n, r.value, old(Position()), depth - 1, old(avail), avail)
      ensures r.Ok? && depth == maxdepth ==> SlotsOk(tbl[..], left[..], right[..], bl, n, tb, old(codeword), codeword, old(avail), avail)
      ensures r.Err? ==> OutOfSymbols(r.error)
      ensures old(EnoughForPair(pend)) ==> r.Ok?
      decreases 33 - depth, 4
    {
      hide Covers, SlotsOk, SameOutside, Used, Taken, Pow2, Nodes, SlotStart;
      ghost var a, t0 := avail, tbl[..];
      r := Branch(pend);
      if r.Err? { return; }
      if codeword >= tblsiz {
        return Err(CodewordOverflow);
      }
      if depth == maxdepth {
        ghost var t := tbl[..];
        tbl[codeword] := r.value;
        TreeSlot(t0, t, left[..], right[..], bl, n, tb, codeword, r.value, a, avail);
        codeword := codeword + 1;
      }
    }

    lemma RoomForNode(pend: nat)
      requires Fixed() && Ready() && EnoughForPair(pend)
      ensures avail < 2 * n - 1
    {
      EnoughLeft(bl, n, len, c, depth);
      var k := Taken(bl, n, 33, -1) - TakenSoFar();
      if k < 2 * (1 + pend) {
        MulGrows(k + 1, 2 * (1 + pend), Share(depth));
        MulSplit(k, 1, Share(depth));
      }
    }

    /** No code of the depth reached is left: build the node out of two one level down. */
    method Divide(ghost pend: nat) returns (r: Result<u16, Error>)
      requires Fixed() && Ready() && depth < len && AtNode(Position()) && (depth == 32 ==> Demand(bl, n) <= Position())
      modifies this, tbl, left, right
      ensures r.Ok? ==> Node(r.value)
      ensures r.Err? ==> OutOfSymbols(r.error)
      ensures old(Enough(pend)) ==> r.Ok?
      decreases 33 - depth, 0
    {
      hide Covers, SlotsOk, SameOutside, Used, Taken, Pow2, Nodes, SlotStart;
      var i: u16 := 0;
      HalfOf(depth, tb, 1 + pend);
      depth := depth + 1;
      if depth < maxdepth {
        r := Halves(pend);
        if r.Err? { return; }
      } else if depth > 32 {
        ShareOut(32, pend);
        return Err(DepthExceeded);
      } else {
        r := Subtree(pend);
        if r.Err? { return; }
        i := r.value;
      }
      depth := depth - 1;
      return Ok(i);
    }

    /** Build the node at which the codes taken so far end: a symbol if one is due, else an inner
        node. */
    method Mktbl(ghost pend: nat) returns (r: Result<u16, Error>)
      requires Fixed() && Ready() && AtNode(Position())
      modifies this, tbl, left, right
      ensures r.Ok? ==> Node(r.value)
      ensures r.Err? ==> OutOfSymbols(r.error)
      ensures old(Enough(pend)) ==> r.Ok?
      decreases 33 - depth, 1
    {
      hide Covers, SlotsOk, SameOutside, Used, Taken, Pow2, Nodes, SlotStart;
      if len == depth {
        var found;
        found, r := SymbolDue();
        if found { return; }
      } else if depth == 32 {
        AllUsed(bl, n, c);
      }
      r := Divide(pend);
    }

    /** Both halves of the code space, from the start. */
    method Build() returns (r: Result<(), Error>)
      requires Fixed() && Ready() && Position() == 0 && TakenSoFar() == 0
      requires depth == 1 && codeword == 0 && avail == n
      modifies this, tbl, left, right
      ensures r.Ok? <==> SPACE <= Demand(bl, n)
      ensures r.Err? ==> OutOfSymbols(r.error)
      ensures r.Ok? ==> TableOk(tbl[..], left[..], right[..], bl, n, tb)
      ensures r.Ok? ==> SameOutside(old(tbl[..]), tbl[..], 0, Pow2(tb))
      ensures r.Ok? ==> SameOutside(old(left[..]), left[..], n, 2 * n - 1)
      ensures r.Ok? ==> SameOutside(old(right[..]), right[..], n, 2 * n - 1)
    {
      hide Covers, SlotOk, SlotsOk, SameOutside, TableOk, Used, Taken, Pow2, Nodes, SlotStart;
      WholeSpace(tb);
      ghost var t0, l0, g0 := tbl[..], left[..], right[..];
      var built := Halves(0);
      if built.Err? {
        return Err(built.error);
      }
      EnoughLeft(bl, n, len, c, 1);
      if codeword != tblsiz {
        return Err(Incomplete);
      }
      SlotsWiden(tbl[..], left[..], right[..], bl, n, tb, 0, Pow2(tb), n, avail, 2 * n - 1);
      TableDone(tbl[..], left[..], right[..], bl, n, tb);
      OutsideWider(l0, left[..], n, avail, 2 * n - 1);
      OutsideWider(g0, right[..], n, avail, 2 * n - 1);
      return Ok(());
    }
  }

  /** The table is built exactly when the code lengths fill the code space; then every slot is
      the symbol, or the tree of the symbols, whose codes begin with the slot's number. */
  method MakeTable(nchar: u16, bitlen: seq<byte>, tablebits: nat, table: array<u16>, left: array<u16>, right: array<u16>)
    returns (r: Result<(), Error>)
    requires 1 <= nchar < 0x8000 && 1 <= tablebits <= 15 && nchar <= |bitlen| && Pow2(tablebits) <= table.Length
    requires 2 * nchar - 1 <= left.Length && 2 * nchar - 1 <= right.Length
    requires table != left && table != right && left != right
    modifies table, left, right
    ensures r.Ok? <==> SPACE <= Demand(bitlen, nchar)
    ensures r.Err? ==> OutOfSymbols(r.error)
    ensures r.Ok? ==> TableOk(table[..], left[..], right[..], bitlen, nchar, tablebits)
    ensures r.Ok? ==> SameOutside(old(table[..]), table[..], 0, Pow2(tablebits))
    ensures r.Ok? ==> SameOutside(old(left[..]), left[..], nchar, 2 * nchar - 1)
    ensures r.Ok? ==> SameOutside(old(right[..]), right[..], nchar, 2 * nchar - 1)
  {
    var s := new TableBuilder(nchar, bitlen, tablebits, table, left, right);
    r := s.Build();
  }

  ghost predicate TableOk(table: seq<int>, left: seq<int>, right: seq<int>, bl: Lengths, n: nat, tb: nat) {
    && 1 <= n <= |bl| && 1 <= tb <= 15 && Pow2(tb) <= |table|
    && forall s :: 0 <= s < Pow2(tb) ==> SlotOk(left, right, bl, n, tb, s, table[s], n, 2 * n - 1)
  }

  lemma TableDone(t: seq<int>, l: seq<int>, g: seq<int>, bl: Lengths, n: nat, tb: nat)
    requires SlotsOk(t, l, g, bl, n, tb, 0, Pow2(tb), n, 2 * n - 1) && 1 <= n && 1 <= tb <= 15
    ensures TableOk(t, l, g, bl, n, tb)
  {
    hide SlotOk;
  }

  // ---- Decoding with the table ----

  /** Follow the bits of the 32-bit window x from depth d on, from tree entry v down to a symbol. */
  ghost function Walk(left: seq<int>, right: seq<int>, n: nat, v: int, x: nat, d: nat): int
    decreases 32 - d
  {
    if 0 <= v < n || d >= 32 || !(0 <= v < |left| && v < |right|) then v
    else if High(x, 31 - d) % 2 == 0 then Walk(left, right, n, left[v], x, d + 1)
    else Walk(left, right, n, right[v], x, d + 1)
  }

  /** The symbol for a window: the table entry of its first bits, then the tree. */
  ghost function Lookup(table: seq<int>, left: seq<int>, right: seq<int>, n: nat, tb: nat, x: nat): int
    requires tb <= 32 && High(x, 32 - tb) < |table|
  {
    Walk(left, right, n, table[High(x, 32 - tb)], x, tb)
  }

  /** The window x lies in the interval of symbol j: it begins with the code of j. */
  ghost predicate Matches(bl: Lengths, n: nat, j: int, x: nat) {
    0 <= j < n <= |bl| && 1 <= bl[j] <= 32 && Start(bl, n, j) <= x < Start(bl, n, j) + Share(bl[j])
  }

  lemma SonsCover(l: seq<int>, g: seq<int>, bl: Lengths, n: nat, v: int, lo: int, d: nat, a: int, b: int)
    requires n <= |bl| && Covers(l, g, bl, n, v, lo, d, a, b) && !(0 <= v < n)
    ensures n <= a <= v < b && v < |l| && v < |g| && d < 32
    ensures Covers(l, g, bl, n, l[v], lo, d + 1, v + 1, b)
    ensures Covers(l, g, bl, n, g[v], lo + Pow2(31 - d), d + 1, v + 1, b)
  {
  }

  lemma WalkDown(l: seq<int>, g: seq<int>, n: nat, v: int, x: nat, d: nat)
    requires n <= v < |l| && v < |g| && d < 32
    ensures Walk(l, g, n, v, x, d) == Walk(l, g, n, if High(x, 31 - d) % 2 == 0 then l[v] else g[v], x, d + 1)
  {
  }

  lemma MoveDown(h: nat, d: nat)
    ensures d < 32 ==> (2 * h) * Pow2(31 - d) == h * Pow2(32 - d) && (2 * h + 1) * Pow2(31 - d) == h * Pow2(32 - d) + Pow2(31 - d)
  {
    if d < 32 {
      MulDouble(h, Pow2(31 - d));
      MulSplit(2 * h, 1, Pow2(31 - d));
    }
  }

  lemma LeafMatches(left: seq<int>, right: seq<int>, bl: Lengths, n: nat, v: int, d: nat, a: int, b: int, x: nat)
    requires 0 <= v < n <= |bl| && d <= 32 && Covers(left, right, bl, n, v, High(x, 32 - d) * Pow2(32 - d), d, a, b)
    ensures Walk(left, right, n, v, x, d) == v && Matches(bl, n, v, x)
  {
    hide Pow2, High;
    MulSplit(High(x, 32 - d), 1, Pow2(32 - d));
  }

  lemma {:induction false} WalkFinds(left: seq<int>, right: seq<int>, bl: Lengths, n: nat, v: int, d: nat,
                                     a: int, b: int, x: nat)
    requires n <= |bl| && d <= 32
    requires Covers(left, right, bl, n, v, High(x, 32 - d) * Pow2(32 - d), d, a, b)
    ensures Matches(bl, n, Walk(left, right, n, v, x, d), x)
    decreases 32 - d
  {
    hide High, Pow2, Covers, Walk, Matches;
    if 0 <= v < n {
      LeafMatches(left, right, bl, n, v, d, a, b, x);
    } else {
      SonsCover(left, right, bl, n, v, High(x, 32 - d) * Pow2(32 - d), d, a, b);
      HighHalf(x, 31 - d);
      MoveDown(High(x, 32 - d), d);
      WalkDown(left, right, n, v, x, d);
      if High(x, 31 - d) % 2 == 0 {
        WalkFinds(left, right, bl, n, left[v], d + 1, v + 1, b, x);
      } else {
        WalkFinds(left, right, bl, n, right[v], d + 1, v + 1, b, x);
      }
    }
  }

  lemma TopBitsInTable(x: nat, tb: nat)
    requires x < SPACE && tb <= 32
    ensures High(x, 32 - tb) < Pow2(tb)
  {
    hide High, Pow2;
    Pow2Adds(tb, 32 - tb);
    Pow2Values();
    if High(x, 32 - tb) >= Pow2(tb) { MulGrows(Pow2(tb), High(x, 32 - tb), Pow2(32 - tb)); }
  }

  /** Every window decodes to the symbol whose code it begins with. */
  lemma LookupMatches(table: seq<int>, left: seq<int>, right: seq<int>, bl: Lengths, n: nat, tb: nat, x: nat)
    requires TableOk(table, left, right, bl, n, tb) && x < SPACE
    ensures High(x, 32 - tb) < |table| && Matches(bl, n, Lookup(table, left, right, n, tb, x), x)
  {
    hide High, Pow2;
    TopBitsInTable(x, tb);
    var s := High(x, 32 - tb);
    MulSplit(s, 1, Pow2(32 - tb));
    var v := table[s];
    assert SlotOk(left, right, bl, n, tb, s, v, n, 2 * n - 1);
    if !(0 <= v < n) {
      WalkFinds(left, right, bl, n, v, tb, n, 2 * n - 1, x);
    }
  }

  /** No window begins with two codes. */
  lemma CodesApart(bl: Lengths, n: nat, i: int, j: int, x: nat)
    requires Matches(bl, n, i, x) && Matches(bl, n, j, x)
    ensures i == j
  {
    if i != j {
      if Before(bl[i], i, bl[j], j) {
        IntervalsApart(bl, n, i, j);
      } else {
        IntervalsApart(bl, n, j, i);
      }
    }
  }

  /** Decoding undoes encoding: a window whose first bits are the code of j looks up j. */
  lemma LookupUndoesCode(table: seq<int>, left: seq<int>, right: seq<int>, bl: Lengths, n: nat, tb: nat, j: nat, x: nat)
    requires TableOk(table, left, right, bl, n, tb) && j < n && 1 <= bl[j] <= 32 && x < SPACE
    requires High(x, 32 - bl[j]) == Codeword(bl, n, j)
    ensures High(x, 32 - tb) < |table| && Lookup(table, left, right, n, tb, x) == j
  {
    hide High, Pow2;
    LookupMatches(table, left, right, bl, n, tb, x);
    StartAligned(bl, n, j);
    MulSplit(Codeword(bl, n, j), 1, Share(bl[j]));
    CodesApart(bl, n, Lookup(table, left, right, n, tb, x), j, x);
  }
}
