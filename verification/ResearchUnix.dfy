/** Research Unix file systems: the free list threaded through the free blocks, the inodes, and
    the check of a finished image. */
module ResearchUnix {
  import opened Arithmetic
  import opened BlockVolume
  import opened ByteStrings

  /** A layout; `freeAt` is where the free list starts in the superblock, `width` and `limit` are
      the bytes of a block number in it and its greatest length. */
  datatype Layout = Layout(
    blockSize: nat, inodeSize: nat, rootInode: nat, directBlocks: nat, totalBlocks: nat, v6: bool,
    freeAt: nat, width: nat, limit: nat)

  const V6 := Layout(512, 32, 1, 8, 2048, true, 4, 2, 100)
  const V32 := Layout(512, 64, 2, 10, 2048, false, 6, 4, 50)
  const V10 := Layout(4096, 64, 2, 10, 1024, false, 6, 4, 50)

  predicate Known(l: Layout) {
    l == V6 || l == V32 || l == V10
  }

  /** What the free list needs of a layout: a full stack fits into a block, and its length and every
      block number into their fields. */
  predicate Lists(l: Layout) {
    && l.blockSize >= 2 && 1 <= l.limit < 65536 && EntryStart(0, l.width, l.limit) <= l.blockSize
    && l.totalBlocks <= Limit(l.width)
  }

  type Image = seq<Block>

  predicate Sized(l: Layout, m: Image) {
    |m| == l.totalBlocks && forall b :: 0 <= b < |m| ==> |m[b]| == l.blockSize
  }

  // ---- The free list ----

  /** Entry i of the list that starts at `at`: the count first, then the block numbers. */
  function EntryStart(at: nat, w: nat, i: nat): nat {
    at + 2 + i * w
  }

  function Entry(s: Block, at: nat, w: nat, i: nat): nat
    requires EntryStart(at, w, i) + w <= |s|
  {
    Value(s[EntryStart(at, w, i)..EntryStart(at, w, i) + w])
  }

  /** The list read at `at`, as allocation reads it. */
  function Load(s: Block, at: nat, w: nat): (list: seq<nat>)
    requires at + 2 <= |s|
  {
    var n := Value(s[at..at + 2]);
    if EntryStart(at, w, n) <= |s| then
      seq(n, i requires 0 <= i < n => (EntriesFit(at, w, i, n, |s|); Entry(s, at, w, i)))
    else []
  }

  lemma EntriesFit(at: nat, w: nat, i: nat, n: nat, size: nat)
    requires i < n && EntryStart(at, w, n) <= size
    ensures EntryStart(at, w, i) + w <= size
  {
    MulGrows(i + 1, n, w);
    MulSplit(i, 1, w);
  }

  /** Allocating until nothing is left, from this stack on, hands out exactly these blocks: pop the
      last; if that empties the stack, the block popped holds the next stack. */
  ghost predicate Drains(l: Layout, m: Image, stack: seq<nat>, out: seq<nat>)
    requires Sized(l, m) && l.blockSize >= 2
    decreases |out|
  {
    if stack == [] then out == []
    else
      var b := stack[|stack| - 1];
      out != [] && out[0] == b && b < |m|
      && Drains(l, m, if |stack| == 1 then Load(m[b], 0, l.width) else stack[..|stack| - 1], out[1..])
  }

  /** Only the blocks handed out are looked into. */
  lemma {:induction false} DrainsFrame(l: Layout, m: Image, m': Image, stack: seq<nat>, out: seq<nat>)
    requires Sized(l, m) && Sized(l, m') && l.blockSize >= 2 && Drains(l, m, stack, out)
    requires forall b :: b in out && b < |m| ==> m'[b] == m[b]
    ensures Drains(l, m', stack, out)
    decreases |out|
  {
    if stack != [] {
      var b := stack[|stack| - 1];
      assert b in out;
      DrainsFrame(l, m, m', if |stack| == 1 then Load(m[b], 0, l.width) else stack[..|stack| - 1], out[1..]);
    }
  }

  /** What is handed out is determined by the image. */
  lemma {:induction false} DrainsOnce(l: Layout, m: Image, stack: seq<nat>, out: seq<nat>, out': seq<nat>)
    requires Sized(l, m) && l.blockSize >= 2 && Drains(l, m, stack, out) && Drains(l, m, stack, out')
    ensures out == out'
    decreases |out|
  {
    if stack != [] {
      var b := stack[|stack| - 1];
      DrainsOnce(l, m, if |stack| == 1 then Load(m[b], 0, l.width) else stack[..|stack| - 1], out[1..], out'[1..]);
      assert out == [out[0]] + out[1..] && out' == [out'[0]] + out'[1..];
    }
  }

  function Range(lo: nat, hi: nat): (s: seq<nat>)
    requires lo <= hi
    ensures |s| == hi - lo && forall i :: 0 <= i < |s| ==> s[i] == lo + i
  {
    seq(hi - lo, i requires 0 <= i < hi - lo => lo + i)
  }

  lemma Pushed(l: Layout, m: Image, stack: seq<nat>, b: nat)
    requires Sized(l, m) && l.blockSize >= 2 && b < |m|
    requires Drains(l, m, stack, Range(b + 1, |m|)) && (stack == [] ==> Load(m[b], 0, l.width) == [])
    ensures Drains(l, m, stack + [b], Range(b, |m|))
  {
    var s, out := stack + [b], Range(b, |m|);
    assert out[1..] == Range(b + 1, |m|) && s[..|s| - 1] == stack && s[|s| - 1] == b;
  }

  lemma Chained(l: Layout, m: Image, m': Image, stack: seq<nat>, b: nat)
    requires Sized(l, m) && Sized(l, m') && l.blockSize >= 2 && b < |m|
    requires Drains(l, m, stack, Range(b + 1, |m|)) && m' == m[b := m'[b]] && Load(m'[b], 0, l.width) == stack
    ensures Drains(l, m', [b], Range(b, |m|))
  {
    DrainsFrame(l, m, m', stack, Range(b + 1, |m|));
    assert Range(b, |m|)[1..] == Range(b + 1, |m|);
  }

  /** The first n entries of the list are in place, and nothing around the list has changed. */
  ghost predicate EntriesWritten(s: Block, r: Block, at: nat, w: nat, list: seq<nat>, n: nat)
    requires n <= |list| && EntryStart(at, w, |list|) <= |s|
  {
    && |r| == |s|
    && (forall i :: 0 <= i < n ==> EntryHas(r, at, w, list, i))
    && forall k :: 0 <= k < |s| && !(at + 2 <= k < EntryStart(at, w, |list|)) ==> r[k] == s[k]
  }

  ghost predicate EntryHas(r: Block, at: nat, w: nat, list: seq<nat>, i: nat)
    requires i < |list|
  {
    EntryStart(at, w, i) + w <= |r| && Entry(r, at, w, i) == list[i]
  }

  lemma NextEntry(s: Block, r: Block, at: nat, w: nat, list: seq<nat>, n: nat)
    requires n < |list| && EntryStart(at, w, |list|) <= |s| && EntriesWritten(s, r, at, w, list, n) && list[n] < Limit(w)
    ensures EntryStart(at, w, n) + w <= |r|
    ensures EntriesWritten(s, Patch(r, EntryStart(at, w, n), LE(list[n], w)), at, w, list, n + 1)
  {
    hide LE, Limit, Value, Entry, EntryHas;
    EntriesFit(at, w, n, |list|, |s|);
    EntriesApart(at, w, n, |list|);
    var r' := Patch(r, EntryStart(at, w, n), LE(list[n], w));
    EntryPut(r, at, w, list, n);
    forall i | 0 <= i < n ensures EntryHas(r', at, w, list, i) {
      assert EntryHas(r, at, w, list, i);
      EntriesApart(at, w, i, n);
      EntryKept(r, r', at, w, list, i);
    }
  }

  lemma EntriesApart(at: nat, w: nat, i: nat, n: nat)
    requires i < n
    ensures at + 2 <= EntryStart(at, w, i) && EntryStart(at, w, i) + w <= EntryStart(at, w, n)
  {
    MulGrows(i + 1, n, w);
    MulSplit(i, 1, w);
  }

  lemma EntryPut(r: Block, at: nat, w: nat, list: seq<nat>, n: nat)
    requires n < |list| && list[n] < Limit(w) && EntryStart(at, w, n) + w <= |r|
    ensures EntryHas(Patch(r, EntryStart(at, w, n), LE(list[n], w)), at, w, list, n)
  {
    hide LE, Limit, Value, EntryStart;
    ValueOfLE(list[n], w);
    var k := EntryStart(at, w, n);
    assert Patch(r, k, LE(list[n], w))[k..k + w] == LE(list[n], w);
  }

  lemma EntryKept(r: Block, r': Block, at: nat, w: nat, list: seq<nat>, i: nat)
    requires i < |list| && EntryHas(r, at, w, list, i) && |r'| == |r|
    requires forall k :: EntryStart(at, w, i) <= k < EntryStart(at, w, i) + w ==> r'[k] == r[k]
    ensures EntryHas(r', at, w, list, i)
  {
    hide Value, EntryStart;
    var k := EntryStart(at, w, i);
    assert r'[k..k + w] == r[k..k + w];
  }

  lemma ListLoads(s: Block, r: Block, at: nat, w: nat, list: seq<nat>)
    requires EntryStart(at, w, |list|) <= |s| && EntriesWritten(s, r, at, w, list, |list|)
    requires |list| < Limit(2) && s[at..at + 2] == LE(|list|, 2)
    ensures Load(r, at, w) == list
  {
    hide LE, Limit, Value;
    ValueOfLE(|list|, 2);
    assert r[at..at + 2] == s[at..at + 2];
    var loaded := Load(r, at, w);
    assert |loaded| == |list|;
    forall i | 0 <= i < |list| ensures loaded[i] == list[i] {
      assert EntryHas(r, at, w, list, i);
    }
  }

  lemma TwoBytes(n: nat)
    requires n < 65536
    ensures n < Limit(2) && Value(LE(n, 2)) == n
  {
    assert Limit(1) == 256 && Limit(2) == 65536;
    ValueOfLE(n, 2);
  }

  /** Write numbers one after another, from at + 2 on. */
  method WriteEntries(s: Block, at: nat, w: nat, list: seq<nat>) returns (r: Block)
    requires EntryStart(at, w, |list|) <= |s| && forall i :: 0 <= i < |list| ==> list[i] < Limit(w)
    ensures EntriesWritten(s, r, at, w, list, |list|)
  {
    hide LE, Limit, Entry, EntryStart;
    r := s;
    for i := 0 to |list|
      invariant EntriesWritten(s, r, at, w, list, i)
    {
      NextEntry(s, r, at, w, list, i);
      r := Patch(r, EntryStart(at, w, i), LE(list[i], w));
    }
  }

  /** Write a list: its length, and then its entries. */
  method WriteList(s: Block, at: nat, w: nat, list: seq<nat>) returns (r: Block)
    requires EntryStart(at, w, |list|) <= |s| && |list| < 65536 && forall i :: 0 <= i < |list| ==> list[i] < Limit(w)
    ensures |r| == |s| && Load(r, at, w) == list
    ensures forall k :: 0 <= k < |s| && !(at <= k < EntryStart(at, w, |list|)) ==> r[k] == s[k]
  {
    hide LE, Limit, Entry, EntryStart;
    TwoBytes(|list|);
    ListStart(at, w, |list|);
    var s1 := Patch(s, at, LE(|list|, 2));
    assert s1[at..at + 2] == LE(|list|, 2);
    r := WriteEntries(s1, at, w, list);
    ListLoads(s1, r, at, w, list);
  }

  lemma ListStart(at: nat, w: nat, n: nat)
    ensures EntryStart(at, w, n) >= at + 2
  {
  }

  class Fixture {
    const layout: Layout
    var image: Image

    ghost predicate Valid()
      reads this
    {
      Known(layout) && Sized(layout, image)
    }

    /** The image may be of any size, and the free list of any limit. */
    ghost predicate Threadable()
      reads this
    {
      Lists(layout) && Sized(layout, image)
    }

    constructor (layout: Layout)
      ensures this.layout == layout && Sized(layout, image) && forall b :: 0 <= b < |image| ==> Blank(image[b])
    {
      this.layout := layout;
      image := seq(layout.totalBlocks, _ => Zeros(layout.blockSize));
    }

    /** Chain the blocks from firstFree to the end into a free list, and return the stack it starts from. */
    method WriteFreeBlocks(firstFree: nat) returns (stack: seq<nat>)
      requires Threadable() && firstFree <= layout.totalBlocks
      requires forall b :: firstFree <= b < layout.totalBlocks ==> Blank(image[b])
      modifies this
      ensures Threadable() && forall b :: 0 <= b < firstFree ==> image[b] == old(image[b])
      ensures |stack| <= layout.limit && Drains(layout, image, stack, Range(firstFree, layout.totalBlocks))
      ensures forall i :: 0 <= i < |stack| ==> firstFree <= stack[i] < layout.totalBlocks
    {
      hide Drains, EntryStart, Limit;
      stack := [];
      NothingDrains(layout, image);
      var block := layout.totalBlocks;
      while block > firstFree
        invariant firstFree <= block <= layout.totalBlocks && Threadable() && |stack| <= layout.limit
        invariant forall b :: 0 <= b < block ==> image[b] == old(image[b])
        invariant stack == [] ==> block == layout.totalBlocks
        invariant forall i :: 0 <= i < |stack| ==> firstFree <= stack[i] < layout.totalBlocks
        invariant Drains(layout, image, stack, Range(block, layout.totalBlocks))
      {
        block := block - 1;
        BlankLoads(image[block], layout.width);
        if |stack| == layout.limit {
          ghost var m := image;
          var r := WriteList(image[block], 0, layout.width, stack);
          image := image[block := r];
          Chained(layout, m, image, stack, block);
          stack := [block];
        } else {
          Pushed(layout, image, stack, block);
          stack := stack + [block];
        }
      }
    }

    /** The lowest inodes not in use, a hundred at most. */
    method FreeInodes(first: nat, capacity: nat, inUse: set<nat>) returns (list: seq<nat>)
      ensures |list| <= 100 && InodesListed(list, first, capacity + 1, inUse)
    {
      list := [];
      var inode := first;
      while inode <= capacity && |list| < 100
        invariant first <= inode && (inode <= capacity + 1 || inode == first) && |list| <= 100
        invariant InodesListed(list, first, inode, inUse)
        decreases capacity + 1 - inode
      {
        if inode !in inUse {
          list := list + [inode];
        }
        inode := inode + 1;
      }
    }

    /** Write the superblock, and the free list that starts from it. */
    method WriteSuperblock(dataStart: nat, usedBlocks: nat, inUse: set<nat>)
      requires Valid() && 2 <= dataStart <= usedBlocks <= layout.totalBlocks && Blank(image[1])
      requires |inUse| + FirstInode(layout) - 1 <= Capacity(layout, dataStart)
      requires forall b :: usedBlocks <= b < layout.totalBlocks ==> Blank(image[b])
      modifies this
      ensures Valid() && forall b :: 0 <= b < usedBlocks && b != 1 ==> image[b] == old(image[b])
      ensures Drains(layout, image, Load(image[1], layout.freeAt, layout.width), Range(usedBlocks, layout.totalBlocks))
      ensures InodesListed(Load(image[1], InodesAt(layout), 2), FirstInode(layout), Capacity(layout, dataStart) + 1, inUse)
      ensures !layout.v6 ==> Value(image[1][418..422]) == |Range(usedBlocks, layout.totalBlocks)|
    {
      hide Drains, EntryStart, Limit, LE, Value, Load;
      LayoutFacts(layout);
      CapacityFits(layout, dataStart);
      KnownLists(layout);
      var stack := WriteFreeBlocks(usedBlocks);
      var capacity := Capacity(layout, dataStart);
      var inodes := FreeInodes(FirstInode(layout), capacity, inUse);
      ListFits(layout, |stack|);
      ListFits(layout, |inodes|);
      ghost var m := image;
      var s := image[1];
      s := Patch(s, 0, LE(dataStart, 2));
      s := Patch(s, 2, LE(layout.totalBlocks, layout.width));
      s := WriteList(s, layout.freeAt, layout.width, stack);
      ghost var s1 := s;
      s := WriteList(s, InodesAt(layout), 2, inodes);
      LoadKept(s1, s, layout.freeAt, layout.width, |stack|);
      if !layout.v6 {
        ghost var s2 := s;
        s := Patch(s, 418, LE(layout.totalBlocks - usedBlocks, 4));
        s := Patch(s, 422, LE(capacity - |inUse| - (FirstInode(layout) - 1), 2));
        LoadKept(s2, s, layout.freeAt, layout.width, |stack|);
        LoadKept(s2, s, InodesAt(layout), 2, |inodes|);
        ValueOfLE(layout.totalBlocks - usedBlocks, 4);
        assert s[418..422] == LE(layout.totalBlocks - usedBlocks, 4);
      }
      image := image[1 := s];
      DrainsFrame(layout, m, image, stack, Range(usedBlocks, layout.totalBlocks));
    }
  }

  /** These are the unallocated inodes from lo up to hi, in order; all of them, if there are fewer than a hundred. */
  ghost predicate InodesListed(list: seq<nat>, lo: nat, hi: nat, inUse: set<nat>) {
    && (forall i, j :: 0 <= i < j < |list| ==> list[i] < list[j])
    && (forall i :: 0 <= i < |list| ==> lo <= list[i] < hi && list[i] !in inUse)
    && forall x :: lo <= x < hi && x !in inUse && (|list| < 100 || x < list[|list| - 1]) ==> x in list
  }

  function FirstInode(l: Layout): nat {
    if l.v6 then 1 else 2
  }

  function InodesAt(l: Layout): nat {
    if l.v6 then 206 else 208
  }

  function PerBlock(l: Layout): nat
    requires Known(l)
  {
    l.blockSize / l.inodeSize
  }

  function Capacity(l: Layout, dataStart: nat): nat
    requires Known(l) && dataStart >= 2
  {
    (dataStart - 2) * PerBlock(l)
  }

  lemma CapacityFits(l: Layout, dataStart: nat)
    requires Known(l) && 2 <= dataStart <= l.totalBlocks
    ensures Capacity(l, dataStart) < 65536
  {
  }

  lemma LoadKept(s: Block, r: Block, at: nat, w: nat, n: nat)
    requires |s| == |r| && EntryStart(at, w, n) <= |s| && |Load(s, at, w)| == n
    requires forall k :: at <= k < EntryStart(at, w, n) ==> r[k] == s[k]
    ensures Load(r, at, w) == Load(s, at, w)
  {
    hide Value;
    ListStart(at, w, n);
    assert r[at..at + 2] == s[at..at + 2];
    var count := Value(s[at..at + 2]);
    if EntryStart(at, w, count) <= |s| {
      forall i | 0 <= i < n ensures EntryStart(at, w, i) + w <= |s| && Entry(r, at, w, i) == Entry(s, at, w, i) {
        EntriesApart(at, w, i, n);
        var k := EntryStart(at, w, i);
        assert r[k..k + w] == s[k..k + w];
      }
    }
  }

  predicate Blank(s: Block) {
    forall i :: 0 <= i < |s| ==> s[i] == 0
  }

  lemma BlankLoads(s: Block, w: nat)
    requires Blank(s) && |s| >= 2
    ensures Load(s, 0, w) == []
  {
    var a, b := s[0..2], s[1..2];
    assert a[1..] == b && b[1..] == [];
    assert Value(b) == 0;
    assert Value(a) == 0;
  }

  lemma NothingDrains(l: Layout, m: Image)
    requires Sized(l, m) && l.blockSize >= 2
    ensures Drains(l, m, [], Range(|m|, |m|))
  {
  }

  lemma LayoutFacts(l: Layout)
    requires Known(l)
    ensures l.blockSize >= 512 && 1 < l.totalBlocks <= 2048 && l.freeAt <= 6 && (l.width == 2 || l.width == 4) && 50 <= l.limit <= 100
    ensures Limit(2) == 65536 && Limit(4) == 0x1_0000_0000 && 65536 <= Limit(l.width)
  {
    assert Limit(1) == 256 && Limit(2) == 65536 && Limit(3) == 0x100_0000 && Limit(4) == 0x1_0000_0000;
  }

  lemma KnownLists(l: Layout)
    requires Known(l)
    ensures Lists(l)
  {
    hide Limit;
    LayoutFacts(l);
    ListFits(l, l.limit);
  }

  lemma ListFits(l: Layout, n: nat)
    requires Known(l) && n <= 100
    ensures n <= l.limit ==> EntryStart(0, l.width, n) <= 202
    ensures n <= l.limit ==> EntryStart(l.freeAt, l.width, n) <= InodesAt(l)
    ensures n <= 100 ==> EntryStart(InodesAt(l), 2, n) <= 410
  {
  }
}
