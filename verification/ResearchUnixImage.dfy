/** A whole Research Unix image: data blocks, superblock, inodes, and its verification. */
module ResearchUnixImage {
  import opened Arithmetic
  import opened Wrappers
  import opened BlockVolume
  import opened ByteStrings
  import opened Chunks
  import opened ResearchUnix

  /** A file or directory with its inode; the data of a directory are its entries. */
  datatype Node = Node(inode: nat, mode: nat, links: nat, data: seq<byte>)

  datatype Error = TooLong(index: nat) | ImageFull | TooManyLinks(index: nat)

  // ---- Inodes ----

  function AddrAt(l: Layout): nat {
    if l.v6 then 6 else 10
  }

  function AddrWidth(l: Layout): nat {
    if l.v6 then 2 else 3
  }

  function AddrCount(l: Layout): nat {
    if l.v6 then 8 else 13
  }

  function InodeBlock(l: Layout, inode: nat): nat
    requires Known(l) && inode >= 1
  {
    2 + (inode - 1) / PerBlock(l)
  }

  function InodeOffset(l: Layout, inode: nat): (k: nat)
    requires Known(l) && inode >= 1
    ensures k + l.inodeSize <= l.blockSize
  {
    (inode - 1) % PerBlock(l) * l.inodeSize
  }

  function InodeBytes(l: Layout, m: Image, inode: nat): (s: Block)
    requires Known(l) && Sized(l, m) && inode >= 1 && InodeBlock(l, inode) < |m|
    ensures |s| == l.inodeSize
  {
    m[InodeBlock(l, inode)][InodeOffset(l, inode)..InodeOffset(l, inode) + l.inodeSize]
  }

  function Nonzero(s: seq<nat>): seq<nat> {
    if s == [] then [] else (if s[0] == 0 then [] else [s[0]]) + Nonzero(s[1..])
  }

  function Addresses(l: Layout, s: Block): seq<nat>
    requires Known(l) && |s| == l.inodeSize
  {
    seq(AddrCount(l), i requires 0 <= i < AddrCount(l) => (AddressFits(l, i); Entry(s, AddrAt(l), AddrWidth(l), i)))
  }

  lemma AddressFits(l: Layout, i: nat)
    requires Known(l) && i <= AddrCount(l)
    ensures i < AddrCount(l) ==> EntryStart(AddrAt(l), AddrWidth(l), i) + AddrWidth(l) <= l.inodeSize
    ensures EntryStart(AddrAt(l), AddrWidth(l), i) <= l.inodeSize
  {
  }

  /** The fields of an inode as the reader sees them. */
  function InodeFields(l: Layout, s: Block): (nat, nat, seq<nat>)
    requires Known(l) && |s| == l.inodeSize
  {
    var size := if l.v6 then 65536 * Value(s[5..6]) + Value(s[6..8]) else Value(s[8..12]);
    (Value(s[0..2]), size, Nonzero(Addresses(l, s)))
  }

  lemma {:induction false} NonzeroRange(s: seq<nat>, lo: nat, hi: nat)
    requires 0 < lo <= hi && hi - lo <= |s| && forall i :: 0 <= i < |s| ==> s[i] == if i < hi - lo then lo + i else 0
    ensures Nonzero(s) == Range(lo, hi)
    decreases |s|
  {
    if s != [] {
      if lo < hi {
        NonzeroRange(s[1..], lo + 1, hi);
        assert Range(lo, hi) == [lo] + Range(lo + 1, hi);
      } else {
        NonzeroRange(s[1..], lo, hi);
      }
    }
  }

  /** The head of an inode: mode, links, owners, size. */
  function InodeHead(l: Layout, node: Node): (s: seq<byte>)
    requires Known(l) && node.mode < Limit(2) && node.links < Limit(if l.v6 then 1 else 2)
    requires if l.v6 then |node.data| < 0x100_0000 else |node.data| < Limit(4)
    ensures |s| == AddrAt(l) + 2
  {
    HeadLimits(|node.data|);
    if l.v6 then LE(node.mode, 2) + LE(node.links, 1) + [0, 0] + LE(|node.data| / 65536, 1) + LE(|node.data| % 65536, 2)
    else LE(node.mode, 2) + LE(node.links, 2) + [0, 0, 0, 0] + LE(|node.data|, 4)
  }

  lemma HeadLimits(n: nat)
    ensures n % 65536 < Limit(2) && (n < 0x100_0000 ==> n / 65536 < Limit(1))
  {
    assert Limit(1) == 256 && Limit(2) == 65536;
  }

  lemma HeadReads(l: Layout, node: Node, s: Block)
    requires Known(l) && node.mode < Limit(2) && node.links < Limit(if l.v6 then 1 else 2)
    requires if l.v6 then |node.data| < 0x100_0000 else |node.data| < Limit(4)
    requires |s| == l.inodeSize && s[..AddrAt(l) + 2] == InodeHead(l, node)
    ensures InodeFields(l, s).0 == node.mode && InodeFields(l, s).1 == |node.data|
  {
    hide LE, Limit, Value, Addresses;
    HeadLimits(|node.data|);
    var h := InodeHead(l, node);
    ValueOfLE(node.mode, 2);
    assert s[0..2] == h[0..2] == LE(node.mode, 2);
    if l.v6 {
      ValueOfLE(|node.data| / 65536, 1);
      ValueOfLE(|node.data| % 65536, 2);
      assert s[5..6] == h[5..6] == LE(|node.data| / 65536, 1);
      assert s[6..8] == h[6..8] == LE(|node.data| % 65536, 2);
    } else {
      ValueOfLE(|node.data|, 4);
      assert s[8..12] == h[8..12] == LE(|node.data|, 4);
    }
  }

  /** The inode of the node says what it should. */
  ghost predicate InodeHolds(l: Layout, m: Image, node: Node, start: nat)
    requires Known(l) && Sized(l, m)
  {
    && node.inode >= 1 && InodeBlock(l, node.inode) < |m|
    && InodeFields(l, InodeBytes(l, m, node.inode)) == (node.mode, |node.data|, Range(start, start + Count(l, node.data)))
  }

  lemma AddressesRead(l: Layout, s: Block, r: Block, start: nat, n: nat)
    requires Known(l) && |s| == l.inodeSize && 0 < start && n <= l.directBlocks
    requires forall k :: AddrAt(l) + 2 <= k < |s| ==> s[k] == 0
    requires EntryStart(AddrAt(l), AddrWidth(l), n) <= |s|
    requires EntriesWritten(s, r, AddrAt(l), AddrWidth(l), Range(start, start + n), n)
    ensures Nonzero(Addresses(l, r)) == Range(start, start + n)
  {
    hide Nonzero;
    var list, at, w := Range(start, start + n), AddrAt(l), AddrWidth(l);
    forall i | 0 <= i < AddrCount(l) ensures Addresses(l, r)[i] == if i < n then start + i else 0 {
      AddressFits(l, i);
      if i < n {
        assert EntryHas(r, at, w, list, i);
      } else {
        ZeroEntry(r, at, w, i, n);
      }
    }
    NonzeroRange(Addresses(l, r), start, start + n);
  }

  lemma ZeroEntry(r: Block, at: nat, w: nat, i: nat, n: nat)
    requires n <= i && EntryStart(at, w, i) + w <= |r| && forall k :: EntryStart(at, w, n) <= k < |r| ==> r[k] == 0
    ensures Entry(r, at, w, i) == 0
  {
    MulGrows(n, i, w);
    ZeroValue(r[EntryStart(at, w, i)..EntryStart(at, w, i) + w]);
  }

  lemma {:induction false} ZeroValue(s: seq<byte>)
    requires forall i :: 0 <= i < |s| ==> s[i] == 0
    ensures Value(s) == 0
  {
    if s != [] {
      ZeroValue(s[1..]);
    }
  }

  lemma InodesApart(l: Layout, a: nat, b: nat)
    requires Known(l) && 1 <= a && 1 <= b && a != b && InodeBlock(l, a) == InodeBlock(l, b)
    ensures InodeOffset(l, a) + l.inodeSize <= InodeOffset(l, b) || InodeOffset(l, b) + l.inodeSize <= InodeOffset(l, a)
  {
    assert (a - 1) % PerBlock(l) != (b - 1) % PerBlock(l);
  }

  method WriteInode(f: Fixture, node: Node, start: nat)
    requires f.Valid() && node.inode >= 1 && InodeBlock(f.layout, node.inode) < |f.image|
    requires Blank(InodeBytes(f.layout, f.image, node.inode)) && Count(f.layout, node.data) <= f.layout.directBlocks
    requires node.mode < 65536 && node.links < (if f.layout.v6 then 256 else 65536) && 0 < start && start + Count(f.layout, node.data) <= |f.image|
    modifies f
    ensures f.Valid() && InodeHolds(f.layout, f.image, node, start)
    ensures forall b :: 0 <= b < |f.image| && b != InodeBlock(f.layout, node.inode) ==> f.image[b] == old(f.image[b])
    ensures forall i :: 1 <= i && i != node.inode && InodeBlock(f.layout, i) < |f.image| ==>
      InodeBytes(f.layout, f.image, i) == InodeBytes(f.layout, old(f.image), i)
  {
    hide InodeFields, Addresses, InodeHead, EntryStart, Limit, LE;
    var l, inode := f.layout, node.inode;
    var n := Count(l, node.data);
    LimitFacts();
    CountCovers(l, node.data);
    AddressFits(l, n);
    var b, off := InodeBlock(l, inode), InodeOffset(l, inode);
    var s0 := InodeBytes(l, f.image, inode);
    var s := Patch(s0, 0, InodeHead(l, node));
    var r := WriteEntries(s, AddrAt(l), AddrWidth(l), Range(start, start + n));
    AddressesRead(l, s, r, start, n);
    assert r[..AddrAt(l) + 2] == InodeHead(l, node);
    HeadReads(l, node, r);
    ghost var m := f.image;
    f.image := f.image[b := Patch(f.image[b], off, r)];
    assert InodeBytes(l, f.image, inode) == r;
    FieldsAre(l, r, node, start);
    forall i | 1 <= i && i != inode && InodeBlock(l, i) < |f.image| ensures InodeBytes(l, f.image, i) == InodeBytes(l, m, i) {
      if InodeBlock(l, i) == b { InodesApart(l, i, inode); }
      assert InodeBytes(l, f.image, i) == InodeBytes(l, m, i);
    }
  }

  lemma FieldsAre(l: Layout, r: Block, node: Node, start: nat)
    requires Known(l) && |r| == l.inodeSize && InodeFields(l, r).0 == node.mode && InodeFields(l, r).1 == |node.data|
    requires Nonzero(Addresses(l, r)) == Range(start, start + Count(l, node.data))
    ensures InodeFields(l, r) == (node.mode, |node.data|, Range(start, start + Count(l, node.data)))
  {
  }

  lemma LimitFacts()
    ensures Limit(1) == 256 && Limit(2) == 65536 && Limit(3) == 0x100_0000 && Limit(4) == 0x1_0000_0000
  {
    assert Limit(1) == 256 && Limit(2) == 65536 && Limit(3) == 0x100_0000;
  }

  // ---- Data ----

  /** The blocks that data takes; even none takes one. */
  function Count(l: Layout, data: seq<byte>): (n: nat)
    requires Known(l)
    ensures n >= 1
  {
    if data == [] then 1 else (|data| + l.blockSize - 1) / l.blockSize
  }

  lemma CountCovers(l: Layout, data: seq<byte>)
    requires Known(l)
    ensures |data| <= Count(l, data) * l.blockSize
    ensures Count(l, data) <= l.directBlocks ==> |data| <= 40960 && |data| < Limit(4) && |data| < 0x100_0000
    ensures l.directBlocks < AddrCount(l) || l.v6
  {
    LimitFacts();
  }

  lemma CountSteps(l: Layout, data: seq<byte>, k: nat)
    requires Known(l) && k < Count(l, data)
    ensures k * l.blockSize <= |data|
  {
  }

  ghost predicate ChunkAt(l: Layout, m: Image, data: seq<byte>, start: nat, k: nat)
    requires Known(l) && Sized(l, m)
  {
    start + k < |m| && m[start + k][..|Chunk(l.blockSize, data, k)|] == Chunk(l.blockSize, data, k)
  }

  /** The data lie in consecutive blocks from start on. */
  ghost predicate DataHolds(l: Layout, m: Image, data: seq<byte>, start: nat)
    requires Known(l) && Sized(l, m)
  {
    forall k :: 0 <= k < Count(l, data) ==> ChunkAt(l, m, data, start, k)
  }

  method WriteData(f: Fixture, data: seq<byte>, start: nat)
    requires f.Valid() && start + Count(f.layout, data) <= |f.image|
    modifies f
    ensures f.Valid() && DataHolds(f.layout, f.image, data, start)
    ensures forall b :: 0 <= b < |f.image| && !(start <= b < start + Count(f.layout, data)) ==> f.image[b] == old(f.image[b])
  {
    hide Chunk, Count;
    for k := 0 to Count(f.layout, data)
      invariant f.Valid()
      invariant forall j :: 0 <= j < k ==> ChunkAt(f.layout, f.image, data, start, j)
      invariant forall b :: 0 <= b < |f.image| && !(start <= b < start + k) ==> f.image[b] == old(f.image[b])
    {
      ghost var m := f.image;
      var c := Chunk(f.layout.blockSize, data, k);
      var r := Patch(f.image[start + k], 0, c);
      assert r[..|c|] == c;
      f.image := f.image[start + k := r];
      forall j | 0 <= j < k ensures ChunkAt(f.layout, f.image, data, start, j) {
        assert ChunkAt(f.layout, m, data, start, j) && f.image[start + j] == m[start + j];
      }
      assert ChunkAt(f.layout, f.image, data, start, k);
    }
  }

  /** Join the blocks and cut the result to size: this is the data exactly if the blocks hold it. */
  method ReadBlocks(f: Fixture, blocks: seq<nat>, size: nat, ghost data: seq<byte>, ghost start: nat) returns (r: seq<byte>)
    requires f.Valid() && start + Count(f.layout, data) <= |f.image|
    requires blocks == Range(start, start + Count(f.layout, data)) && size == |data|
    ensures r == data <==> DataHolds(f.layout, f.image, data, start)
  {
    hide Count, Chunk, Lo;
    r := [];
    var l := f.layout;
    LoSteps(l.blockSize, data, 0);
    for k := 0 to |blocks|
      invariant |r| == k * l.blockSize && Lo(l.blockSize, data, k) <= |r|
      invariant r[..Lo(l.blockSize, data, k)] == data[..Lo(l.blockSize, data, k)] <==> forall j :: 0 <= j < k ==> ChunkAt(l, f.image, data, start, j)
    {
      CountSteps(l, data, k);
      JoinChunk(l.blockSize, data, r, f.image[blocks[k]], k);
      LoSteps(l.blockSize, data, k);
      assert f.image[blocks[k]][..|Chunk(l.blockSize, data, k)|] == Chunk(l.blockSize, data, k) <==> ChunkAt(l, f.image, data, start, k);
      r := r + f.image[blocks[k]];
    }
    LoSteps(l.blockSize, data, |blocks|);
    CountCovers(l, data);
    r := r[..size];
  }

  lemma DataFrame(l: Layout, m: Image, m': Image, data: seq<byte>, start: nat)
    requires Known(l) && Sized(l, m) && Sized(l, m') && DataHolds(l, m, data, start)
    requires forall b :: start <= b < start + Count(l, data) && b < |m| ==> m'[b] == m[b]
    ensures DataHolds(l, m', data, start)
  {
    hide Count, Chunk;
    forall k | 0 <= k < Count(l, data) ensures ChunkAt(l, m', data, start, k) {
      assert ChunkAt(l, m, data, start, k);
    }
  }

  // ---- The whole image ----

  /** Inodes are numbered in the order in which the tree was collected. */
  ghost predicate Collected(l: Layout, nodes: seq<Node>) {
    && nodes != []
    && forall i :: 0 <= i < |nodes| ==> nodes[i].inode == l.rootInode + i && nodes[i].mode < 65536 && nodes[i].links < 65536
  }

  function InodeBlocks(l: Layout, nodes: seq<Node>): nat
    requires Known(l)
  {
    (l.rootInode + |nodes| - 1 + PerBlock(l) - 1) / PerBlock(l)
  }

  /** The first block of node i; of the free blocks, if i is one past the last node. */
  function Start(l: Layout, nodes: seq<Node>, i: nat): nat
    requires Known(l) && i <= |nodes|
  {
    if i == 0 then 2 + InodeBlocks(l, nodes) else Start(l, nodes, i - 1) + Count(l, nodes[i - 1].data)
  }

  /** Whether the nodes can be put into an image of this layout. */
  predicate Fits(l: Layout, nodes: seq<Node>)
    requires Known(l)
  {
    && (forall i :: 0 <= i < |nodes| ==> Count(l, nodes[i].data) <= l.directBlocks && (l.v6 ==> nodes[i].links < 256))
    && Start(l, nodes, |nodes|) <= l.totalBlocks
  }

  lemma {:induction false} StartsGrow(l: Layout, nodes: seq<Node>, i: nat, j: nat)
    requires Known(l) && i <= j <= |nodes|
    ensures Start(l, nodes, i) <= Start(l, nodes, j)
    ensures i < j ==> Start(l, nodes, i) + Count(l, nodes[i].data) <= Start(l, nodes, j)
  {
    hide Count, InodeBlocks;
    if i < j {
      StartsGrow(l, nodes, i, j - 1);
    }
  }

  lemma InodesInside(l: Layout, nodes: seq<Node>, i: nat)
    requires Known(l) && Collected(l, nodes) && i < |nodes|
    ensures InodeBlock(l, nodes[i].inode) < 2 + InodeBlocks(l, nodes)
  {
  }

  ghost predicate DataUpTo(l: Layout, m: Image, nodes: seq<Node>, n: nat)
    requires Known(l) && Sized(l, m) && n <= |nodes|
  {
    forall i :: 0 <= i < n ==> DataHolds(l, m, nodes[i].data, Start(l, nodes, i))
  }

  ghost predicate InodesUpTo(l: Layout, m: Image, nodes: seq<Node>, n: nat)
    requires Known(l) && Sized(l, m) && n <= |nodes|
  {
    forall i :: 0 <= i < n ==> InodeHolds(l, m, nodes[i], Start(l, nodes, i))
  }

  lemma DataUpToFrame(l: Layout, m: Image, m': Image, nodes: seq<Node>, n: nat)
    requires Known(l) && Sized(l, m) && Sized(l, m') && n <= |nodes| && DataUpTo(l, m, nodes, n)
    requires forall b :: 2 + InodeBlocks(l, nodes) <= b < Start(l, nodes, n) && b < |m| ==> m'[b] == m[b]
    ensures DataUpTo(l, m', nodes, n)
  {
    hide Count, InodeBlocks, DataHolds;
    forall i | 0 <= i < n ensures DataHolds(l, m', nodes[i].data, Start(l, nodes, i)) {
      StartsGrow(l, nodes, 0, i);
      StartsGrow(l, nodes, i, n);
      DataFrame(l, m, m', nodes[i].data, Start(l, nodes, i));
    }
  }

  /** Give every node its blocks and write its data. */
  method PlaceNodes(f: Fixture, nodes: seq<Node>) returns (r: Result<seq<nat>, Error>)
    requires f.Valid() && Collected(f.layout, nodes) && forall b :: 0 <= b < |f.image| ==> Blank(f.image[b])
    modifies f
    ensures f.Valid()
    ensures r.Err? ==> !Fits(f.layout, nodes)
    ensures r.Ok? ==> |r.value| == |nodes| + 1 && forall i :: 0 <= i <= |nodes| ==> r.value[i] == Start(f.layout, nodes, i)
    ensures r.Ok? ==> Start(f.layout, nodes, |nodes|) <= |f.image| && DataUpTo(f.layout, f.image, nodes, |nodes|)
    ensures r.Ok? ==> forall i :: 0 <= i < |nodes| ==> Count(f.layout, nodes[i].data) <= f.layout.directBlocks
    ensures r.Ok? ==> forall b :: 0 <= b < |f.image| && !(2 + InodeBlocks(f.layout, nodes) <= b < Start(f.layout, nodes, |nodes|)) ==> Blank(f.image[b])
  {
    hide Count, InodeBlocks, Blank, DataHolds, Start, Fits, DataUpTo, Known;
    var l := f.layout;
    NothingPlaced(l, f.image, nodes);
    var nextBlock := 2 + InodeBlocks(l, nodes);
    var starts := [nextBlock];
    for i := 0 to |nodes|
      invariant f.Valid() && |starts| == i + 1 && nextBlock == Start(l, nodes, i)
      invariant forall j :: 0 <= j <= i ==> starts[j] == Start(l, nodes, j)
      invariant i == 0 || nextBlock <= |f.image|
      invariant forall j :: 0 <= j < i ==> Count(l, nodes[j].data) <= l.directBlocks
      invariant DataUpTo(l, f.image, nodes, i)
      invariant forall b :: 0 <= b < |f.image| && !(2 + InodeBlocks(l, nodes) <= b < nextBlock) ==> Blank(f.image[b])
    {
      var count := Count(l, nodes[i].data);
      MustFit(l, nodes, i);
      if count > l.directBlocks {
        return Err(TooLong(i));
      }
      if nextBlock + count > l.totalBlocks {
        return Err(ImageFull);
      }
      ghost var m := f.image;
      WriteData(f, nodes[i].data, nextBlock);
      DataUpToFrame(l, m, f.image, nodes, i);
      DataNext(l, f.image, nodes, i);
      nextBlock := nextBlock + count;
      starts := starts + [nextBlock];
    }
    r := Ok(starts);
  }

  lemma NothingPlaced(l: Layout, m: Image, nodes: seq<Node>)
    requires Known(l) && Sized(l, m)
    ensures Start(l, nodes, 0) == 2 + InodeBlocks(l, nodes) && DataUpTo(l, m, nodes, 0)
  {
  }

  /** What fitting demands of node i. */
  lemma MustFit(l: Layout, nodes: seq<Node>, i: nat)
    requires Known(l) && i < |nodes|
    ensures Start(l, nodes, i + 1) == Start(l, nodes, i) + Count(l, nodes[i].data) && Start(l, nodes, i) >= 2 + InodeBlocks(l, nodes)
    ensures Fits(l, nodes) ==> Count(l, nodes[i].data) <= l.directBlocks && Start(l, nodes, i + 1) <= l.totalBlocks
  {
    hide Count, InodeBlocks;
    StartsGrow(l, nodes, 0, i);
    StartsGrow(l, nodes, i + 1, |nodes|);
  }

  lemma DataNext(l: Layout, m: Image, nodes: seq<Node>, i: nat)
    requires Known(l) && Sized(l, m) && i < |nodes| && DataUpTo(l, m, nodes, i) && DataHolds(l, m, nodes[i].data, Start(l, nodes, i))
    ensures DataUpTo(l, m, nodes, i + 1)
  {
  }

  lemma InodesFrame(l: Layout, m: Image, m': Image, nodes: seq<Node>, n: nat, node: Node)
    requires Known(l) && Sized(l, m) && Sized(l, m') && Collected(l, nodes) && n <= |nodes| && InodesUpTo(l, m, nodes, n)
    requires forall i :: 1 <= i && i != node.inode && InodeBlock(l, i) < |m| ==> InodeBytes(l, m', i) == InodeBytes(l, m, i)
    requires node.inode == l.rootInode + n
    ensures InodesUpTo(l, m', nodes, n)
  {
    hide InodeBytes, InodeFields, Start, Count;
    forall i | 0 <= i < n ensures InodeHolds(l, m', nodes[i], Start(l, nodes, i)) {
      assert InodeHolds(l, m, nodes[i], Start(l, nodes, i));
    }
  }

  ghost predicate InodesBlank(l: Layout, m: Image, nodes: seq<Node>, n: nat)
    requires Known(l) && Sized(l, m) && Collected(l, nodes) && n <= |nodes|
  {
    forall i :: n <= i < |nodes| ==> InodeBlock(l, nodes[i].inode) < |m| && Blank(InodeBytes(l, m, nodes[i].inode))
  }

  /** Write every inode; blocks outside the inode area are left alone. */
  method WriteInodes(f: Fixture, nodes: seq<Node>, starts: seq<nat>) returns (r: Result<(), Error>)
    requires f.Valid() && Collected(f.layout, nodes) && InodesBlank(f.layout, f.image, nodes, 0)
    requires |starts| == |nodes| + 1 && forall i :: 0 <= i <= |nodes| ==> starts[i] == Start(f.layout, nodes, i)
    requires Start(f.layout, nodes, |nodes|) <= |f.image|
    requires forall i :: 0 <= i < |nodes| ==> Count(f.layout, nodes[i].data) <= f.layout.directBlocks
    modifies f
    ensures f.Valid() && (r.Err? ==> !Fits(f.layout, nodes))
    ensures r.Ok? ==> InodesUpTo(f.layout, f.image, nodes, |nodes|) && forall i :: 0 <= i < |nodes| ==> f.layout.v6 ==> nodes[i].links < 256
    ensures forall b :: 0 <= b < |f.image| && !(2 <= b < 2 + InodeBlocks(f.layout, nodes)) ==> f.image[b] == old(f.image[b])
  {
    hide Count, InodeBlocks, InodeFields, InodeBytes, Blank, InodeBlock, Start;
    var l := f.layout;
    for i := 0 to |nodes|
      invariant f.Valid() && InodesUpTo(l, f.image, nodes, i) && InodesBlank(l, f.image, nodes, i)
      invariant forall j :: 0 <= j < i ==> l.v6 ==> nodes[j].links < 256
      invariant forall b :: 0 <= b < |f.image| && !(2 <= b < 2 + InodeBlocks(l, nodes)) ==> f.image[b] == old(f.image[b])
    {
      if l.v6 && nodes[i].links >= 256 {
        return Err(TooManyLinks(i));
      }
      InodesInside(l, nodes, i);
      InodeBlocksStart(l, nodes[i].inode);
      StartsGrow(l, nodes, i, |nodes|);
      StartPositive(l, nodes, i);
      ghost var m := f.image;
      WriteInode(f, nodes[i], starts[i]);
      InodesFrame(l, m, f.image, nodes, i, nodes[i]);
    }
    r := Ok(());
  }

  lemma InodeBlocksStart(l: Layout, inode: nat)
    requires Known(l) && inode >= 1
    ensures InodeBlock(l, inode) >= 2
  {
  }

  lemma StartPositive(l: Layout, nodes: seq<Node>, i: nat)
    requires Known(l) && i <= |nodes|
    ensures Start(l, nodes, i) >= 2 + InodeBlocks(l, nodes) && Start(l, nodes, i) > 0
  {
    StartsGrow(l, nodes, 0, i);
  }

  /** Check every inode and all data against the nodes: this passes exactly if the image holds them. */
  method VerifyImage(f: Fixture, nodes: seq<Node>, starts: seq<nat>) returns (ok: bool)
    requires f.Valid() && |starts| == |nodes| + 1 && forall i :: 0 <= i <= |nodes| ==> starts[i] == Start(f.layout, nodes, i)
    requires Collected(f.layout, nodes) && Start(f.layout, nodes, |nodes|) <= |f.image|
    ensures ok <==> InodesUpTo(f.layout, f.image, nodes, |nodes|) && DataUpTo(f.layout, f.image, nodes, |nodes|)
  {
    hide InodeFields, Start, Count, DataHolds, InodeBlocks, Known;
    var l := f.layout;
    for i := 0 to |nodes|
      invariant InodesUpTo(l, f.image, nodes, i) && DataUpTo(l, f.image, nodes, i)
    {
      var node := nodes[i];
      StartsGrow(l, nodes, i, |nodes|);
      StartsGrow(l, nodes, 0, |nodes|);
      InodesInside(l, nodes, i);
      NodeInImage(l, f.image, nodes, i);
      var (mode, size, blocks) := InodeFields(l, InodeBytes(l, f.image, node.inode));
      if mode != node.mode || size != |node.data| || blocks != Range(starts[i], starts[i] + Count(l, node.data)) {
        return false;
      }
      var actual := ReadBlocks(f, blocks, size, node.data, starts[i]);
      if actual != node.data {
        return false;
      }
    }
    ok := true;
  }

  lemma NodeInImage(l: Layout, m: Image, nodes: seq<Node>, i: nat)
    requires Known(l) && Sized(l, m) && Collected(l, nodes) && i < |nodes| && Start(l, nodes, |nodes|) <= |m|
    ensures nodes[i].inode >= 1 && InodeBlock(l, nodes[i].inode) < |m|
  {
    StartPositive(l, nodes, |nodes|);
    InodesInside(l, nodes, i);
  }

  /** Make an image of the nodes. It is made exactly if they fit, and then passes verification; its
      free list hands out every block past the last file, in order, and no other. */
  method CreateImage(f: Fixture, nodes: seq<Node>) returns (r: Result<(), Error>, verified: bool)
    requires f.Valid() && Collected(f.layout, nodes) && forall b :: 0 <= b < |f.image| ==> Blank(f.image[b])
    modifies f
    ensures f.Valid() && (r.Ok? <==> Fits(f.layout, nodes))
    ensures r.Ok? ==> verified
    ensures r.Ok? ==> InodesUpTo(f.layout, f.image, nodes, |nodes|) && DataUpTo(f.layout, f.image, nodes, |nodes|)
    ensures r.Ok? ==> Start(f.layout, nodes, |nodes|) <= f.layout.totalBlocks
    ensures r.Ok? ==> Drains(f.layout, f.image, Load(f.image[1], f.layout.freeAt, f.layout.width), Range(Start(f.layout, nodes, |nodes|), f.layout.totalBlocks))
  {
    hide Count, InodeBlocks, Blank, Start, DataUpTo, InodesUpTo, InodesBlank, Drains, Load, Known;
    verified := false;
    var l := f.layout;
    var placed := PlaceNodes(f, nodes);
    if placed.Err? {
      return Err(placed.error), false;
    }
    var starts := placed.value;
    var dataStart, used := 2 + InodeBlocks(l, nodes), starts[|nodes|];
    StartPositive(l, nodes, |nodes|);
    InUse(l, nodes);
    ghost var m := f.image;
    LayoutFacts(l);
    f.WriteSuperblock(dataStart, used, Inodes(nodes));
    DataUpToFrame(l, m, f.image, nodes, |nodes|);
    AllInodesBlank(l, m, f.image, nodes);
    ghost var m1 := f.image;
    var written := WriteInodes(f, nodes, starts);
    if written.Err? {
      return Err(written.error), false;
    }
    DataUpToFrame(l, m1, f.image, nodes, |nodes|);
    DrainsFrame(l, m1, f.image, Load(f.image[1], l.freeAt, l.width), Range(used, l.totalBlocks));
    verified := VerifyImage(f, nodes, starts);
    r := Ok(());
  }

  function Inodes(nodes: seq<Node>): set<nat> {
    set i | 0 <= i < |nodes| :: nodes[i].inode
  }

  lemma {:induction false} InodeCount(l: Layout, nodes: seq<Node>)
    requires forall i :: 0 <= i < |nodes| ==> nodes[i].inode == l.rootInode + i
    ensures |Inodes(nodes)| == |nodes|
  {
    if nodes != [] {
      var n := |nodes| - 1;
      InodeCount(l, nodes[..n]);
      assert Inodes(nodes) == Inodes(nodes[..n]) + {nodes[n].inode};
      assert nodes[n].inode !in Inodes(nodes[..n]);
    }
  }

  lemma InUse(l: Layout, nodes: seq<Node>)
    requires Known(l) && Collected(l, nodes)
    ensures |Inodes(nodes)| + FirstInode(l) - 1 <= Capacity(l, 2 + InodeBlocks(l, nodes))
  {
    InodeCount(l, nodes);
  }

  lemma AllInodesBlank(l: Layout, m: Image, m': Image, nodes: seq<Node>)
    requires Known(l) && Collected(l, nodes) && Sized(l, m) && Sized(l, m') && 2 + InodeBlocks(l, nodes) <= |m|
    requires forall b :: 2 <= b < 2 + InodeBlocks(l, nodes) ==> Blank(m[b]) && m'[b] == m[b]
    ensures InodesBlank(l, m', nodes, 0)
  {
    forall i | 0 <= i < |nodes| ensures InodeBlock(l, nodes[i].inode) < |m'| && Blank(InodeBytes(l, m', nodes[i].inode)) {
      InodesInside(l, nodes, i);
      InodeBlocksStart(l, nodes[i].inode);
    }
  }
}
