/** A ProDOS volume: a flat image of 512-byte blocks, and the bitmap that says which are free. */
module BlockVolume {
  import opened Arithmetic
  import opened Bits
  import opened ByteStrings
  import opened Wrappers

  const BLOCK := 512
  const TOTAL_BLOCKS := 1600
  const BITMAP_BLOCK := 6
  const FIRST_DATA := 7

  type Block = seq<byte>

  /** The volume block by block. */
  type Image = seq<Block>

  ghost function Split(s: seq<byte>): (d: Image)
    requires |s| == TOTAL_BLOCKS * BLOCK
    ensures |d| == TOTAL_BLOCKS && forall b :: 0 <= b < TOTAL_BLOCKS ==> |d[b]| == BLOCK
  {
    seq(TOTAL_BLOCKS, b requires 0 <= b < TOTAL_BLOCKS => s[b * BLOCK..b * BLOCK + BLOCK])
  }

  // ---- The bitmap: one bit a block, 1 = free, the high bit first ----

  predicate IsFree(bitmap: Block, b: nat)
    requires |bitmap| == BLOCK && b < TOTAL_BLOCKS
  {
    BitAt(bitmap[b / 8], b % 8) == 1
  }

  function Marked(bitmap: Block, b: nat, v: nat): (r: Block)
    requires |bitmap| == BLOCK && b < TOTAL_BLOCKS && v < 2
    ensures |r| == BLOCK
  {
    bitmap[b / 8 := WithBit(bitmap[b / 8], b % 8, v)]
  }

  lemma MarkedIsFree(bitmap: Block, b: nat, v: nat, c: nat)
    requires |bitmap| == BLOCK && b < TOTAL_BLOCKS && v < 2 && c < TOTAL_BLOCKS
    ensures IsFree(Marked(bitmap, b, v), c) <==> if c == b then v == 1 else IsFree(bitmap, c)
  {
  }

  ghost function FreeBlocks(d: Image): set<nat>
    requires Shaped(d)
  {
    set b: nat | b < TOTAL_BLOCKS && b >= FIRST_DATA && IsFree(d[BITMAP_BLOCK], b)
  }

  ghost predicate Shaped(d: Image) {
    |d| == TOTAL_BLOCKS && forall b :: 0 <= b < TOTAL_BLOCKS ==> |d[b]| == BLOCK
  }

  /** Blocks that are free are still blank: nothing is ever given back. */
  ghost predicate Clean(d: Image)
    requires Shaped(d)
  {
    forall b :: b in FreeBlocks(d) ==> d[b] == Zeros(BLOCK)
  }

  /** d' differs from d in block b only. */
  ghost predicate OneBlock(d: Image, d': Image, b: nat)
    requires Shaped(d) && Shaped(d')
  {
    forall c :: 0 <= c < TOTAL_BLOCKS && c != b ==> d'[c] == d[c]
  }

  lemma PieceOfBlock(bytes: seq<byte>, at: nat, k: nat, n: nat)
    requires at + BLOCK <= |bytes| && k + n <= BLOCK
    ensures bytes[at..at + BLOCK][k..k + n] == bytes[at + k..at + k + n]
  {
    var block, piece := bytes[at..at + BLOCK][k..k + n], bytes[at + k..at + k + n];
    assert forall i :: 0 <= i < n ==> block[i] == piece[i];
  }

  class Volume {
    const img: array<byte>

    ghost predicate Valid()
    {
      img.Length == TOTAL_BLOCKS * BLOCK
    }

    ghost function Disk(): (d: Image)
      requires Valid()
      reads img
      ensures Shaped(d)
    {
      Split(img[..])
    }

    constructor ()
      ensures Valid() && fresh(img) && forall b :: 0 <= b < TOTAL_BLOCKS ==> Disk()[b] == Zeros(BLOCK)
    {
      img := new byte[TOTAL_BLOCKS * BLOCK](_ => 0);
    }

    /** Every real block starts free; boot, volume directory and bitmap are in use. */
    method InitBitmap()
      requires Valid() && forall b :: 0 <= b < TOTAL_BLOCKS ==> Disk()[b] == Zeros(BLOCK)
      modifies img
      ensures OneBlock(old(Disk()), Disk(), BITMAP_BLOCK)
      ensures forall b :: b in FreeBlocks(Disk()) <==> FIRST_DATA <= b < TOTAL_BLOCKS
    {
      hide IsFree, Marked;
      for b := 0 to TOTAL_BLOCKS
        invariant OneBlock(old(Disk()), Disk(), BITMAP_BLOCK)
        invariant forall c: nat :: c < b ==> IsFree(Disk()[BITMAP_BLOCK], c)
      {
        ghost var bitmap := Disk()[BITMAP_BLOCK];
        Mark(b, 1);
        forall c: nat | c < TOTAL_BLOCKS ensures IsFree(Disk()[BITMAP_BLOCK], c) <==> c == b || IsFree(bitmap, c) {
          MarkedIsFree(bitmap, b, 1, c);
        }
      }
      for b := 0 to FIRST_DATA
        invariant OneBlock(old(Disk()), Disk(), BITMAP_BLOCK)
        invariant forall c: nat :: c < TOTAL_BLOCKS ==> (IsFree(Disk()[BITMAP_BLOCK], c) <==> b <= c)
      {
        ghost var bitmap := Disk()[BITMAP_BLOCK];
        Mark(b, 0);
        forall c: nat | c < TOTAL_BLOCKS ensures IsFree(Disk()[BITMAP_BLOCK], c) <==> c != b && IsFree(bitmap, c) {
          MarkedIsFree(bitmap, b, 0, c);
        }
      }
    }

    /** Write bytes at place k of block b; no writer crosses the end of a block. */
    method Write(b: nat, k: nat, data: seq<byte>)
      requires Valid() && b < TOTAL_BLOCKS && k + |data| <= BLOCK
      modifies img
      ensures Disk() == old(Disk())[b := Patch(old(Disk())[b], k, data)]
    {
      var off := b * BLOCK + k;
      ghost var d := Disk();
      forall i | 0 <= i < |data| {
        img[off + i] := data[i];
      }
      forall c | 0 <= c < TOTAL_BLOCKS
        ensures Disk()[c] == if c == b then Patch(d[b], k, data) else d[c]
      {
      }
    }

    method Read(b: nat, k: nat, n: nat) returns (data: seq<byte>)
      requires Valid() && b < TOTAL_BLOCKS && k + n <= BLOCK
      ensures data == Disk()[b][k..k + n]
    {
      var off := b * BLOCK + k;
      data := img[off..off + n];
      PieceOfBlock(img[..], b * BLOCK, k, n);
    }

    method Write16(b: nat, k: nat, value: nat)
      requires Valid() && b < TOTAL_BLOCKS && k + 2 <= BLOCK && value < 65536
      modifies img
      ensures Disk() == old(Disk())[b := Patch(old(Disk())[b], k, LE16(value))]
    {
      Write(b, k, LE16(value));
    }

    method Mark(b: nat, v: nat)
      requires Valid() && b < TOTAL_BLOCKS && v < 2
      modifies img
      ensures Disk() == old(Disk())[BITMAP_BLOCK := Marked(old(Disk())[BITMAP_BLOCK], b, v)]
    {
      ghost var d := Disk();
      var at := BITMAP_BLOCK * BLOCK + b / 8;
      assert img[at] == Disk()[BITMAP_BLOCK][b / 8];
      img[at] := WithBit(img[at], b % 8, v);
      forall c | 0 <= c < TOTAL_BLOCKS
        ensures Disk()[c] == if c == BITMAP_BLOCK then Marked(d[BITMAP_BLOCK], b, v) else d[c]
      {
      }
    }

    method IsFreeBlock(b: nat) returns (free: bool)
      requires Valid() && b < TOTAL_BLOCKS
      ensures free == IsFree(Disk()[BITMAP_BLOCK], b)
    {
      assert img[BITMAP_BLOCK * BLOCK + b / 8] == Disk()[BITMAP_BLOCK][b / 8];
      free := BitAt(img[BITMAP_BLOCK * BLOCK + b / 8], b % 8) == 1;
    }

    /** Take the lowest free block. */
    method AllocBlock() returns (r: Option<nat>)
      requires Valid()
      modifies img
      ensures r.None? <==> old(FreeBlocks(Disk())) == {}
      ensures r.None? ==> Disk() == old(Disk())
      ensures r.Some? ==> r.value in old(FreeBlocks(Disk())) && forall b :: b in old(FreeBlocks(Disk())) ==> r.value <= b
      ensures r.Some? ==> r.value < TOTAL_BLOCKS && Disk()[BITMAP_BLOCK] == Marked(old(Disk())[BITMAP_BLOCK], r.value, 0)
      ensures r.Some? ==> FreeBlocks(Disk()) == old(FreeBlocks(Disk())) - {r.value}
      ensures OneBlock(old(Disk()), Disk(), BITMAP_BLOCK)
    {
      ghost var d := Disk();
      for b := FIRST_DATA to TOTAL_BLOCKS
        invariant Disk() == d
        invariant forall c :: c in FreeBlocks(d) ==> b <= c
      {
        var free := IsFreeBlock(b);
        if free {
          Mark(b, 0);
          Taken(d, Disk(), b);
          assert b in FreeBlocks(d);
          return Some(b);
        }
      }
      return None;
    }
  }

  lemma Taken(d: Image, d': Image, b: nat)
    requires Shaped(d) && Shaped(d') && b < TOTAL_BLOCKS && d'[BITMAP_BLOCK] == Marked(d[BITMAP_BLOCK], b, 0)
    ensures FreeBlocks(d') == FreeBlocks(d) - {b}
  {
    hide Marked, IsFree;
    forall c: nat | c < TOTAL_BLOCKS ensures IsFree(d'[BITMAP_BLOCK], c) <==> c != b && IsFree(d[BITMAP_BLOCK], c) {
      MarkedIsFree(d[BITMAP_BLOCK], b, 0, c);
    }
  }
}
