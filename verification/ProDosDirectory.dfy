/** ProDOS directories: chains of blocks holding thirteen 39-byte entries each. */
module ProDosDirectory {
  import opened Arithmetic
  import opened Wrappers
  import opened BlockVolume
  import opened ByteStrings
  import opened FiniteSets

  const ENTRY_BASE := 0x04
  const ENTRY_LEN := 0x27
  const ENTRIES_PER_BLOCK := 0x0D
  const COUNT_AT := 0x25

  const ST_SEEDLING := 0x1
  const ST_SAPLING := 0x2
  const ST_SUBDIR := 0xD
  const ST_SUBDIR_HEADER := 0xE
  const SUBDIR_MARKER := 0x75
  const ACCESS := 0xC3
  const MAX_NAME := 15

  // ---- Entries ----

  /** A directory entry as it lies on disk. */
  function EntryBytes(storage: nat, name: seq<byte>, ftype: byte, key: u16, used: u16, eof: nat, header: u16): (e: seq<byte>)
    requires storage < 16 && |name| <= MAX_NAME && eof < 0x100_0000
    ensures |e| == ENTRY_LEN
  {
    [storage * 16 + |name|] + name + Zeros(MAX_NAME - |name|) + [ftype] + LE16(key) + LE16(used) + LE24(eof)
    + Zeros(6) + [ACCESS] + Zeros(6) + LE16(header)
  }

  function Storage(e: seq<byte>): nat
    requires |e| == ENTRY_LEN
  {
    e[0] / 16
  }

  function NameLength(e: seq<byte>): nat
    requires |e| == ENTRY_LEN
  {
    e[0] % 16
  }

  function NameIn(e: seq<byte>): seq<byte>
    requires |e| == ENTRY_LEN
  {
    e[1..1 + NameLength(e)]
  }

  function Key(e: seq<byte>): nat
    requires |e| == ENTRY_LEN
  {
    U16(e, 0x11)
  }

  function Eof(e: seq<byte>): nat
    requires |e| == ENTRY_LEN
  {
    var low: int, mid: int, high: int := e[0x15], e[0x16], e[0x17];
    low + 256 * mid + 65536 * high
  }

  /** What is written in an entry is read from it. */
  lemma EntryReads(storage: nat, name: seq<byte>, ftype: byte, key: u16, used: u16, eof: nat, header: u16)
    requires storage < 16 && |name| <= MAX_NAME && eof < 0x100_0000
    ensures var e := EntryBytes(storage, name, ftype, key, used, eof, header);
      Storage(e) == storage && NameLength(e) == |name| && NameIn(e) == name && Key(e) == key && Eof(e) == eof
  {
    var e := EntryBytes(storage, name, ftype, key, used, eof, header);
    assert NameIn(e) == name;
  }

  // ---- Slots ----

  function SlotStart(s: nat): nat {
    ENTRY_BASE + s % ENTRIES_PER_BLOCK * ENTRY_LEN
  }

  /** Slot s of a directory, counted through its blocks; slot 0 is the header. */
  function SlotAt(d: Image, blocks: seq<nat>, s: nat): (e: seq<byte>)
    requires Shaped(d) && s < ENTRIES_PER_BLOCK * |blocks| && forall i :: 0 <= i < |blocks| ==> blocks[i] < TOTAL_BLOCKS
    ensures |e| == ENTRY_LEN
  {
    d[blocks[s / ENTRIES_PER_BLOCK]][SlotStart(s)..SlotStart(s) + ENTRY_LEN]
  }

  function EntryAt(entries: seq<seq<byte>>, i: nat): seq<byte> {
    if i < |entries| then entries[i] else Zeros(ENTRY_LEN)
  }

  function PrevOf(blocks: seq<nat>, i: nat): nat
    requires i < |blocks|
  {
    if i == 0 then 0 else blocks[i - 1]
  }

  function NextOf(blocks: seq<nat>, i: nat): nat
    requires i < |blocks|
  {
    if i + 1 == |blocks| then 0 else blocks[i + 1]
  }

  // ---- What a directory is ----

  ghost predicate Placed(d: Image, blocks: seq<nat>)
    requires Shaped(d)
  {
    && blocks != []
    && (forall i :: 0 <= i < |blocks| ==> 2 <= blocks[i] < TOTAL_BLOCKS && blocks[i] != BITMAP_BLOCK && blocks[i] !in FreeBlocks(d))
    && forall i, j :: 0 <= i < j < |blocks| ==> blocks[i] != blocks[j]
  }

  ghost predicate Linked(d: Image, blocks: seq<nat>)
    requires Shaped(d) && Placed(d, blocks)
  {
    forall i :: 0 <= i < |blocks| ==> LinkedAt(d, blocks, i)
  }

  ghost predicate LinkedAt(d: Image, blocks: seq<nat>, i: nat)
    requires Shaped(d) && i < |blocks| && blocks[i] < TOTAL_BLOCKS
  {
    U16(d[blocks[i]], 0) == PrevOf(blocks, i) && U16(d[blocks[i]], 2) == NextOf(blocks, i)
  }

  ghost predicate SlotHolds(d: Image, blocks: seq<nat>, entries: seq<seq<byte>>, s: nat)
    requires Shaped(d) && Placed(d, blocks) && 1 <= s < ENTRIES_PER_BLOCK * |blocks|
  {
    SlotAt(d, blocks, s) == EntryAt(entries, s - 1)
  }

  /** The directory made of these blocks holds these entries, from slot 1 on, and nothing else. */
  ghost predicate DirHolds(d: Image, blocks: seq<nat>, entries: seq<seq<byte>>)
    requires Shaped(d)
  {
    && Placed(d, blocks) && Linked(d, blocks) && |entries| < ENTRIES_PER_BLOCK * |blocks|
    && U16(d[blocks[0]], COUNT_AT) == |entries|
    && forall s :: 1 <= s < ENTRIES_PER_BLOCK * |blocks| ==> SlotHolds(d, blocks, entries, s)
  }

  /** A directory stands while its blocks are left alone. */
  lemma DirFrame(d: Image, d': Image, blocks: seq<nat>, entries: seq<seq<byte>>)
    requires Shaped(d) && Shaped(d') && DirHolds(d, blocks, entries) && FreeBlocks(d') <= FreeBlocks(d)
    requires forall i :: 0 <= i < |blocks| ==> d'[blocks[i]] == d[blocks[i]]
    ensures DirHolds(d', blocks, entries)
  {
    hide FreeBlocks;
    forall i | 0 <= i < |blocks| ensures LinkedAt(d', blocks, i) { assert LinkedAt(d, blocks, i); }
    forall s | 1 <= s < ENTRIES_PER_BLOCK * |blocks| ensures SlotHolds(d', blocks, entries, s) {
      assert SlotHolds(d, blocks, entries, s);
    }
  }

  /** Writing one entry into its slot. */
  lemma PutEntry(d: Image, d': Image, blocks: seq<nat>, entries: seq<seq<byte>>, s: nat, e: seq<byte>)
    requires Shaped(d) && Shaped(d') && DirHolds(d, blocks, entries) && 1 <= s <= |entries| && |e| == ENTRY_LEN
    requires var b := blocks[s / ENTRIES_PER_BLOCK]; d' == d[b := Patch(d[b], SlotStart(s), e)]
    ensures DirHolds(d', blocks, entries[s - 1 := e])
  {
    hide FreeBlocks, SlotHolds, SlotStart, U16;
    SameBitmap(d, d');
    SlotInside(s);
    var entries' := entries[s - 1 := e];
    var at := blocks[s / ENTRIES_PER_BLOCK];
    U16Outside(d[at], SlotStart(s), e, 0);
    U16Outside(d[at], SlotStart(s), e, 2);
    if s / ENTRIES_PER_BLOCK == 0 { U16Outside(d[at], SlotStart(s), e, COUNT_AT); }
    forall i | 0 <= i < |blocks| ensures LinkedAt(d', blocks, i) { assert LinkedAt(d, blocks, i); }
    forall t | 1 <= t < ENTRIES_PER_BLOCK * |blocks| ensures SlotHolds(d', blocks, entries', t) {
      PutSlot(d, d', blocks, entries, s, e, t);
    }
  }

  lemma SlotInside(s: nat)
    ensures 4 <= SlotStart(s) && SlotStart(s) + ENTRY_LEN <= BLOCK
    ensures s >= 1 && s / ENTRIES_PER_BLOCK == 0 ==> SlotStart(s) >= COUNT_AT + 2
  {
  }

  lemma PutSlot(d: Image, d': Image, blocks: seq<nat>, entries: seq<seq<byte>>, s: nat, e: seq<byte>, t: nat)
    requires Shaped(d) && Shaped(d') && Placed(d, blocks) && Placed(d', blocks) && 1 <= s <= |entries| && |e| == ENTRY_LEN
    requires s < ENTRIES_PER_BLOCK * |blocks| && 1 <= t < ENTRIES_PER_BLOCK * |blocks| && SlotHolds(d, blocks, entries, t)
    requires var b := blocks[s / ENTRIES_PER_BLOCK]; d' == d[b := Patch(d[b], SlotStart(s), e)]
    ensures SlotHolds(d', blocks, entries[s - 1 := e], t)
  {
    hide FreeBlocks;
    if t == s {
      assert SlotAt(d', blocks, t) == e;
    } else {
      if s / ENTRIES_PER_BLOCK == t / ENTRIES_PER_BLOCK { SlotsApart(s, t); }
      assert SlotAt(d', blocks, t) == SlotAt(d, blocks, t);
    }
  }

  lemma SameBitmap(d: Image, d': Image)
    requires Shaped(d) && Shaped(d') && d[BITMAP_BLOCK] == d'[BITMAP_BLOCK]
    ensures FreeBlocks(d') == FreeBlocks(d)
  {
  }

  lemma SlotsApart(s: nat, t: nat)
    requires s != t && s / ENTRIES_PER_BLOCK == t / ENTRIES_PER_BLOCK
    ensures SlotStart(s) + ENTRY_LEN <= SlotStart(t) || SlotStart(t) + ENTRY_LEN <= SlotStart(s)
  {
  }

  /** Counting one more entry, its slot still blank. */
  lemma CountEntry(d: Image, d': Image, blocks: seq<nat>, entries: seq<seq<byte>>)
    requires Shaped(d) && Shaped(d') && DirHolds(d, blocks, entries)
    requires |entries| + 1 < ENTRIES_PER_BLOCK * |blocks| && |entries| + 1 < 65536
    requires d' == d[blocks[0] := Patch(d[blocks[0]], COUNT_AT, LE16(|entries| + 1))]
    ensures DirHolds(d', blocks, entries + [Zeros(ENTRY_LEN)])
  {
    hide FreeBlocks;
    SameBitmap(d, d');
    forall i | 0 <= i < |blocks| ensures LinkedAt(d', blocks, i) { assert LinkedAt(d, blocks, i); }
    forall t | 1 <= t < ENTRIES_PER_BLOCK * |blocks| ensures SlotHolds(d', blocks, entries + [Zeros(ENTRY_LEN)], t) {
      assert SlotHolds(d, blocks, entries, t);
      assert SlotAt(d', blocks, t) == SlotAt(d, blocks, t);
    }
  }

  /** Adding a blank block to the chain. */
  lemma GrowChain(d: Image, d': Image, blocks: seq<nat>, entries: seq<seq<byte>>, b: nat)
    requires Shaped(d) && Shaped(d') && DirHolds(d, blocks, entries) && b in FreeBlocks(d) && d[b] == Zeros(BLOCK)
    requires FreeBlocks(d') == FreeBlocks(d) - {b}
    requires Grown(d, d', blocks, b)
    ensures DirHolds(d', blocks + [b], entries)
  {
    var blocks' := blocks + [b];
    assert b !in blocks && 2 <= b < TOTAL_BLOCKS && b != BITMAP_BLOCK;
    hide FreeBlocks, SlotHolds;
    assert Linked(d', blocks') by { GrowLinks(d, d', blocks, b); }
    forall t | 1 <= t < ENTRIES_PER_BLOCK * |blocks'| ensures SlotHolds(d', blocks', entries, t) {
      GrowSlot(d, d', blocks, entries, b, t);
    }
  }

  ghost predicate Grown(d: Image, d': Image, blocks: seq<nat>, b: nat)
    requires Shaped(d) && Shaped(d') && blocks != [] && blocks[|blocks| - 1] < TOTAL_BLOCKS && b < TOTAL_BLOCKS
  {
    var last := blocks[|blocks| - 1];
    && (forall c :: 0 <= c < TOTAL_BLOCKS && c != BITMAP_BLOCK && c != b && c != last ==> d'[c] == d[c])
    && d'[last] == Patch(d[last], 2, LE16(b)) && d'[b] == Patch(Patch(d[b], 0, LE16(last)), 2, LE16(0))
  }

  /** The bitmap, and the three links that join block b to the chain. */
  lemma LinksWritten(d: Image, d1: Image, d2: Image, d3: Image, d4: Image, blocks: seq<nat>, b: nat)
    requires Shaped(d) && Shaped(d1) && Shaped(d2) && Shaped(d3) && Shaped(d4) && blocks != [] && b < TOTAL_BLOCKS && OneBlock(d, d1, BITMAP_BLOCK)
    requires var last := blocks[|blocks| - 1];
      && last < TOTAL_BLOCKS && last != b && last != BITMAP_BLOCK && b != BITMAP_BLOCK && d2 == d1[last := Patch(d1[last], 2, LE16(b))]
      && d3 == d2[b := Patch(d2[b], 0, LE16(last))]
    requires d4 == d3[b := Patch(d3[b], 2, LE16(0))]
    ensures Grown(d, d4, blocks, b) && FreeBlocks(d4) == FreeBlocks(d1)
  {
    hide Patch, LE16, FreeBlocks;
    SameBitmap(d1, d4);
  }

  lemma GrowLinks(d: Image, d': Image, blocks: seq<nat>, b: nat)
    requires Shaped(d) && Shaped(d') && Placed(d, blocks) && Linked(d, blocks) && b < TOTAL_BLOCKS && Placed(d', blocks + [b])
    requires Grown(d, d', blocks, b)
    ensures Linked(d', blocks + [b])
  {
    hide FreeBlocks, LinkedAt;
    var blocks' := blocks + [b];
    forall i | 0 <= i < |blocks'| ensures LinkedAt(d', blocks', i) {
      if i < |blocks| {
        assert LinkedAt(d, blocks, i);
        assert blocks'[i] != b by { assert blocks'[i] != blocks'[|blocks|]; }
        assert i < |blocks| - 1 ==> blocks[i] != blocks[|blocks| - 1];
      }
      GrowLinkAt(d, d', blocks, b, i);
    }
  }

  lemma GrowLinkAt(d: Image, d': Image, blocks: seq<nat>, b: nat, i: nat)
    requires Shaped(d) && Shaped(d') && blocks != [] && b < TOTAL_BLOCKS && i <= |blocks|
    requires blocks[|blocks| - 1] < TOTAL_BLOCKS && Grown(d, d', blocks, b)
    requires i < |blocks| ==> blocks[i] < TOTAL_BLOCKS && blocks[i] != BITMAP_BLOCK && blocks[i] != b && LinkedAt(d, blocks, i)
    requires i < |blocks| - 1 ==> blocks[i] != blocks[|blocks| - 1]
    ensures LinkedAt(d', blocks + [b], i)
  {
    hide U16;
    var last := blocks[|blocks| - 1];
    if i == |blocks| {
      U16Inside(d[b], 0, last);
      U16Outside(Patch(d[b], 0, LE16(last)), 2, LE16(0), 0);
      U16Inside(Patch(d[b], 0, LE16(last)), 2, 0);
    } else if i == |blocks| - 1 {
      U16Inside(d[last], 2, b);
      U16Outside(d[last], 2, LE16(b), 0);
    }
  }

  lemma U16Outside(s: Block, k: nat, e: seq<byte>, j: nat)
    requires k + |e| <= |s| && j + 2 <= |s| && (j + 2 <= k || k + |e| <= j)
    ensures U16(Patch(s, k, e), j) == U16(s, j)
  {
  }

  lemma U16Inside(s: Block, k: nat, n: nat)
    requires k + 2 <= |s| && n < 65536
    ensures U16(Patch(s, k, LE16(n)), k) == n
  {
  }

  lemma GrowSlot(d: Image, d': Image, blocks: seq<nat>, entries: seq<seq<byte>>, b: nat, t: nat)
    requires Shaped(d) && Shaped(d') && Placed(d, blocks) && b < TOTAL_BLOCKS && Placed(d', blocks + [b]) && Grown(d, d', blocks, b)
    requires d[b] == Zeros(BLOCK) && |entries| < ENTRIES_PER_BLOCK * |blocks|
    requires 1 <= t < ENTRIES_PER_BLOCK * |blocks + [b]| && (t < ENTRIES_PER_BLOCK * |blocks| ==> SlotHolds(d, blocks, entries, t))
    ensures SlotHolds(d', blocks + [b], entries, t)
  {
    hide FreeBlocks;
    if t < ENTRIES_PER_BLOCK * |blocks| {
      assert SlotAt(d', blocks + [b], t) == SlotAt(d, blocks, t);
    } else {
      assert SlotAt(d', blocks + [b], t) == Zeros(ENTRY_LEN);
    }
  }

  /** The blocks that adding an entry to a directory of n takes. */
  function Growth(fixed: bool, n: nat): nat {
    if !fixed && n % ENTRIES_PER_BLOCK == ENTRIES_PER_BLOCK - 1 then 1 else 0
  }

  /** Where slot s is: which block of the chain, which place in it. */
  function PlaceOf(s: nat): (nat, nat) {
    (s / ENTRIES_PER_BLOCK, s % ENTRIES_PER_BLOCK)
  }

  function CursorAfter(n: nat): (nat, nat) {
    (n / ENTRIES_PER_BLOCK, n % ENTRIES_PER_BLOCK + 1)
  }

  function ChainLength(fixed: bool, n: nat): nat {
    if fixed then 4 else 1 + n / ENTRIES_PER_BLOCK
  }

  /** Outside the blocks of S, and the bitmap, nothing has changed. */
  ghost predicate Beyond(d: Image, d': Image, S: set<nat>)
    requires Shaped(d) && Shaped(d')
  {
    forall b :: 0 <= b < TOTAL_BLOCKS && b != BITMAP_BLOCK && b !in S ==> d'[b] == d[b]
  }

  /** The chain has grown by g free blocks, and nothing but the chain has changed. */
  ghost predicate Extended(d: Image, d': Image, blocks: seq<nat>, blocks': seq<nat>, g: nat)
    requires Shaped(d) && Shaped(d')
  {
    && |blocks'| == |blocks| + g && blocks <= blocks'
    && Set(blocks') - Set(blocks) <= FreeBlocks(d)
    && FreeBlocks(d') == FreeBlocks(d) - Set(blocks')
    && |FreeBlocks(d')| == |FreeBlocks(d)| - g
    && Beyond(d, d', Set(blocks'))
  }

  lemma StillExtended(d: Image, d1: Image, d2: Image, blocks: seq<nat>, blocks': seq<nat>, g: nat)
    requires Shaped(d) && Shaped(d1) && Shaped(d2) && Extended(d, d1, blocks, blocks', g)
    requires FreeBlocks(d2) == FreeBlocks(d1) && Beyond(d1, d2, Set(blocks'))
    ensures Extended(d, d2, blocks, blocks', g)
  {
  }

  class Directory {
    const vol: Volume
    const fixed: bool
    var blocks: seq<nat>
    var cursor: (nat, nat)
    var count: nat
    ghost var entries: seq<seq<byte>>

    ghost predicate Valid()
      requires vol.Valid()
      reads this, vol.img
    {
      && DirHolds(vol.Disk(), blocks, entries)
      && count == |entries|
      && cursor == CursorAfter(|entries|)
      && |blocks| == ChainLength(fixed, |entries|)
    }

    constructor (vol: Volume, blocks: seq<nat>, fixed: bool)
      requires vol.Valid() && DirHolds(vol.Disk(), blocks, []) && |blocks| == if fixed then 4 else 1
      ensures this.vol == vol && this.fixed == fixed && this.blocks == blocks && entries == [] && Valid()
    {
      this.vol, this.blocks, this.fixed := vol, blocks, fixed;
      cursor, count, entries := (0, 1), 0, [];
    }

    /** Add a block to the chain. */
    method Grow() returns (ok: bool)
      requires vol.Valid() && Clean(vol.Disk()) && DirHolds(vol.Disk(), blocks, entries)
      modifies this`blocks, vol.img
      ensures !ok ==> old(FreeBlocks(vol.Disk())) == {}
      ensures ok ==> Clean(vol.Disk()) && DirHolds(vol.Disk(), blocks, entries)
      ensures ok ==> Extended(old(vol.Disk()), vol.Disk(), old(blocks), blocks, 1) && |blocks| == |old(blocks)| + 1
    {
      hide DirHolds, FreeBlocks, Clean, Patch, LE16, Extended, Grown, Placed, OneBlock;
      ghost var d := vol.Disk();
      DirPlaced(d, blocks, entries);
      LastPlaced(d, blocks);
      var r := vol.AllocBlock();
      if r.None? {
        return false;
      }
      var newb, prevb := r.value, blocks[|blocks| - 1];
      ghost var d1 := vol.Disk();
      FreeIsBlank(d, newb);
      vol.Write16(prevb, 2, newb);
      ghost var d2 := vol.Disk();
      vol.Write16(newb, 0, prevb);
      ghost var d3 := vol.Disk();
      vol.Write16(newb, 2, 0);
      LinksWritten(d, d1, d2, d3, vol.Disk(), blocks, newb);
      GrowChain(d, vol.Disk(), blocks, entries, newb);
      blocks := blocks + [newb];
      OneMore(d, vol.Disk(), old(blocks), newb);
      ok := true;
    }

    /** Reserve the next slot, growing the chain on demand. */
    method AllocSlot() returns (r: Option<(nat, nat)>)
      requires vol.Valid() && Valid() && Clean(vol.Disk())
      modifies this`blocks, this`cursor, this`count, this`entries, vol.img
      ensures r.None? ==> if fixed then |old(entries)| == 51 else Growth(fixed, |old(entries)|) == 1 && old(FreeBlocks(vol.Disk())) == {}
      ensures r.Some? ==> Valid() && Clean(vol.Disk()) && entries == old(entries) + [Zeros(ENTRY_LEN)]
      ensures r.Some? ==> PlaceOf(|entries|).0 < |blocks| && r.value == (blocks[PlaceOf(|entries|).0], PlaceOf(|entries|).1)
      ensures r.Some? ==> Extended(old(vol.Disk()), vol.Disk(), old(blocks), blocks, Growth(fixed, |old(entries)|))
    {
      hide DirHolds, FreeBlocks, Clean, Set, Beyond, Extended, PlaceOf, CursorAfter, ChainLength, Growth;
      ghost var d := vol.Disk();
      SlotBlocks(|entries|, |blocks|, fixed);
      var ok, bi, ei := NextPlace();
      if !ok {
        return None;
      }
      DirRoom(vol.Disk(), blocks, entries);
      cursor := (bi, ei + 1);
      ghost var d1 := vol.Disk();
      CountSlot();
      StillExtended(d, d1, vol.Disk(), old(blocks), blocks, Growth(fixed, |old(entries)|));
      return Some((blocks[bi], ei));
    }

    /** Count one more entry, in the header. */
    method CountSlot()
      requires vol.Valid() && DirHolds(vol.Disk(), blocks, entries) && Clean(vol.Disk()) && count == |entries|
      requires |entries| + 1 < ENTRIES_PER_BLOCK * |blocks| && |entries| + 1 < 65536
      modifies this`count, this`entries, vol.img
      ensures DirHolds(vol.Disk(), blocks, entries) && Clean(vol.Disk())
      ensures entries == old(entries) + [Zeros(ENTRY_LEN)] && count == |entries|
      ensures FreeBlocks(vol.Disk()) == old(FreeBlocks(vol.Disk())) && Beyond(old(vol.Disk()), vol.Disk(), Set(blocks))
    {
      hide DirHolds, FreeBlocks, Clean, Set, Beyond;
      ghost var d := vol.Disk();
      DirPlaced(d, blocks, entries);
      count := count + 1;
      vol.Write16(blocks[0], COUNT_AT, count);
      CountEntry(d, vol.Disk(), blocks, entries);
      entries := entries + [Zeros(ENTRY_LEN)];
      CountKeeps(d, vol.Disk(), blocks);
    }

    /** Where the next slot is, in a block added for it if need be. */
    method NextPlace() returns (ok: bool, bi: nat, ei: nat)
      requires vol.Valid() && Valid() && Clean(vol.Disk())
      modifies this`blocks, vol.img
      ensures !ok ==> if fixed then |entries| == 51 else Growth(fixed, |entries|) == 1 && old(FreeBlocks(vol.Disk())) == {}
      ensures ok ==> DirHolds(vol.Disk(), blocks, entries) && Clean(vol.Disk())
      ensures ok ==> (bi, ei) == PlaceOf(|entries| + 1) && bi < |blocks|
      ensures ok ==> Extended(old(vol.Disk()), vol.Disk(), old(blocks), blocks, Growth(fixed, |entries|))
    {
      hide DirHolds, FreeBlocks, Clean, Beyond, Extended, Set, PlaceOf, CursorAfter, ChainLength, Growth;
      ghost var d := vol.Disk();
      NotExtended(d, blocks, entries);
      DirRoom(d, blocks, entries);
      SlotBlocks(|entries|, |blocks|, fixed);
      bi, ei := cursor.0, cursor.1;
      ok := true;
      if ei >= ENTRIES_PER_BLOCK {
        bi, ei := bi + 1, 0;
        if bi >= |blocks| {
          if fixed {
            return false, bi, ei;
          }
          ok := Grow();
        }
      }
    }
  }

  lemma DirRoom(d: Image, blocks: seq<nat>, entries: seq<seq<byte>>)
    requires Shaped(d) && DirHolds(d, blocks, entries)
    ensures |entries| < ENTRIES_PER_BLOCK * |blocks| && |blocks| <= TOTAL_BLOCKS
    ensures forall i :: 0 <= i < |blocks| ==> 2 <= blocks[i] < TOTAL_BLOCKS && blocks[i] != BITMAP_BLOCK
    ensures Set(blocks) !! FreeBlocks(d) && Placed(d, blocks)
  {
    DistinctBelow(blocks, TOTAL_BLOCKS);
  }

  lemma CountKeeps(d: Image, d': Image, blocks: seq<nat>)
    requires Shaped(d) && Shaped(d') && Placed(d, blocks) && OneBlock(d, d', blocks[0])
    ensures FreeBlocks(d') == FreeBlocks(d) && (Clean(d) ==> Clean(d')) && Beyond(d, d', Set(blocks))
  {
    SameBitmap(d, d');
    assert blocks[0] in Set(blocks);
  }

  lemma NotExtended(d: Image, blocks: seq<nat>, entries: seq<seq<byte>>)
    requires Shaped(d) && DirHolds(d, blocks, entries)
    ensures Extended(d, d, blocks, blocks, 0)
  {
    DirRoom(d, blocks, entries);
  }

  lemma OneMore(d: Image, d': Image, blocks: seq<nat>, b: nat)
    requires Shaped(d) && Shaped(d') && Placed(d, blocks) && b in FreeBlocks(d) && b < TOTAL_BLOCKS
    requires Grown(d, d', blocks, b) && FreeBlocks(d') == FreeBlocks(d) - {b}
    ensures Extended(d, d', blocks, blocks + [b], 1)
    ensures Clean(d) ==> Clean(d')
  {
    hide FreeBlocks;
    var last, blocks' := blocks[|blocks| - 1], blocks + [b];
    assert blocks'[|blocks|] == b && blocks'[|blocks| - 1] == last;
    SetAppend(blocks, b);
    assert last in Set(blocks');
    FreeAreData(d);
  }

  lemma FreeIsBlank(d: Image, b: nat)
    requires Shaped(d) && Clean(d) && b in FreeBlocks(d)
    ensures FIRST_DATA <= b < TOTAL_BLOCKS && d[b] == Zeros(BLOCK)
  {
  }

  lemma LastPlaced(d: Image, blocks: seq<nat>)
    requires Shaped(d) && Placed(d, blocks)
    ensures blocks != [] && var last := blocks[|blocks| - 1]; last < TOTAL_BLOCKS && last != BITMAP_BLOCK && last !in FreeBlocks(d)
  {
    hide FreeBlocks;
  }

  lemma FreeAreData(d: Image)
    requires Shaped(d)
    ensures forall b :: b in FreeBlocks(d) ==> FIRST_DATA <= b < TOTAL_BLOCKS
  {
  }

  /** How the cursor moves, and when it runs off the chain. */
  lemma SlotBlocks(n: nat, blocks: nat, fixed: bool)
    requires blocks == ChainLength(fixed, n)
    ensures var (bi, ei) := CursorAfter(n);
      && PlaceOf(n + 1) == (if ei >= ENTRIES_PER_BLOCK then (bi + 1, 0) else (bi, ei))
      && (fixed && ei >= ENTRIES_PER_BLOCK && bi + 1 >= blocks && n < ENTRIES_PER_BLOCK * blocks ==> n == 51)
      && Growth(fixed, n) == (if !fixed && ei >= ENTRIES_PER_BLOCK && bi + 1 >= blocks then 1 else 0)
      && (!fixed ==> bi < blocks && (ei >= ENTRIES_PER_BLOCK ==> bi + 1 >= blocks))
      && (fixed && n < ENTRIES_PER_BLOCK * blocks ==> bi < blocks)
    ensures CursorAfter(n + 1) == (PlaceOf(n + 1).0, PlaceOf(n + 1).1 + 1)
    ensures ChainLength(fixed, n + 1) == blocks + Growth(fixed, n)
    ensures forall m: nat :: PlaceOf(n + 1).0 < m <= TOTAL_BLOCKS ==> n + 1 < ENTRIES_PER_BLOCK * m && n + 1 < 65536
  {
  }

  lemma DirPlaced(d: Image, blocks: seq<nat>, entries: seq<seq<byte>>)
    requires Shaped(d) && DirHolds(d, blocks, entries)
    ensures Placed(d, blocks)
  {
  }

  // ---- Writing entries and headers ----

  /** Fields written one after another inside a stretch of e's length amount to writing e. */
  ghost predicate Filled(s: Block, r: Block, k: nat, e: seq<byte>, n: nat)
    requires k + |e| <= |s| == |r|
  {
    forall i :: 0 <= i < |s| ==> r[i] == if k <= i < k + n && i - k < |e| then e[i - k] else s[i]
  }

  lemma FillNext(s: Block, r: Block, k: nat, e: seq<byte>, n: nat, at: nat, field: seq<byte>)
    requires k + |e| <= |s| == |r| && Filled(s, r, k, e, n) && n <= at && at + |field| <= |e|
    requires forall i :: k <= i < k + |e| ==> s[i] == 0
    requires forall i :: n <= i < at ==> e[i] == 0
    requires e[at..at + |field|] == field
    ensures Filled(s, Patch(r, k + at, field), k, e, at + |field|)
  {
    var r' := Patch(r, k + at, field);
    forall i | 0 <= i < |s|
      ensures r'[i] == if k <= i < k + (at + |field|) && i - k < |e| then e[i - k] else s[i]
    {
      if k + at <= i < k + at + |field| {
        assert r'[i] == field[i - k - at] == e[at..at + |field|][i - k - at];
      }
    }
  }

  lemma FillLast(s: Block, r: Block, k: nat, e: seq<byte>)
    requires k + |e| <= |s| == |r| && Filled(s, r, k, e, |e|)
    ensures r == Patch(s, k, e)
  {
  }

  lemma EntryFields(storage: nat, name: seq<byte>, ftype: byte, key: u16, used: u16, eof: nat, header: u16)
    requires storage < 16 && |name| <= MAX_NAME && eof < 0x100_0000
    ensures var e := EntryBytes(storage, name, ftype, key, used, eof, header);
      && e[0..1] == [storage * 16 + |name|] && e[1..16] == name + Zeros(MAX_NAME - |name|) && e[16..17] == [ftype]
      && e[17..19] == LE16(key) && e[19..21] == LE16(used) && e[21..24] == LE24(eof) && e[30..31] == [ACCESS]
      && e[37..39] == LE16(header) && (forall i :: 24 <= i < 30 || 31 <= i < 37 ==> e[i] == 0)
  {
    var e := EntryBytes(storage, name, ftype, key, used, eof, header);
    assert e[1..16] == name + Zeros(MAX_NAME - |name|);
  }

  /** d' is d with the first n bytes of e written at place k of block b, where it was blank. */
  ghost predicate Filling(d: Image, d': Image, b: nat, k: nat, e: seq<byte>, n: nat)
    requires Shaped(d) && Shaped(d') && b < TOTAL_BLOCKS && k + |e| <= BLOCK
  {
    && d' == d[b := d'[b]] && Filled(d[b], d'[b], k, e, n)
    && forall i :: k <= i < k + |e| ==> d[b][i] == 0
  }

  method WriteField(vol: Volume, ghost d: Image, b: nat, k: nat, ghost e: seq<byte>, ghost n: nat, at: nat, field: seq<byte>)
    requires vol.Valid() && b < TOTAL_BLOCKS && Shaped(d) && k + |e| <= BLOCK && n <= at && at + |field| <= |e|
    requires Filling(d, vol.Disk(), b, k, e, n) && e[at..at + |field|] == field && forall i :: n <= i < at ==> e[i] == 0
    modifies vol.img
    ensures Filling(d, vol.Disk(), b, k, e, at + |field|)
  {
    FillNext(d[b], vol.Disk()[b], k, e, n, at, field);
    vol.Write(b, k + at, field);
  }

  lemma FillDone(d: Image, d': Image, b: nat, k: nat, e: seq<byte>)
    requires Shaped(d) && Shaped(d') && b < TOTAL_BLOCKS && k + |e| <= BLOCK && Filling(d, d', b, k, e, |e|)
    ensures d' == d[b := Patch(d[b], k, e)]
  {
    FillLast(d[b], d'[b], k, e);
  }

  lemma FillNone(d: Image, b: nat, k: nat, e: seq<byte>)
    requires Shaped(d) && b < TOTAL_BLOCKS && k + |e| <= BLOCK && forall i :: k <= i < k + |e| ==> d[b][i] == 0
    ensures Filling(d, d, b, k, e, 0)
  {
  }

  /** Write an entry into a blank slot. */
  method WriteFileEntry(vol: Volume, b: nat, k: nat, storage: nat, name: seq<byte>, ftype: byte, key: u16, used: u16, eof: nat, header: u16)
    requires vol.Valid() && b < TOTAL_BLOCKS && k + ENTRY_LEN <= BLOCK
    requires storage < 16 && |name| <= MAX_NAME && eof < 0x100_0000
    requires forall i :: k <= i < k + ENTRY_LEN ==> vol.Disk()[b][i] == 0
    modifies vol.img
    ensures vol.Disk() == old(vol.Disk())[b := Patch(old(vol.Disk())[b], k, EntryBytes(storage, name, ftype, key, used, eof, header))]
  {
    hide Patch, EntryBytes, Filling, LE16, LE24;
    ghost var e := EntryBytes(storage, name, ftype, key, used, eof, header);
    ghost var d := vol.Disk();
    EntryFields(storage, name, ftype, key, used, eof, header);
    FillNone(d, b, k, e);
    WriteField(vol, d, b, k, e, 0, 0x00, [storage * 16 + |name|]);
    WriteField(vol, d, b, k, e, 0x01, 0x01, name + Zeros(MAX_NAME - |name|));
    WriteField(vol, d, b, k, e, 0x10, 0x10, [ftype]);
    WriteField(vol, d, b, k, e, 0x11, 0x11, LE16(key));
    WriteField(vol, d, b, k, e, 0x13, 0x13, LE16(used));
    WriteField(vol, d, b, k, e, 0x15, 0x15, LE24(eof));
    WriteField(vol, d, b, k, e, 0x18, 0x1E, [ACCESS]);
    WriteField(vol, d, b, k, e, 0x1F, 0x25, LE16(header));
    FillDone(d, vol.Disk(), b, k, e);
  }

  /** The header of a subdirectory, its count of entries still zero. */
  function SubdirHeader(name: seq<byte>, parent: u16, place: byte): (e: seq<byte>)
    requires |name| <= MAX_NAME
    ensures |e| == ENTRY_LEN
  {
    [ST_SUBDIR_HEADER * 16 + |name|] + name + Zeros(MAX_NAME - |name|) + [SUBDIR_MARKER] + Zeros(13)
    + [ACCESS, ENTRY_LEN, ENTRIES_PER_BLOCK] + Zeros(2) + LE16(parent) + [place, ENTRY_LEN]
  }

  lemma HeaderFields(name: seq<byte>, parent: u16, place: byte)
    requires |name| <= MAX_NAME
    ensures var e := SubdirHeader(name, parent, place);
      && e[0..1] == [ST_SUBDIR_HEADER * 16 + |name|] && e[1..16] == name + Zeros(MAX_NAME - |name|) && e[16..17] == [SUBDIR_MARKER]
      && e[30..33] == [ACCESS, ENTRY_LEN, ENTRIES_PER_BLOCK] && e[35..37] == LE16(parent) && e[37..39] == [place, ENTRY_LEN]
      && (forall i :: 17 <= i < 30 || 33 <= i < 35 ==> e[i] == 0)
  {
    var e := SubdirHeader(name, parent, place);
    assert e[1..16] == name + Zeros(MAX_NAME - |name|);
  }

  /** Write the header into slot 0 of a blank block, which makes it an empty directory. */
  method WriteSubdirHeader(vol: Volume, key: nat, name: seq<byte>, parent: u16, place: byte)
    requires vol.Valid() && key < TOTAL_BLOCKS && |name| <= MAX_NAME && vol.Disk()[key] == Zeros(BLOCK)
    modifies vol.img
    ensures vol.Disk() == old(vol.Disk())[key := Patch(Zeros(BLOCK), ENTRY_BASE, SubdirHeader(name, parent, place))]
  {
    hide Patch, SubdirHeader, Filling, LE16;
    ghost var e := SubdirHeader(name, parent, place);
    ghost var d := vol.Disk();
    HeaderFields(name, parent, place);
    FillNone(d, key, ENTRY_BASE, e);
    WriteField(vol, d, key, ENTRY_BASE, e, 0x00, 0x00, [ST_SUBDIR_HEADER * 16 + |name|]);
    WriteField(vol, d, key, ENTRY_BASE, e, 0x01, 0x01, name + Zeros(MAX_NAME - |name|));
    WriteField(vol, d, key, ENTRY_BASE, e, 0x10, 0x10, [SUBDIR_MARKER]);
    WriteField(vol, d, key, ENTRY_BASE, e, 0x11, 0x1E, [ACCESS, ENTRY_LEN, ENTRIES_PER_BLOCK]);
    WriteField(vol, d, key, ENTRY_BASE, e, 0x21, 0x23, LE16(parent));
    WriteField(vol, d, key, ENTRY_BASE, e, 0x25, 0x25, [place, ENTRY_LEN]);
    FillDone(d, vol.Disk(), key, ENTRY_BASE, e);
  }

  lemma HeaderMakesDirectory(d: Image, key: nat, name: seq<byte>, parent: u16, place: byte)
    requires Shaped(d) && 2 <= key < TOTAL_BLOCKS && key != BITMAP_BLOCK && key !in FreeBlocks(d) && |name| <= MAX_NAME
    requires d[key] == Patch(Zeros(BLOCK), ENTRY_BASE, SubdirHeader(name, parent, place))
    ensures DirHolds(d, [key], [])
  {
    hide FreeBlocks;
    HeaderFields(name, parent, place);
    assert d[key][COUNT_AT] == SubdirHeader(name, parent, place)[33] && d[key][COUNT_AT + 1] == SubdirHeader(name, parent, place)[34];
    assert LinkedAt(d, [key], 0);
    forall s | 1 <= s < ENTRIES_PER_BLOCK * |[key]| ensures SlotHolds(d, [key], [], s) {
      SlotInside(s);
      assert SlotAt(d, [key], s) == Zeros(ENTRY_LEN);
    }
  }
}
