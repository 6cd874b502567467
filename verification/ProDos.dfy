/** Building a ProDOS volume from a host tree, and reading it back. */
module ProDos {
  import opened Arithmetic
  import opened Wrappers
  import opened BlockVolume
  import opened ByteStrings
  import opened Chunks
  import opened FiniteSets
  import opened ProDosDirectory
  import opened ProDosTree

  // ---- Files ----

  /** From d to d' a file has been given free blocks, and nothing else has changed. */
  ghost predicate FileAdded(d: Image, d': Image, data: seq<byte>, key: nat, more: seq<nat>)
    requires Shaped(d) && Shaped(d')
  {
    && FileHolds(d', data, key, more)
    && {key} + Set(more) <= FreeBlocks(d) && FreeBlocks(d') == FreeBlocks(d) - {key} - Set(more)
    && |FreeBlocks(d')| == |FreeBlocks(d)| - FileCost(data)
    && Beyond(d, d', {key} + Set(more))
  }

  /** A sapling with n of its data blocks written. */
  ghost predicate Sapling(d: Image, d': Image, data: seq<byte>, key: nat, more: seq<nat>)
    requires Shaped(d) && Shaped(d')
  {
    && key < TOTAL_BLOCKS && |more| <= 256 && |more| <= Blocks(data) && SaplingHolds(d', data, key, more)
    && {key} + Set(more) <= FreeBlocks(d) && FreeBlocks(d') == FreeBlocks(d) - {key} - Set(more)
    && |FreeBlocks(d')| == |FreeBlocks(d)| - 1 - |more|
    && Beyond(d, d', {key} + Set(more))
  }

  /** Data block b is written, and entered as number n of the index. */
  ghost predicate ChunkWritten(d: Image, d': Image, data: seq<byte>, key: nat, n: nat, b: nat)
    requires Shaped(d) && Shaped(d') && key < TOTAL_BLOCKS && b < TOTAL_BLOCKS && n < 256 && n < Blocks(data)
  {
    && d'[b] == Patch(d[b], 0, Chunk(BLOCK, data, n))
    && d'[key] == Patch(Patch(d[key], n, [b % 256]), 0x100 + n, [b / 256])
    && forall c :: 0 <= c < TOTAL_BLOCKS && c != BITMAP_BLOCK && c != b && c != key ==> d'[c] == d[c]
  }

  lemma SaplingMeans(d: Image, d': Image, data: seq<byte>, key: nat, more: seq<nat>)
    requires Shaped(d) && Shaped(d') && Sapling(d, d', data, key, more)
    ensures key < TOTAL_BLOCKS && key in FreeBlocks(d) && key !in FreeBlocks(d') && |FreeBlocks(d')| == |FreeBlocks(d)| - 1 - |more|
  {
  }

  lemma SaplingGrows(d: Image, d1: Image, d2: Image, data: seq<byte>, key: nat, more: seq<nat>, b: nat)
    requires Shaped(d) && Shaped(d1) && Shaped(d2) && Sapling(d, d1, data, key, more) && |more| < 256 && |more| < Blocks(data)
    requires b in FreeBlocks(d1) && FreeBlocks(d2) == FreeBlocks(d1) - {b}
    requires b < TOTAL_BLOCKS && ChunkWritten(d1, d2, data, key, |more|, b)
    ensures Sapling(d, d2, data, key, more + [b])
  {
    hide FreeBlocks, ChunkHolds, Pointer, Chunk, Set, Patch;
    FreeAreData(d);
    FreeAreData(d1);
    SetAppend(more, b);
    SetMembers(more);
    var more' := more + [b];
    forall i | 0 <= i < |more'| ensures ChunkHolds(d2, data, key, more', i) {
      ChunkNext(d, d1, d2, data, key, more, b, i);
    }
  }

  lemma ChunkNext(d: Image, d1: Image, d2: Image, data: seq<byte>, key: nat, more: seq<nat>, b: nat, i: nat)
    requires Shaped(d) && Shaped(d1) && Shaped(d2) && Sapling(d, d1, data, key, more) && |more| < 256 && |more| < Blocks(data)
    requires b in FreeBlocks(d1) && b < TOTAL_BLOCKS && ChunkWritten(d1, d2, data, key, |more|, b) && i <= |more|
    ensures ChunkHolds(d2, data, key, more + [b], i)
  {
    hide FreeBlocks, ChunkHolds, Pointer, Chunk, Set, Patch;
    FreeAreData(d);
    SetMembers(more);
    PointerPut(d1[key], |more|, b, i);
    if i < |more| {
      assert more[i] in Set(more) && more[i] in FreeBlocks(d) && more[i] !in FreeBlocks(d1);
      ChunkKeeps(d1, d2, data, key, more, b, i);
    } else {
      ChunkPut(d1[b], Chunk(BLOCK, data, i));
      NewChunk(d2, data, key, more, b);
    }
  }

  lemma PointerPut(block: Block, n: nat, b: nat, i: nat)
    requires |block| == BLOCK && n < 256 && b < 65536 && i < 256
    ensures Pointer(Patch(Patch(block, n, [b % 256]), 0x100 + n, [b / 256]), i) == if i == n then b else Pointer(block, i)
  {
  }

  lemma ChunkPut(block: Block, c: seq<byte>)
    requires |block| == BLOCK && |c| <= BLOCK
    ensures Patch(block, 0, c)[..|c|] == c
  {
  }

  lemma ChunkKeeps(d: Image, d': Image, data: seq<byte>, key: nat, more: seq<nat>, b: nat, i: nat)
    requires Shaped(d) && Shaped(d') && key < TOTAL_BLOCKS && i < |more| < 256 && i < Blocks(data) && ChunkHolds(d, data, key, more, i)
    requires Pointer(d'[key], i) == Pointer(d[key], i) && (more[i] < TOTAL_BLOCKS ==> d'[more[i]] == d[more[i]])
    ensures ChunkHolds(d', data, key, more + [b], i)
  {
  }

  lemma NewChunk(d: Image, data: seq<byte>, key: nat, more: seq<nat>, b: nat)
    requires Shaped(d) && key < TOTAL_BLOCKS && b < TOTAL_BLOCKS && |more| < 256 && |more| < Blocks(data)
    requires Pointer(d[key], |more|) == b && d[b][..|Chunk(BLOCK, data, |more|)|] == Chunk(BLOCK, data, |more|)
    ensures ChunkHolds(d, data, key, more + [b], |more|)
  {
  }

  /** One more data block of a sapling, and its pointer in the index. */
  method AddChunk(vol: Volume, ghost d: Image, data: seq<byte>, key: nat, i: nat, ghost more: seq<nat>) returns (r: Option<nat>)
    requires vol.Valid() && Clean(vol.Disk()) && Shaped(d) && Sapling(d, vol.Disk(), data, key, more)
    requires |more| == i < 256 && i < Blocks(data)
    modifies vol.img
    ensures r.None? ==> |FreeBlocks(d)| == 1 + i
    ensures r.Some? ==> Sapling(d, vol.Disk(), data, key, more + [r.value]) && Clean(vol.Disk())
  {
    hide Patch, Chunk, Blocks, Sapling, FreeBlocks, Clean, ChunkWritten;
    ghost var d1 := vol.Disk();
    SaplingMeans(d, d1, data, key, more);
    FreeAreData(d);
    FreeAreData(d1);
    var db := vol.AllocBlock();
    if db.None? {
      return None;
    }
    ghost var d2 := vol.Disk();
    vol.Write(db.value, 0, Chunk(BLOCK, data, i));
    ghost var d3 := vol.Disk();
    vol.Write(key, i, [db.value % 256]);
    ghost var d4 := vol.Disk();
    vol.Write(key, 0x100 + i, [db.value / 256]);
    KeepsFree(d1, d2, d3, d4, vol.Disk(), data, db.value, key, i);
    SaplingGrows(d, d1, vol.Disk(), data, key, more, db.value);
    return db;
  }

  lemma KeepsFree(d: Image, d1: Image, d2: Image, d3: Image, d4: Image, data: seq<byte>, b: nat, key: nat, i: nat)
    requires Shaped(d) && Shaped(d1) && Shaped(d2) && Shaped(d3) && Shaped(d4) && i < 256 && i < Blocks(data)
    requires b < TOTAL_BLOCKS && key < TOTAL_BLOCKS && b != key && b != BITMAP_BLOCK && key != BITMAP_BLOCK && key !in FreeBlocks(d)
    requires OneBlock(d, d1, BITMAP_BLOCK) && FreeBlocks(d1) == FreeBlocks(d) - {b}
    requires d2 == d1[b := Patch(d1[b], 0, Chunk(BLOCK, data, i))]
    requires d3 == d2[key := Patch(d2[key], i, [b % 256])] && d4 == d3[key := Patch(d3[key], 0x100 + i, [b / 256])]
    ensures ChunkWritten(d, d4, data, key, i, b) && FreeBlocks(d4) == FreeBlocks(d) - {b}
    ensures Clean(d) ==> Clean(d4)
  {
    hide FreeBlocks, Patch, Chunk, Blocks;
    FreeAreData(d);
    SameBitmap(d1, d4);
  }

  /** Data of up to a block goes to one block, longer data to an index block and the blocks it
      points to; only for want of blocks, or of pointers, is it refused. */
  method WriteFileData(vol: Volume, data: seq<byte>) returns (r: Option<(nat, nat)>, ghost more: seq<nat>)
    requires vol.Valid() && Clean(vol.Disk())
    modifies vol.img
    ensures r.None? ==> |data| > SAPLING_MAX || |old(FreeBlocks(vol.Disk()))| < FileCost(data)
    ensures r.Some? ==> FileAdded(old(vol.Disk()), vol.Disk(), data, r.value.0, more) && Clean(vol.Disk())
    ensures r.Some? ==> r.value.1 == 1 + |more|
  {
    hide Patch, SaplingHolds, FreeBlocks, Sapling;
    more := [];
    if |data| > SAPLING_MAX {
      return None, more;
    }
    ghost var d := vol.Disk();
    FreeAreData(d);
    var key := vol.AllocBlock();
    if key.None? {
      return None, more;
    }
    if |data| <= SEEDLING_MAX {
      ghost var d1 := vol.Disk();
      vol.Write(key.value, 0, data);
      SeedlingAdded(d, d1, vol.Disk(), data, key.value);
      return Some((key.value, 1)), more;
    }
    var nblocks := Blocks(data);
    SaplingStarts(d, vol.Disk(), data, key.value);
    for i := 0 to nblocks
      invariant |more| == i && Sapling(d, vol.Disk(), data, key.value, more) && Clean(vol.Disk())
    {
      var db := AddChunk(vol, d, data, key.value, i, more);
      if db.None? {
        return None, more;
      }
      more := more + [db.value];
    }
    SaplingAdded(d, vol.Disk(), data, key.value, more);
    return Some((key.value, 1 + nblocks)), more;
  }

  lemma SeedlingAdded(d: Image, d1: Image, d': Image, data: seq<byte>, key: nat)
    requires Shaped(d) && Shaped(d1) && Shaped(d') && |data| <= SEEDLING_MAX && Clean(d)
    requires key in FreeBlocks(d) && key < TOTAL_BLOCKS && FreeBlocks(d1) == FreeBlocks(d) - {key} && OneBlock(d, d1, BITMAP_BLOCK)
    requires d' == d1[key := Patch(d1[key], 0, data)]
    ensures FileAdded(d, d', data, key, []) && Clean(d')
  {
    hide FreeBlocks, Patch, Chunk, SaplingHolds;
    FreeAreData(d);
    SameBitmap(d1, d');
    ChunkPut(d1[key], data);
  }

  lemma SaplingAdded(d: Image, d': Image, data: seq<byte>, key: nat, more: seq<nat>)
    requires Shaped(d) && Shaped(d') && SEEDLING_MAX < |data| <= SAPLING_MAX && |more| == Blocks(data)
    requires Sapling(d, d', data, key, more)
    ensures FileAdded(d, d', data, key, more)
  {
  }

  lemma SaplingStarts(d: Image, d': Image, data: seq<byte>, key: nat)
    requires Shaped(d) && Shaped(d') && key in FreeBlocks(d) && FreeBlocks(d') == FreeBlocks(d) - {key} && OneBlock(d, d', BITMAP_BLOCK)
    ensures Sapling(d, d', data, key, []) && (Clean(d) ==> Clean(d'))
  {
    FreeAreData(d);
  }

  // ---- Entries into directories ----

  /** Fill the slot that was reserved last. */
  method FillSlot(dir: Directory, block: nat, ei: nat, storage: nat, name: seq<byte>, ftype: byte, key: u16, used: u16, eof: nat, header: u16)
    requires dir.vol.Valid() && dir.Valid() && Clean(dir.vol.Disk())
    requires storage < 16 && |name| <= MAX_NAME && eof < 0x100_0000
    requires dir.entries != [] && dir.entries[|dir.entries| - 1] == Zeros(ENTRY_LEN)
    requires PlaceOf(|dir.entries|).0 < |dir.blocks| && (block, ei) == (dir.blocks[PlaceOf(|dir.entries|).0], PlaceOf(|dir.entries|).1)
    modifies dir`entries, dir.vol.img
    ensures dir.Valid() && Clean(dir.vol.Disk())
    ensures dir.entries == old(dir.entries)[|old(dir.entries)| - 1 := EntryBytes(storage, name, ftype, key, used, eof, header)]
    ensures FreeBlocks(dir.vol.Disk()) == old(FreeBlocks(dir.vol.Disk()))
    ensures Beyond(old(dir.vol.Disk()), dir.vol.Disk(), Set(dir.blocks))
  {
    hide DirHolds, FreeBlocks, Clean, Set, Beyond, EntryBytes, Patch;
    ghost var d, s := dir.vol.Disk(), |dir.entries|;
    DirPlaced(d, dir.blocks, dir.entries);
    SlotBlank(d, dir.blocks, dir.entries, s);
    ghost var e := EntryBytes(storage, name, ftype, key, used, eof, header);
    WriteFileEntry(dir.vol, block, ENTRY_BASE + ei * ENTRY_LEN, storage, name, ftype, key, used, eof, header);
    PutEntry(d, dir.vol.Disk(), dir.blocks, dir.entries, s, e);
    OneBlockKeeps(d, dir.vol.Disk(), dir.blocks, block);
    dir.entries := dir.entries[s - 1 := e];
  }

  lemma SlotBlank(d: Image, blocks: seq<nat>, entries: seq<seq<byte>>, s: nat)
    requires Shaped(d) && DirHolds(d, blocks, entries) && 1 <= s <= |entries| && entries[s - 1] == Zeros(ENTRY_LEN)
    ensures PlaceOf(s).0 < |blocks| && SlotStart(s) + ENTRY_LEN <= BLOCK && blocks[PlaceOf(s).0] < TOTAL_BLOCKS && blocks[PlaceOf(s).0] in Set(blocks)
    ensures forall i :: SlotStart(s) <= i < SlotStart(s) + ENTRY_LEN ==> d[blocks[PlaceOf(s).0]][i] == 0
    ensures SlotStart(s) == ENTRY_BASE + PlaceOf(s).1 * ENTRY_LEN && PlaceOf(s).0 == s / ENTRIES_PER_BLOCK
  {
    SlotInside(s);
    assert SlotHolds(d, blocks, entries, s);
    var b, k := blocks[s / ENTRIES_PER_BLOCK], SlotStart(s);
    var e := d[b][k..k + ENTRY_LEN];
    assert e == SlotAt(d, blocks, s) == Zeros(ENTRY_LEN);
    forall i | k <= i < k + ENTRY_LEN ensures d[b][i] == 0 {
      assert d[b][i] == e[i - k] == Zeros(ENTRY_LEN)[i - k];
    }
  }

  lemma OneBlockKeeps(d: Image, d': Image, blocks: seq<nat>, b: nat)
    requires Shaped(d) && Shaped(d') && Placed(d, blocks) && b in Set(blocks) && OneBlock(d, d', b)
    ensures FreeBlocks(d') == FreeBlocks(d) && (Clean(d) ==> Clean(d')) && Beyond(d, d', Set(blocks))
  {
    assert b != BITMAP_BLOCK;
    SameBitmap(d, d');
  }

  /** From d to d' a node has been given free blocks and is held; the directory that lists it has
      grown from blocks to blocks'; and nothing else has changed. */
  ghost predicate Listed(d: Image, d': Image, blocks: seq<nat>, blocks': seq<nat>, node: Node, used: nat)
    requires Shaped(d) && Shaped(d')
  {
    && EntryFits(node) && NodeHolds(d', node) && blocks != [] && blocks <= blocks'
    && Owned(node) !! Set(blocks') && Owned(node) <= FreeBlocks(d) && Set(blocks') - Set(blocks) <= FreeBlocks(d)
    && FreeBlocks(d') == FreeBlocks(d) - Owned(node) - Set(blocks')
    && |FreeBlocks(d')| + used == |FreeBlocks(d)|
    && Beyond(d, d', FreeBlocks(d) + Set(blocks))
  }

  lemma FileListed(d: Image, d1: Image, d2: Image, d3: Image, blocks: seq<nat>, blocks': seq<nat>, g: nat,
      name: seq<byte>, data: seq<byte>, key: nat, more: seq<nat>)
    requires Shaped(d) && Shaped(d1) && Shaped(d2) && Shaped(d3) && Placed(d, blocks) && NameFits(name)
    requires FileAdded(d, d1, data, key, more) && Extended(d1, d2, blocks, blocks', g)
    requires FreeBlocks(d3) == FreeBlocks(d2) && Beyond(d2, d3, Set(blocks'))
    ensures Listed(d, d3, blocks, blocks', FileNode(name, data, key, more), FileCost(data) + g)
  {
    hide FreeBlocks, FileHolds, Set, Beyond;
    var mine := {key} + Set(more);
    PlacedNotFree(d, blocks);
    FreeAreData(d);
    FileFits(d1, data, key, more);
    ListedSets(FreeBlocks(d), mine, Set(blocks), Set(blocks'));
    BeyondJoin(d, d1, d2, mine, Set(blocks'), FreeBlocks(d) + Set(blocks));
    BeyondJoin(d, d2, d3, FreeBlocks(d) + Set(blocks), Set(blocks'), FreeBlocks(d) + Set(blocks));
    BeyondJoin(d1, d2, d3, Set(blocks'), Set(blocks'), Set(blocks'));
    Untouched(d1, d3, Set(blocks'), mine);
    FileFrame(d1, d3, data, key, more);
  }

  lemma PlacedNotFree(d: Image, blocks: seq<nat>)
    requires Shaped(d) && Placed(d, blocks)
    ensures blocks != [] && Set(blocks) !! FreeBlocks(d) && BITMAP_BLOCK !in Set(blocks)
  {
  }

  lemma ListedSets(free: set<nat>, mine: set<nat>, blocks: set<nat>, blocks': set<nat>)
    requires mine <= free && blocks !! free && blocks' - blocks <= free - mine
    ensures mine !! blocks' && blocks' - blocks <= free && free - mine - blocks' == (free - mine) - blocks'
    ensures blocks' <= free + blocks
  {
  }

  lemma BeyondJoin(d: Image, d1: Image, d2: Image, S: set<nat>, T: set<nat>, U: set<nat>)
    requires Shaped(d) && Shaped(d1) && Shaped(d2) && Beyond(d, d1, S) && Beyond(d1, d2, T) && S <= U && T <= U
    ensures Beyond(d, d2, U)
  {
  }

  lemma Untouched(d: Image, d': Image, S: set<nat>, T: set<nat>)
    requires Shaped(d) && Shaped(d') && Beyond(d, d', S) && S !! T && BITMAP_BLOCK !in T
    ensures forall b :: b in T && b < TOTAL_BLOCKS ==> d'[b] == d[b]
  {
  }

  lemma FileFits(d: Image, data: seq<byte>, key: nat, more: seq<nat>)
    requires Shaped(d) && FileHolds(d, data, key, more)
    ensures |data| <= SAPLING_MAX && key < TOTAL_BLOCKS && |more| <= 256 && 1 + |more| == FileCost(data)
  {
  }

  /** After blocks were given to a file, the directory still stands. */
  lemma StandsAfter(d: Image, d': Image, blocks: seq<nat>, entries: seq<seq<byte>>, S: set<nat>)
    requires Shaped(d) && Shaped(d') && DirHolds(d, blocks, entries) && FreeBlocks(d') <= FreeBlocks(d)
    requires Beyond(d, d', S) && S <= FreeBlocks(d)
    ensures DirHolds(d', blocks, entries)
  {
    hide FreeBlocks;
    DirPlaced(d, blocks, entries);
    DirFrame(d, d', blocks, entries);
  }

  method AddFile(vol: Volume, dir: Directory, name: seq<byte>, data: seq<byte>) returns (ok: bool, ghost node: Node)
    requires dir.vol == vol && vol.Valid() && dir.Valid() && Clean(vol.Disk()) && NameFits(name)
    modifies dir`blocks, dir`cursor, dir`count, dir`entries, vol.img
    ensures ok ==> dir.Valid() && Clean(vol.Disk()) && SourceOf(node) == File(name, data) && |data| <= SAPLING_MAX
    ensures ok ==> Listed(old(vol.Disk()), vol.Disk(), old(dir.blocks), dir.blocks, node, FileCost(data) + Growth(dir.fixed, |old(dir.entries)|))
    ensures ok ==> dir.entries == old(dir.entries) + [EntryOf(node, old(dir.blocks[0]))]
    ensures ok || |data| > SAPLING_MAX || (dir.fixed && |old(dir.entries)| == ROOT_ENTRIES)
      || |old(FreeBlocks(vol.Disk()))| < FileCost(data) + Growth(dir.fixed, |old(dir.entries)|)
  {
    hide DirHolds, FreeBlocks, Clean, Set, Beyond, EntryBytes, Listed, FileAdded, FileCost, Growth, PlaceOf, Extended, Placed, FileType, CursorAfter, ChainLength, Owned;
    ghost var d, blocks0, entries0 := vol.Disk(), dir.blocks, dir.entries;
    node := FileNode(name, data, 0, []);
    ok := false;
    DirPlaced(d, blocks0, entries0);
    var r, more := WriteFileData(vol, data);
    if r.None? {
      return;
    }
    ghost var d1 := vol.Disk();
    FileAddedMeans(d, d1, data, r.value.0, more);
    StandsAfter(d, d1, blocks0, entries0, {r.value.0} + Set(more));
    var s := dir.AllocSlot();
    if s.None? {
      return;
    }
    ghost var d2 := vol.Disk();
    ExtendedMeans(d1, d2, blocks0, dir.blocks, Growth(dir.fixed, |entries0|));
    var storage := if |data| <= SEEDLING_MAX then ST_SEEDLING else ST_SAPLING;
    FillSlot(dir, s.value.0, s.value.1, storage, name, FileType(name), r.value.0, r.value.1, |data|, dir.blocks[0]);
    FileListed(d, d1, d2, vol.Disk(), blocks0, dir.blocks, Growth(dir.fixed, |entries0|), name, data, r.value.0, more);
    node := FileNode(name, data, r.value.0, more);
    ok := true;
  }

  lemma FileAddedMeans(d: Image, d': Image, data: seq<byte>, key: nat, more: seq<nat>)
    requires Shaped(d) && Shaped(d') && FileAdded(d, d', data, key, more)
    ensures FreeBlocks(d') <= FreeBlocks(d) && Beyond(d, d', {key} + Set(more)) && {key} + Set(more) <= FreeBlocks(d)
    ensures |FreeBlocks(d')| == |FreeBlocks(d)| - FileCost(data)
    ensures |data| <= SAPLING_MAX && key < TOTAL_BLOCKS && |more| <= 256
  {
    FileFits(d', data, key, more);
  }

  lemma ExtendedMeans(d: Image, d': Image, blocks: seq<nat>, blocks': seq<nat>, g: nat)
    requires Shaped(d) && Shaped(d') && Extended(d, d', blocks, blocks', g) && Placed(d, blocks)
    ensures blocks' != [] && blocks'[0] == blocks[0] < TOTAL_BLOCKS
  {
  }

  // ---- Trees ----

  /** From d0 to d a list of nodes has been given free blocks and is held; the directory that lists
      them has grown from blocks0 to blocks; and nothing else has changed. */
  ghost predicate Built(d0: Image, d: Image, blocks0: seq<nat>, blocks: seq<nat>, kids: seq<Node>, used: nat)
    requires Shaped(d0) && Shaped(d)
  {
    && AllFit(kids) && KidsHold(d, kids) && blocks0 != [] && blocks0 <= blocks
    && OwnedAll(kids) !! Set(blocks) && OwnedAll(kids) <= FreeBlocks(d0) && Set(blocks) - Set(blocks0) <= FreeBlocks(d0)
    && FreeBlocks(d) == FreeBlocks(d0) - OwnedAll(kids) - Set(blocks)
    && |FreeBlocks(d)| + used == |FreeBlocks(d0)|
    && Beyond(d0, d, FreeBlocks(d0) + Set(blocks0))
  }

  lemma NothingBuilt(d: Image, blocks: seq<nat>, entries: seq<seq<byte>>)
    requires Shaped(d) && DirHolds(d, blocks, entries)
    ensures Built(d, d, blocks, blocks, [], 0)
  {
    DirRoom(d, blocks, entries);
  }

  lemma BuiltNext(d0: Image, d: Image, d': Image, blocks0: seq<nat>, blocks: seq<nat>, blocks': seq<nat>, kids: seq<Node>, node: Node, used: nat, u: nat)
    requires Shaped(d0) && Shaped(d) && Shaped(d') && Placed(d0, blocks0)
    requires Built(d0, d, blocks0, blocks, kids, used) && Listed(d, d', blocks, blocks', node, u)
    ensures Built(d0, d', blocks0, blocks', kids + [node], used + u)
  {
    hide FreeBlocks, Set, Beyond, Owned, OwnedAll, NodeHolds, KidsHold, AllFit, Placed, EntryFits;
    FreeAreData(d0);
    PlacedNotFree(d0, blocks0);
    PrefixSet(blocks, blocks');
    var free, mine := FreeBlocks(d0), OwnedAll(kids);
    NextSets(free, mine, Set(blocks0), Set(blocks), Owned(node), Set(blocks'));
    BeyondJoin(d0, d, d', free + Set(blocks0), FreeBlocks(d) + Set(blocks), free + Set(blocks0));
    Untouched(d, d', FreeBlocks(d) + Set(blocks), mine);
    KidsFrame(d, d', kids);
    KidsNext(d', kids, node);
  }

  lemma KidsNext(d: Image, kids: seq<Node>, node: Node)
    requires Shaped(d) && AllFit(kids) && KidsHold(d, kids) && EntryFits(node) && NodeHolds(d, node) && Owned(node) !! OwnedAll(kids)
    ensures AllFit(kids + [node]) && KidsHold(d, kids + [node]) && OwnedAll(kids + [node]) == OwnedAll(kids) + Owned(node)
  {
    hide Owned, NodeHolds;
    assert (kids + [node])[..|kids|] == kids;
  }

  lemma NextSets(free: set<nat>, mine: set<nat>, B0: set<nat>, B: set<nat>, own: set<nat>, B': set<nat>)
    requires mine <= free && mine !! B && B - B0 <= free && B0 !! free && B <= B'
    requires own <= free - mine - B && own !! B' && B' - B <= free - mine - B
    ensures mine + own <= free && mine !! own && (mine + own) !! B' && B' - B0 <= free
    ensures free - mine - B - own - B' == free - (mine + own) - B'
    ensures free - mine - B <= free && B <= free + B0 && (free - mine - B + B) !! mine
  {
    assert forall x :: x in B' ==> x in B || x in B' - B;
    assert forall x :: x in B ==> x in B0 || x in B - B0;
  }

  lemma FolderListed(d: Image, d1: Image, d2: Image, d3: Image, d4: Image, d5: Image, blocks: seq<nat>, blocks': seq<nat>, g: nat,
      name: seq<byte>, key: nat, subblocks: seq<nat>, kids: seq<Node>, used: nat)
    requires Shaped(d) && Shaped(d1) && Shaped(d2) && Shaped(d3) && Shaped(d4) && Shaped(d5) && Placed(d, blocks) && NameFits(name)
    requires KeyTaken(d, d1, key) && Extended(d1, d2, blocks, blocks', g)
    requires FreeBlocks(d3) == FreeBlocks(d2) && key < TOTAL_BLOCKS && OneBlock(d2, d3, key)
    requires Built(d3, d4, [key], subblocks, kids, used) && DirHolds(d4, subblocks, EntriesOf(kids, key))
    requires FreeBlocks(d5) == FreeBlocks(d4) && Beyond(d4, d5, Set(blocks'))
    ensures Listed(d, d5, blocks, blocks', FolderNode(name, subblocks, kids), 1 + g + used)
  {
    hide FreeBlocks, Set, Beyond, DirHolds, KidsHold, OwnedAll, OneBlock, Placed;
    var node := FolderNode(name, subblocks, kids);
    var free := FreeBlocks(d);
    FreeAreData(d);
    PlacedNotFree(d, blocks);
    DirRoom(d4, subblocks, EntriesOf(kids, key));
    Singleton(key);
    PrefixSet([key], subblocks);
    FolderSets(free, key, Set(blocks), Set(blocks'), Set(subblocks), OwnedAll(kids));
    FolderBeyond(d, d1, d2, d3, d4, d5, free + Set(blocks), Set(blocks'), FreeBlocks(d3) + {key}, key);
    Untouched(d4, d5, Set(blocks'), Owned(node));
    FolderStands(d4, d5, subblocks, kids);
  }

  lemma FolderBeyond(d: Image, d1: Image, d2: Image, d3: Image, d4: Image, d5: Image, all: set<nat>, chain: set<nat>, sub: set<nat>, key: nat)
    requires Shaped(d) && Shaped(d1) && Shaped(d2) && Shaped(d3) && Shaped(d4) && Shaped(d5) && key < TOTAL_BLOCKS
    requires OneBlock(d, d1, BITMAP_BLOCK) && Beyond(d1, d2, chain) && OneBlock(d2, d3, key) && Beyond(d3, d4, sub) && Beyond(d4, d5, chain)
    requires chain <= all && sub <= all && key in all
    ensures Beyond(d, d5, all)
  {
    hide Beyond;
    OneBlockBeyond(d, d1, BITMAP_BLOCK);
    OneBlockBeyond(d2, d3, key);
    var most := all + {BITMAP_BLOCK};
    BeyondJoin(d, d1, d2, {BITMAP_BLOCK}, chain, most);
    BeyondJoin(d, d2, d3, most, {key}, most);
    BeyondJoin(d, d3, d4, most, sub, most);
    BeyondJoin(d, d4, d5, most, chain, most);
    NotTheBitmap(d, d5, all);
  }

  lemma Singleton(b: nat)
    ensures Set([b]) == {b}
  {
    assert [b][0] == b;
  }

  lemma OneBlockBeyond(d: Image, d': Image, b: nat)
    requires Shaped(d) && Shaped(d') && OneBlock(d, d', b)
    ensures Beyond(d, d', {b})
  {
  }

  lemma NotTheBitmap(d: Image, d': Image, S: set<nat>)
    requires Shaped(d) && Shaped(d') && Beyond(d, d', S + {BITMAP_BLOCK})
    ensures Beyond(d, d', S)
  {
  }

  lemma FolderStands(d: Image, d': Image, blocks: seq<nat>, kids: seq<Node>)
    requires Shaped(d) && Shaped(d') && FolderHolds(d, blocks, kids) && FreeBlocks(d') <= FreeBlocks(d)
    requires forall b :: b in Set(blocks) + OwnedAll(kids) && b < TOTAL_BLOCKS ==> d'[b] == d[b]
    ensures FolderHolds(d', blocks, kids)
  {
    hide FreeBlocks, DirHolds;
    assert forall i :: 0 <= i < |blocks| ==> blocks[i] in Set(blocks);
    DirRoom(d, blocks, EntriesOf(kids, blocks[0]));
    DirFrame(d, d', blocks, EntriesOf(kids, blocks[0]));
    KidsFrame(d, d', kids);
  }

  lemma FolderSets(free: set<nat>, key: nat, B: set<nat>, B': set<nat>, S: set<nat>, mine: set<nat>)
    requires key in free && B !! free && B' - B <= free - {key}
    requires var free3 := free - {key} - B'; mine !! S && mine <= free3 && S - {key} <= free3 && key in S
    ensures (S + mine) !! B' && S + mine <= free && B' - B <= free
    ensures (free - {key} - B') - mine - S == free - (S + mine) - B'
    ensures B' <= free + B && free - {key} - B' <= free
  {
    assert forall x :: x in B' ==> x in B || x in B' - B;
    assert forall x :: x in S ==> x == key || x in S - {key};
  }

  /** Create a subdirectory: its key block, its slot in the parent, its header. */
  method AddSubdir(vol: Volume, parent: Directory, name: seq<byte>) returns (r: Option<(nat, nat, nat)>, ghost d1: Image, ghost d2: Image)
    requires parent.vol == vol && vol.Valid() && parent.Valid() && Clean(vol.Disk()) && NameFits(name)
    modifies parent`blocks, parent`cursor, parent`count, parent`entries, vol.img
    ensures Shaped(d1) && Shaped(d2)
    ensures r.None? ==> (parent.fixed && |old(parent.entries)| == ROOT_ENTRIES) || |old(FreeBlocks(vol.Disk()))| < 1 + Growth(parent.fixed, |old(parent.entries)|)
    ensures r.Some? ==> parent.Valid() && Clean(vol.Disk()) && parent.entries == old(parent.entries) + [Zeros(ENTRY_LEN)]
    ensures r.Some? ==> PlaceOf(|parent.entries|).0 < |parent.blocks|
    ensures r.Some? ==> (r.value.1, r.value.2) == (parent.blocks[PlaceOf(|parent.entries|).0], PlaceOf(|parent.entries|).1)
    ensures r.Some? ==> KeyTaken(old(vol.Disk()), d1, r.value.0)
    ensures r.Some? ==> Extended(d1, d2, old(parent.blocks), parent.blocks, Growth(parent.fixed, |old(parent.entries)|))
    ensures r.Some? ==> FreeBlocks(vol.Disk()) == FreeBlocks(d2) && OneBlock(d2, vol.Disk(), r.value.0)
    ensures r.Some? ==> DirHolds(vol.Disk(), [r.value.0], []) && r.value.0 !in Set(parent.blocks)
  {
    hide DirHolds, FreeBlocks, Clean, Set, Beyond, Extended, PlaceOf, Patch, SubdirHeader, OneBlock, Growth;
    ghost var d, blocks0, entries0 := vol.Disk(), parent.blocks, parent.entries;
    d1, d2 := d, d;
    DirPlaced(d, blocks0, entries0);
    var key := vol.AllocBlock();
    if key.None? {
      return None, d1, d2;
    }
    d1 := vol.Disk();
    KeyStands(d, d1, blocks0, entries0, key.value);
    var s := parent.AllocSlot();
    if s.None? {
      return None, d1, d2;
    }
    d2 := vol.Disk();
    var (block, ei) := s.value;
    KeyBlank(d, d1, d2, blocks0, parent.blocks, parent.entries, Growth(parent.fixed, |entries0|), key.value);
    WriteSubdirHeader(vol, key.value, name, block, ei + 1);
    HeaderStands(d2, vol.Disk(), parent.blocks, parent.entries, key.value, name, block, ei + 1);
    return Some((key.value, block, ei)), d1, d2;
  }

  ghost predicate KeyTaken(d: Image, d1: Image, key: nat)
    requires Shaped(d) && Shaped(d1)
  {
    key in FreeBlocks(d) && key < TOTAL_BLOCKS && FreeBlocks(d1) == FreeBlocks(d) - {key} && OneBlock(d, d1, BITMAP_BLOCK)
  }

  lemma KeyStands(d: Image, d1: Image, blocks: seq<nat>, entries: seq<seq<byte>>, key: nat)
    requires Shaped(d) && Shaped(d1) && DirHolds(d, blocks, entries) && Clean(d)
    requires key in FreeBlocks(d) && FreeBlocks(d1) == FreeBlocks(d) - {key} && OneBlock(d, d1, BITMAP_BLOCK)
    ensures DirHolds(d1, blocks, entries) && Clean(d1) && KeyTaken(d, d1, key) && |FreeBlocks(d1)| == |FreeBlocks(d)| - 1
  {
    hide FreeBlocks, DirHolds;
    DirRoom(d, blocks, entries);
    FreeAreData(d);
    DirFrame(d, d1, blocks, entries);
  }

  lemma KeyBlank(d: Image, d1: Image, d2: Image, blocks: seq<nat>, blocks': seq<nat>, entries': seq<seq<byte>>, g: nat, key: nat)
    requires Shaped(d) && Shaped(d1) && Shaped(d2) && Placed(d, blocks) && Clean(d) && KeyTaken(d, d1, key) && Extended(d1, d2, blocks, blocks', g)
    requires DirHolds(d2, blocks', entries')
    ensures d2[key] == Zeros(BLOCK) && 2 <= key < TOTAL_BLOCKS && key != BITMAP_BLOCK && key !in FreeBlocks(d2) && key !in Set(blocks')
    ensures PlaceOf(|entries'|).0 < |blocks'| ==> blocks'[PlaceOf(|entries'|).0] < TOTAL_BLOCKS && PlaceOf(|entries'|).1 < 13
  {
    hide FreeBlocks, DirHolds, Set;
    FreeAreData(d);
    PlacedNotFree(d, blocks);
    DirRoom(d2, blocks', entries');
    assert key !in Set(blocks') by { assert key !in Set(blocks) && key !in FreeBlocks(d1); }
  }

  lemma HeaderStands(d: Image, d': Image, blocks: seq<nat>, entries: seq<seq<byte>>, key: nat, name: seq<byte>, parent: u16, place: byte)
    requires Shaped(d) && Shaped(d') && DirHolds(d, blocks, entries) && Clean(d) && |name| <= MAX_NAME
    requires 2 <= key < TOTAL_BLOCKS && key != BITMAP_BLOCK && key !in FreeBlocks(d) && key !in Set(blocks)
    requires d' == d[key := Patch(Zeros(BLOCK), ENTRY_BASE, SubdirHeader(name, parent, place))]
    ensures DirHolds(d', blocks, entries) && Clean(d') && FreeBlocks(d') == FreeBlocks(d) && OneBlock(d, d', key) && DirHolds(d', [key], [])
  {
    hide FreeBlocks, DirHolds, SubdirHeader;
    SameBitmap(d, d');
    SetMembers(blocks);
    FreeAreData(d);
    DirRoom(d, blocks, entries);
    DirFrame(d, d', blocks, entries);
    HeaderMakesDirectory(d', key, name, parent, place);
  }

  method BuildFolder(vol: Volume, parent: Directory, name: seq<byte>, kids: seq<Source>) returns (ok: bool, ghost node: Node)
    requires parent.vol == vol && vol.Valid() && parent.Valid() && Clean(vol.Disk()) && NameFits(name) && Sane(kids)
    modifies parent`blocks, parent`cursor, parent`count, parent`entries, vol.img
    ensures ok ==> parent.Valid() && Clean(vol.Disk()) && SourceOf(node) == Folder(name, kids) && AllSmall(kids)
    ensures ok ==> Listed(old(vol.Disk()), vol.Disk(), old(parent.blocks), parent.blocks, node,
        NodeCost(Folder(name, kids)) + Growth(parent.fixed, |old(parent.entries)|))
    ensures ok ==> parent.entries == old(parent.entries) + [EntryOf(node, old(parent.blocks[0]))]
    ensures ok || !AllSmall(kids) || (parent.fixed && |old(parent.entries)| == ROOT_ENTRIES)
      || |old(FreeBlocks(vol.Disk()))| < NodeCost(Folder(name, kids)) + Growth(parent.fixed, |old(parent.entries)|)
    decreases kids, 1
  {
    hide DirHolds, FreeBlocks, Clean, Set, Beyond, Extended, EntryBytes, Listed, Growth, PlaceOf, OneBlock, Built, AllSmall, KeyTaken;
    ghost var d, blocks0, entries0 := vol.Disk(), parent.blocks, parent.entries;
    node := FolderNode(name, [], []);
    ok := false;
    DirPlaced(d, blocks0, entries0);
    var r, d1, d2 := AddSubdir(vol, parent, name);
    if r.None? {
      return;
    }
    var (key, block, ei) := r.value;
    ghost var d3 := vol.Disk();
    FolderFree(d, d1, d2, d3, blocks0, parent.blocks, Growth(parent.fixed, |entries0|), key);
    var sub := new Directory(vol, [key], false);
    var built, nodes := BuildTree(vol, sub, kids);
    if !built {
      return;
    }
    ghost var d4 := vol.Disk();
    ParentStands(d3, d4, parent.blocks, parent.entries, key, sub.blocks, nodes, Cost(kids, false));
    DirRoom(d4, parent.blocks, parent.entries);
    DirRoom(d4, sub.blocks, sub.entries);
    assert parent.Valid();
    FillSlot(parent, block, ei, ST_SUBDIR, name, FT_DIR, sub.blocks[0], |sub.blocks|, |sub.blocks| * BLOCK, parent.blocks[0]);
    node := FolderNode(name, sub.blocks, nodes);
    FolderListed(d, d1, d2, d3, d4, vol.Disk(), blocks0, parent.blocks, Growth(parent.fixed, |entries0|), name, key, sub.blocks, nodes, Cost(kids, false));
    ok := true;
  }

  lemma FolderFree(d: Image, d1: Image, d2: Image, d3: Image, blocks: seq<nat>, blocks': seq<nat>, g: nat, key: nat)
    requires Shaped(d) && Shaped(d1) && Shaped(d2) && Shaped(d3) && Placed(d, blocks)
    requires KeyTaken(d, d1, key) && Extended(d1, d2, blocks, blocks', g) && FreeBlocks(d3) == FreeBlocks(d2)
    ensures |FreeBlocks(d3)| == |FreeBlocks(d)| - 1 - g
    ensures blocks' != [] && blocks'[0] == blocks[0]
  {
  }

  lemma ParentStands(d: Image, d': Image, blocks: seq<nat>, entries: seq<seq<byte>>, key: nat, sub: seq<nat>, kids: seq<Node>, used: nat)
    requires Shaped(d) && Shaped(d') && DirHolds(d, blocks, entries) && key !in Set(blocks) && Built(d, d', [key], sub, kids, used)
    ensures DirHolds(d', blocks, entries)
  {
    hide FreeBlocks, DirHolds, KidsHold, OwnedAll, AllFit;
    DirRoom(d, blocks, entries);
    SetMembers(blocks);
    Singleton(key);
    Untouched(d, d', FreeBlocks(d) + Set([key]), Set(blocks));
    DirFrame(d, d', blocks, entries);
  }

  method BuildTree(vol: Volume, dir: Directory, src: seq<Source>) returns (ok: bool, ghost kids: seq<Node>)
    requires dir.vol == vol && vol.Valid() && dir.Valid() && Clean(vol.Disk()) && dir.entries == [] && Sane(src)
    modifies dir`blocks, dir`cursor, dir`count, dir`entries, vol.img
    ensures ok ==> dir.Valid() && Clean(vol.Disk()) && SourcesOf(kids) == src
    ensures ok ==> Built(old(vol.Disk()), vol.Disk(), old(dir.blocks), dir.blocks, kids, Cost(src, dir.fixed))
    ensures ok ==> AllFit(kids) && dir.blocks != [] && dir.blocks[0] == old(dir.blocks[0]) < TOTAL_BLOCKS && dir.entries == EntriesOf(kids, dir.blocks[0])
    ensures ok <==> Fits(src, dir.fixed, |old(FreeBlocks(vol.Disk()))|)
    decreases src, 0
  {
    hide DirHolds, FreeBlocks, Clean, Listed, Growth, NodeCost, NodeSmall, SoFar, Fits;
    ghost var d0, blocks0 := vol.Disk(), dir.blocks;
    kids := [];
    NothingSoFar(d0, blocks0, dir.fixed);
    for i := 0 to |src|
      invariant dir.Valid() && Clean(vol.Disk())
      invariant SoFar(d0, vol.Disk(), blocks0, dir.blocks, dir.entries, src[..i], dir.fixed, kids)
    {
      ghost var d, blocks, entries := vol.Disk(), dir.blocks, dir.entries;
      ghost var node;
      CountSoFar(d0, d, blocks0, blocks, entries, src[..i], dir.fixed, kids);
      ok, node := BuildChild(vol, dir, src[i]);
      if !ok {
        NoRoom(src, dir.fixed, i, |FreeBlocks(d0)|, |FreeBlocks(d)|);
        return;
      }
      NextSoFar(d0, d, vol.Disk(), blocks0, blocks, dir.blocks, entries, dir.entries, src, i, dir.fixed, kids, node);
      kids := kids + [node];
    }
    assert src[..|src|] == src;
    CountSoFar(d0, vol.Disk(), blocks0, dir.blocks, dir.entries, src, dir.fixed, kids);
    RoomSoFar(d0, vol.Disk(), blocks0, dir.blocks, dir.entries, src, dir.fixed, kids);
    ok := true;
  }

  method BuildChild(vol: Volume, dir: Directory, s: Source) returns (ok: bool, ghost node: Node)
    requires dir.vol == vol && vol.Valid() && dir.Valid() && Clean(vol.Disk()) && NameFits(s.name) && (s.Folder? ==> Sane(s.kids))
    modifies dir`blocks, dir`cursor, dir`count, dir`entries, vol.img
    ensures ok ==> dir.Valid() && Clean(vol.Disk()) && SourceOf(node) == s && NodeSmall(s)
    ensures ok ==> Listed(old(vol.Disk()), vol.Disk(), old(dir.blocks), dir.blocks, node, NodeCost(s) + Growth(dir.fixed, |old(dir.entries)|))
    ensures ok ==> dir.entries == old(dir.entries) + [EntryOf(node, old(dir.blocks[0]))]
    ensures ok || !NodeSmall(s) || (dir.fixed && |old(dir.entries)| == ROOT_ENTRIES)
      || |old(FreeBlocks(vol.Disk()))| < NodeCost(s) + Growth(dir.fixed, |old(dir.entries)|)
    decreases s, 2
  {
    hide DirHolds, FreeBlocks, Clean, Listed, Growth, AllSmall;
    match s
    case File(name, data) => ok, node := AddFile(vol, dir, name, data);
    case Folder(name, ks) => ok, node := BuildFolder(vol, dir, name, ks);
  }

  /** The directory holds the first of its entries, and has cost what they cost. */
  ghost predicate SoFar(d0: Image, d: Image, blocks0: seq<nat>, blocks: seq<nat>, entries: seq<seq<byte>>, src: seq<Source>, fixed: bool, kids: seq<Node>)
    requires Shaped(d0) && Shaped(d)
  {
    && Placed(d0, blocks0) && Built(d0, d, blocks0, blocks, kids, Cost(src, fixed))
    && AllFit(kids) && blocks != [] && blocks[0] == blocks0[0] && entries == EntriesOf(kids, blocks0[0])
    && SourcesOf(kids) == src && AllSmall(src)
  }

  lemma NothingSoFar(d: Image, blocks: seq<nat>, fixed: bool)
    requires Shaped(d) && DirHolds(d, blocks, [])
    ensures SoFar(d, d, blocks, blocks, [], [], fixed, [])
  {
    NothingBuilt(d, blocks, []);
  }

  lemma CountSoFar(d0: Image, d: Image, blocks0: seq<nat>, blocks: seq<nat>, entries: seq<seq<byte>>, src: seq<Source>, fixed: bool, kids: seq<Node>)
    requires Shaped(d0) && Shaped(d) && SoFar(d0, d, blocks0, blocks, entries, src, fixed, kids)
    ensures |FreeBlocks(d)| + Cost(src, fixed) == |FreeBlocks(d0)| && |entries| == |src| && blocks != [] && blocks[0] == blocks0[0]
    ensures AllSmall(src)
  {
  }

  lemma RoomSoFar(d0: Image, d: Image, blocks0: seq<nat>, blocks: seq<nat>, entries: seq<seq<byte>>, src: seq<Source>, fixed: bool, kids: seq<Node>)
    requires Shaped(d0) && Shaped(d) && SoFar(d0, d, blocks0, blocks, entries, src, fixed, kids)
    requires DirHolds(d, blocks, entries) && |blocks| == ChainLength(fixed, |entries|)
    ensures Fits(src, fixed, |FreeBlocks(d0)|) && SourcesOf(kids) == src && AllFit(kids) && entries == EntriesOf(kids, blocks[0])
    ensures Built(d0, d, blocks0, blocks, kids, Cost(src, fixed)) && blocks[0] < TOTAL_BLOCKS
  {
    hide FreeBlocks, DirHolds;
    DirRoom(d, blocks, entries);
    CountSoFar(d0, d, blocks0, blocks, entries, src, fixed, kids);
  }

  lemma NextSoFar(d0: Image, d: Image, d': Image, blocks0: seq<nat>, blocks: seq<nat>, blocks': seq<nat>,
      entries: seq<seq<byte>>, entries': seq<seq<byte>>, src: seq<Source>, i: nat, fixed: bool, kids: seq<Node>, node: Node)
    requires Shaped(d0) && Shaped(d) && Shaped(d') && i < |src| && SoFar(d0, d, blocks0, blocks, entries, src[..i], fixed, kids)
    requires Listed(d, d', blocks, blocks', node, NodeCost(src[i]) + Growth(fixed, i)) && SourceOf(node) == src[i] && NodeSmall(src[i])
    requires entries' == entries + [EntryOf(node, blocks0[0])]
    ensures SoFar(d0, d', blocks0, blocks', entries', src[..i + 1], fixed, kids + [node])
  {
    hide FreeBlocks, Built, Listed, AllSmall, NodeSmall, NodeCost, Growth, AllFit, Cost;
    NextNeeds(src, fixed, i);
    BuiltNext(d0, d, d', blocks0, blocks, blocks', kids, node, Cost(src[..i], fixed), NodeCost(src[i]) + Growth(fixed, i));
    NextEntry(d, d', blocks, blocks', kids, node, NodeCost(src[i]) + Growth(fixed, i), blocks0[0]);
    assert src[..i + 1] == src[..i] + [src[i]];
  }

  lemma NextNeeds(src: seq<Source>, fixed: bool, i: nat)
    requires i < |src|
    ensures Cost(src[..i + 1], fixed) == Cost(src[..i], fixed) + NodeCost(src[i]) + Growth(fixed, i)
    ensures AllSmall(src[..i]) && NodeSmall(src[i]) ==> AllSmall(src[..i + 1])
    ensures NodeCost(src[i]) == match src[i] case File(_, data) => FileCost(data) case Folder(_, kids) => 1 + Cost(kids, false)
  {
    assert src[..i + 1][..i] == src[..i];
  }

  lemma NoRoom(src: seq<Source>, fixed: bool, i: nat, free0: nat, free: nat)
    requires i < |src| && free + Cost(src[..i], fixed) == free0
    requires !NodeSmall(src[i]) || (fixed && i == ROOT_ENTRIES) || free < NodeCost(src[i]) + Growth(fixed, i)
    ensures !Fits(src, fixed, free0)
  {
    CostGrows(src, fixed, i + 1);
    assert src[..i + 1][..i] == src[..i];
  }

  lemma NextEntry(d: Image, d': Image, blocks: seq<nat>, blocks': seq<nat>, kids: seq<Node>, node: Node, u: nat, header: u16)
    requires Shaped(d) && Shaped(d') && Listed(d, d', blocks, blocks', node, u) && AllFit(kids)
    ensures AllFit(kids + [node]) && EntriesOf(kids + [node], header) == EntriesOf(kids, header) + [EntryOf(node, header)]
    ensures SourcesOf(kids + [node]) == SourcesOf(kids) + [SourceOf(node)]
    ensures blocks' != [] && blocks'[0] == blocks[0]
  {
    assert (kids + [node])[..|kids|] == kids;
  }
}
