/** Formatting a ProDOS volume, filling it, and checking it by reading it back. */
module ProDosImage {
  import opened Arithmetic
  import opened BlockVolume
  import opened ByteStrings
  import opened FiniteSets
  import opened ProDosDirectory
  import opened ProDosTree
  import opened ProDos
  import opened ProDosReadBack
  import opened ProDosReader

  const VOLDIR_START := 2
  const VOLDIR_BLOCKS := 4
  const ST_VOL_HEADER := 0xF

  // ---- The volume directory ----

  /** A blank block of a chain. */
  function LinkBlock(prev: u16, next: u16): (b: Block)
    ensures |b| == BLOCK
  {
    Patch(Patch(Zeros(BLOCK), 0, LE16(prev)), 2, LE16(next))
  }

  function VolumeHeader(name: seq<byte>): (e: seq<byte>)
    requires |name| <= MAX_NAME
    ensures |e| == ENTRY_LEN
  {
    [ST_VOL_HEADER * 16 + |name|] + name + Zeros(MAX_NAME - |name|) + Zeros(14)
    + [ACCESS, ENTRY_LEN, ENTRIES_PER_BLOCK] + Zeros(2) + LE16(BITMAP_BLOCK) + LE16(TOTAL_BLOCKS)
  }

  lemma VolumeHeaderFields(name: seq<byte>)
    requires |name| <= MAX_NAME
    ensures var e := VolumeHeader(name);
      && e[0..1] == [ST_VOL_HEADER * 16 + |name|] && e[1..16] == name + Zeros(MAX_NAME - |name|)
      && e[30..33] == [ACCESS, ENTRY_LEN, ENTRIES_PER_BLOCK] && e[35..37] == LE16(BITMAP_BLOCK) && e[37..39] == LE16(TOTAL_BLOCKS)
      && (forall i :: 16 <= i < 30 || 33 <= i < 35 ==> e[i] == 0)
  {
    var e := VolumeHeader(name);
    assert e[1..16] == name + Zeros(MAX_NAME - |name|);
  }

  function RootBlocks(): (s: seq<nat>)
    ensures |s| == VOLDIR_BLOCKS
  {
    [2, 3, 4, 5]
  }

  method WriteVolumeHeader(vol: Volume, name: seq<byte>)
    requires vol.Valid() && |name| <= MAX_NAME && forall i :: 4 <= i < BLOCK ==> vol.Disk()[VOLDIR_START][i] == 0
    modifies vol.img
    ensures vol.Disk() == old(vol.Disk())[VOLDIR_START := Patch(old(vol.Disk())[VOLDIR_START], ENTRY_BASE, VolumeHeader(name))]
  {
    hide Filling, Patch, LE16, VolumeHeader;
    ghost var d, e := vol.Disk(), VolumeHeader(name);
    VolumeHeaderFields(name);
    FillNone(d, VOLDIR_START, ENTRY_BASE, e);
    WriteField(vol, d, VOLDIR_START, ENTRY_BASE, e, 0x00, 0x00, [ST_VOL_HEADER * 16 + |name|]);
    WriteField(vol, d, VOLDIR_START, ENTRY_BASE, e, 0x01, 0x01, name + Zeros(MAX_NAME - |name|));
    WriteField(vol, d, VOLDIR_START, ENTRY_BASE, e, 0x10, 0x1E, [ACCESS, ENTRY_LEN, ENTRIES_PER_BLOCK]);
    WriteField(vol, d, VOLDIR_START, ENTRY_BASE, e, 0x21, 0x23, LE16(BITMAP_BLOCK));
    WriteField(vol, d, VOLDIR_START, ENTRY_BASE, e, 0x25, 0x25, LE16(TOTAL_BLOCKS));
    FillDone(d, vol.Disk(), VOLDIR_START, ENTRY_BASE, e);
  }

  method InitVoldir(vol: Volume, name: seq<byte>)
    requires vol.Valid() && |name| <= MAX_NAME && forall b :: VOLDIR_START <= b < VOLDIR_START + VOLDIR_BLOCKS ==> vol.Disk()[b] == Zeros(BLOCK)
    requires forall b :: b in RootBlocks() ==> b !in FreeBlocks(vol.Disk())
    modifies vol.img
    ensures DirHolds(vol.Disk(), RootBlocks(), []) && FreeBlocks(vol.Disk()) == old(FreeBlocks(vol.Disk()))
    ensures Beyond(old(vol.Disk()), vol.Disk(), Set(RootBlocks()))
  {
    hide FreeBlocks, Patch, LE16, VolumeHeader, DirHolds;
    ghost var d := vol.Disk();
    for i := 0 to VOLDIR_BLOCKS
      invariant forall b :: 0 <= b < TOTAL_BLOCKS && !(VOLDIR_START <= b < VOLDIR_START + i) ==> vol.Disk()[b] == d[b]
      invariant forall b :: VOLDIR_START <= b < VOLDIR_START + i ==> vol.Disk()[b] == LinkBlock(PrevOf(RootBlocks(), b - 2), NextOf(RootBlocks(), b - 2))
    {
      var blk := VOLDIR_START + i;
      vol.Write16(blk, 0, PrevOf(RootBlocks(), i));
      vol.Write16(blk, 2, NextOf(RootBlocks(), i));
    }
    LinkBlank(0, 3);
    WriteVolumeHeader(vol, name);
    SameBitmap(d, vol.Disk());
    RootHolds(vol.Disk(), name);
  }

  lemma LinkBlank(prev: u16, next: u16)
    ensures forall i :: 4 <= i < BLOCK ==> LinkBlock(prev, next)[i] == 0
    ensures U16(LinkBlock(prev, next), 0) == prev && U16(LinkBlock(prev, next), 2) == next
  {
  }

  lemma RootHolds(d: Image, name: seq<byte>)
    requires Shaped(d) && |name| <= MAX_NAME && forall b :: b in RootBlocks() ==> b !in FreeBlocks(d)
    requires d[2] == Patch(LinkBlock(0, 3), ENTRY_BASE, VolumeHeader(name))
    requires d[3] == LinkBlock(2, 4) && d[4] == LinkBlock(3, 5) && d[5] == LinkBlock(4, 0)
    ensures DirHolds(d, RootBlocks(), [])
  {
    hide FreeBlocks, LinkBlock, VolumeHeader;
    var blocks := RootBlocks();
    VolumeHeaderFields(name);
    LinkBlank(0, 3);
    LinkBlank(2, 4);
    LinkBlank(3, 5);
    LinkBlank(4, 0);
    assert forall i :: 0 <= i < |blocks| ==> blocks[i] in RootBlocks();
    forall i | 0 <= i < |blocks| ensures LinkedAt(d, blocks, i) {}
    assert d[2][COUNT_AT] == VolumeHeader(name)[33] && d[2][COUNT_AT + 1] == VolumeHeader(name)[34];
    forall s | 1 <= s < ENTRIES_PER_BLOCK * |blocks| ensures SlotHolds(d, blocks, [], s) {
      SlotInside(s);
      assert SlotAt(d, blocks, s) == Zeros(ENTRY_LEN);
    }
  }

  // ---- The whole image ----

  /** Read everything back: this passes exactly if there is no error, and just these files are read. */
  method VerifyRoundtrip(vol: Volume, expected: map<Path, seq<byte>>, ghost r: Reading) returns (ok: bool)
    requires vol.Valid() && IsVolume(vol.img[..]) && Ends(vol.img[..], VOLDIR_START, r)
    ensures ok <==> !Bad(vol.img[..], VOLDIR_START, r) && FilesIn(vol.img[..], [], VOLDIR_START, r) == expected
  {
    hide Ends, Bad, FilesIn;
    var got := ExtractDir(vol, VOLDIR_START, [], map[], r);
    if got.None? {
      return false;
    }
    assert map[] + FilesIn(vol.img[..], [], VOLDIR_START, r) == FilesIn(vol.img[..], [], VOLDIR_START, r);
    ok := got.value == expected;
  }

  const DATA_BLOCKS := TOTAL_BLOCKS - FIRST_DATA

  /** Format a volume, build the tree on it, and read it back: the check passes for every tree,
      and the tree is refused only if it does not fit. */
  method CreateImage(name: seq<byte>, src: seq<Source>) returns (ok: bool, verified: bool, vol: Volume, ghost kids: seq<Node>)
    requires NameFits(name) && Sane(src)
    ensures vol.Valid() && (ok <==> Fits(src, true, DATA_BLOCKS))
    ensures ok ==> verified
    ensures ok ==> FolderHolds(vol.Disk(), RootBlocks(), kids) && SourcesOf(kids) == src
    ensures ok ==> forall b :: FIRST_DATA <= b < TOTAL_BLOCKS ==> (IsFree(vol.Disk()[BITMAP_BLOCK], b) <==> b !in OwnedAll(kids))
    ensures ok ==> |OwnedAll(kids)| == Cost(src, true)
  {
    hide IsFree, FreeBlocks, FolderHolds, Clean, Built, Fits, DirHolds;
    verified, kids := false, [];
    vol := new Volume();
    vol.InitBitmap();
    InitVoldir(vol, name);
    ghost var d := vol.Disk();
    FreshVolume(d);
    var root := new Directory(vol, RootBlocks(), true);
    ok, kids := BuildTree(vol, root, src);
    if !ok {
      return;
    }
    RootFolder(d, vol.Disk(), root.blocks, kids, root.entries, Cost(src, true));
    var expected := FilesOf([], src);
    TreeReadsBack(vol.img[..], [], RootBlocks(), kids);
    verified := VerifyRoundtrip(vol, expected, ReadingOf(RootBlocks(), kids));
  }

  lemma FreshVolume(d: Image)
    requires Shaped(d) && forall b :: b in FreeBlocks(d) <==> FIRST_DATA <= b < TOTAL_BLOCKS
    requires forall b :: FIRST_DATA <= b < TOTAL_BLOCKS ==> d[b] == Zeros(BLOCK)
    ensures Clean(d) && |FreeBlocks(d)| == DATA_BLOCKS
  {
    hide FreeBlocks;
    RangeSize(FreeBlocks(d), FIRST_DATA, TOTAL_BLOCKS);
  }

  lemma RootFolder(d: Image, d': Image, blocks: seq<nat>, kids: seq<Node>, entries: seq<seq<byte>>, used: nat)
    requires Shaped(d) && Shaped(d') && Built(d, d', RootBlocks(), blocks, kids, used) && |blocks| == 4
    requires forall b :: b in FreeBlocks(d) <==> FIRST_DATA <= b < TOTAL_BLOCKS
    requires AllFit(kids) && blocks[0] < TOTAL_BLOCKS && entries == EntriesOf(kids, blocks[0]) && DirHolds(d', blocks, entries)
    ensures FolderHolds(d', RootBlocks(), kids) && |OwnedAll(kids)| == used
    ensures forall b :: FIRST_DATA <= b < TOTAL_BLOCKS ==> (IsFree(d'[BITMAP_BLOCK], b) <==> b !in OwnedAll(kids))
  {
    hide DirHolds, IsFree, FreeBlocks, KidsHold, AllFit, OwnedAll, Set, Beyond;
    assert blocks == RootBlocks();
    RootSet();
    FreeMeans(d');
    assert OwnedAll(kids) <= FreeBlocks(d);
    FreeIsRest(FreeBlocks(d), OwnedAll(kids), Set(blocks));
  }

  lemma FreeMeans(d: Image)
    requires Shaped(d)
    ensures forall b :: FIRST_DATA <= b < TOTAL_BLOCKS ==> (IsFree(d[BITMAP_BLOCK], b) <==> b in FreeBlocks(d))
  {
  }

  lemma FreeIsRest(free: set<nat>, mine: set<nat>, blocks: set<nat>)
    requires mine <= free && free !! blocks
    ensures free - mine - blocks == free - mine && |free - mine| == |free| - |mine|
  {
  }

  lemma RootSet()
    ensures forall b :: b in Set(RootBlocks()) ==> b < FIRST_DATA
  {
  }
}
