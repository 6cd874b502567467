/** Reading back a volume that holds a tree, and why the self-check of the image writer cannot fail. */
module ProDosReadBack {
  import opened Arithmetic
  import opened BlockVolume
  import opened ByteStrings
  import opened Chunks
  import opened ProDosDirectory
  import opened ProDosReader
  import opened ProDosTree

  // ---- Files ----

  lemma BlockStretch(img: seq<byte>, b: nat, n: nat)
    requires IsVolume(img) && b < TOTAL_BLOCKS && n <= BLOCK
    ensures Stretch(img, b * BLOCK, n) == Split(img)[b][..n]
  {
    var block, piece := Split(img)[b][..n], Stretch(img, b * BLOCK, n);
    assert forall i :: 0 <= i < n ==> block[i] == piece[i];
  }

  lemma PointerHeld(img: seq<byte>, key: nat, i: nat)
    requires IsVolume(img) && key < TOTAL_BLOCKS && i < 256
    ensures PointerAt(img, key * BLOCK, i) == Pointer(Split(img)[key], i)
  {
  }

  /** The blocks that the index of a sapling leads to hold the file. */
  lemma {:induction false} HeldJoined(img: seq<byte>, file: seq<byte>, key: nat, more: seq<nat>, n: nat)
    requires IsVolume(img) && FileHolds(Split(img), file, key, more) && |file| > SEEDLING_MAX && n <= |more|
    ensures key * BLOCK + 0x100 + n <= |img| && |Joined(img, key * BLOCK, n)| == n * BLOCK
    ensures Joined(img, key * BLOCK, n)[..Lo(BLOCK, file, n)] == file[..Lo(BLOCK, file, n)]
  {
    hide Chunk, Pointer, PointerAt, Stretch;
    LoSteps(BLOCK, file, 0);
    if n > 0 {
      var i := n - 1;
      HeldJoined(img, file, key, more, i);
      assert ChunkHolds(Split(img), file, key, more, i);
      PointerHeld(img, key, i);
      BlockStretch(img, more[i], BLOCK);
      JoinChunk(BLOCK, file, Joined(img, key * BLOCK, i), Split(img)[more[i]], i);
    }
  }

  lemma HeldFile(img: seq<byte>, file: seq<byte>, key: nat, more: seq<nat>, storage: nat)
    requires IsVolume(img) && FileHolds(Split(img), file, key, more)
    requires storage == if |file| <= SEEDLING_MAX then ST_SEEDLING else ST_SAPLING
    ensures IndexThere(img, storage, key, |file|) && FileBytes(img, storage, key, |file|) == file
  {
    hide Joined, SaplingHolds;
    if |file| <= SEEDLING_MAX {
      BlockStretch(img, key, |file|);
    } else {
      HeldJoined(img, file, key, more, |more|);
      LoSteps(BLOCK, file, |more|);
    }
  }

  // ---- Directories ----

  lemma {:induction false} KidHolds(d: Image, kids: seq<Node>, j: nat)
    requires Shaped(d) && KidsHold(d, kids) && j < |kids|
    ensures NodeHolds(d, kids[j])
  {
    if j < |kids| - 1 {
      KidHolds(d, kids[..|kids| - 1], j);
    }
  }

  lemma FilesNext(prefix: Path, kids: seq<Node>, j: nat)
    requires j < |kids|
    ensures FilesOf(prefix, SourcesOf(kids[..j + 1])) == FilesOf(prefix, SourcesOf(kids[..j])) + NodeFiles(prefix, SourceOf(kids[j]))
  {
    assert kids[..j + 1][..j] == kids[..j];
    var s := SourcesOf(kids[..j + 1]);
    assert s[..j] == SourcesOf(kids[..j]) && s[j] == SourceOf(kids[j]);
  }

  /** What the slots of a directory hold: the entries of its kids, and then nothing. */
  lemma SlotEntry(d: Image, blocks: seq<nat>, kids: seq<Node>, s: nat)
    requires Shaped(d) && FolderHolds(d, blocks, kids) && 1 <= s < ENTRIES_PER_BLOCK * |blocks|
    ensures forall i :: 0 <= i < |blocks| ==> blocks[i] < TOTAL_BLOCKS
    ensures SlotAt(d, blocks, s) == if s <= |kids| then EntryOf(kids[s - 1], blocks[0]) else Zeros(ENTRY_LEN)
  {
    hide FreeBlocks;
    assert SlotHolds(d, blocks, EntriesOf(kids, blocks[0]), s);
  }

  /** What the reader finds in slot s, and what it may rely on if it goes on from there. */
  lemma SlotMeans(d: Image, blocks: seq<nat>, kids: seq<Node>, s: nat)
    requires Shaped(d) && FolderHolds(d, blocks, kids) && 1 <= s < ENTRIES_PER_BLOCK * |blocks|
    ensures forall i :: 0 <= i < |blocks| ==> blocks[i] < TOTAL_BLOCKS
    ensures s > |kids| ==> Storage(SlotAt(d, blocks, s)) == 0
    ensures s <= |kids| ==> EntryTells(d, SlotAt(d, blocks, s), kids[s - 1])
  {
    hide FreeBlocks, DirHolds, SlotAt, NodeHolds, KidsHold, EntryOf, EntriesOf, EntryTells, OwnedAll;
    SlotEntry(d, blocks, kids, s);
    if s <= |kids| {
      KidHolds(d, kids, s - 1);
      NodeTells(d, kids[s - 1], blocks[0]);
    }
  }

  lemma NodeTells(d: Image, node: Node, header: u16)
    requires Shaped(d) && EntryFits(node) && NodeHolds(d, node)
    ensures EntryTells(d, EntryOf(node, header), node)
  {
    hide EntryOf, Storage, NameIn, NameLength, Key, Eof, FolderHolds, FileHolds, IsAscii;
    EntryMeans(node, header);
    if node.FolderNode? { FolderRoom(d, node.blocks, node.kids); }
  }

  ghost predicate EntryTells(d: Image, e: seq<byte>, node: Node)
    requires Shaped(d) && |e| == ENTRY_LEN
  {
    && NameLength(e) != 0 && NameIn(e) == node.name && IsAscii(node.name)
    && match node
       case FileNode(_, data, key, more) =>
         Storage(e) == (if |data| <= SEEDLING_MAX then ST_SEEDLING else ST_SAPLING) && Key(e) == key && Eof(e) == |data| && FileHolds(d, data, key, more)
       case FolderNode(_, blocks, kids) => Storage(e) == ST_SUBDIR && FolderHolds(d, blocks, kids) && Key(e) == blocks[0]
  }

  /** What the reader sees in a node's entry. */
  lemma EntryMeans(node: Node, header: u16)
    requires EntryFits(node)
    ensures var e := EntryOf(node, header);
      && NameIn(e) == node.name && NameLength(e) != 0
      && match node
         case FileNode(_, data, key, _) =>
           Storage(e) == (if |data| <= SEEDLING_MAX then ST_SEEDLING else ST_SAPLING) && Key(e) == key && Eof(e) == |data|
         case FolderNode(_, blocks, _) => Storage(e) == ST_SUBDIR && Key(e) == blocks[0]
  {
    match node
    case FileNode(name, data, key, more) =>
      EntryReads(if |data| <= SEEDLING_MAX then ST_SEEDLING else ST_SAPLING, name, FileType(name), key, 1 + |more|, |data|, header);
    case FolderNode(name, blocks, _) =>
      EntryReads(ST_SUBDIR, name, FT_DIR, blocks[0], |blocks|, |blocks| * BLOCK, header);
  }

  lemma ChainAt(d: Image, blocks: seq<nat>, kids: seq<Node>, i: nat)
    requires Shaped(d) && FolderHolds(d, blocks, kids) && i < |blocks|
    ensures 0 < blocks[i] < TOTAL_BLOCKS && U16(d[blocks[i]], 2) == if i + 1 < |blocks| then blocks[i + 1] else 0
  {
    hide FreeBlocks, SlotHolds, KidsHold, OwnedAll, AllFit, EntriesOf, U16;
    assert LinkedAt(d, blocks, i);
  }

  lemma FolderRoom(d: Image, blocks: seq<nat>, kids: seq<Node>)
    requires Shaped(d) && FolderHolds(d, blocks, kids)
    ensures blocks != [] && 0 < blocks[0] < TOTAL_BLOCKS && |kids| < ENTRIES_PER_BLOCK * |blocks|
  {
    hide DirHolds, KidsHold, OwnedAll;
    DirRoom(d, blocks, EntriesOf(kids, blocks[0]));
  }

  /** How the directory of a tree is read. */
  ghost function ReadingOf(blocks: seq<nat>, kids: seq<Node>): Reading
    decreases kids
  {
    Reading(blocks, map k: nat | k < |kids| && kids[k].FolderNode? :: ReadingOf(kids[k].blocks, kids[k].kids))
  }

  lemma HeldChain(img: seq<byte>, blocks: seq<nat>, kids: seq<Node>)
    requires IsVolume(img) && FolderHolds(Split(img), blocks, kids)
    ensures blocks != [] && ChainEnds(img, blocks[0], blocks) && |kids| < ENTRIES_PER_BLOCK * |blocks|
    ensures Visit(img, blocks[0], blocks, |blocks|) == 0
  {
    hide FolderHolds, U16;
    FolderRoom(Split(img), blocks, kids);
    forall i | 0 <= i < |blocks| ensures LeadsOn(img, blocks, i) {
      ChainAt(Split(img), blocks, kids, i);
    }
    LedChain(img, blocks);
  }

  ghost predicate LeadsOn(img: seq<byte>, blocks: seq<nat>, i: nat)
    requires IsVolume(img) && i < |blocks|
  {
    0 < blocks[i] < TOTAL_BLOCKS && U16(Split(img)[blocks[i]], 2) == if i + 1 < |blocks| then blocks[i + 1] else 0
  }

  lemma LedChain(img: seq<byte>, blocks: seq<nat>)
    requires IsVolume(img) && blocks != [] && forall i :: 0 <= i < |blocks| ==> LeadsOn(img, blocks, i)
    ensures ChainEnds(img, blocks[0], blocks) && Visit(img, blocks[0], blocks, |blocks|) == 0
  {
    hide U16;
    assert LeadsOn(img, blocks, |blocks| - 1);
    forall i | 0 <= i < |blocks| ensures blocks[i] < TOTAL_BLOCKS && blocks[i] != 0 { assert LeadsOn(img, blocks, i); }
    forall i | 0 <= i < |blocks| ensures Visit(img, blocks[0], blocks, i) == blocks[i] {
      if i > 0 { assert LeadsOn(img, blocks, i - 1); }
    }
  }

  /** Reading a volume as written ends, without an error. */
  lemma {:induction false} HeldEnds(img: seq<byte>, blocks: seq<nat>, kids: seq<Node>)
    requires IsVolume(img) && FolderHolds(Split(img), blocks, kids)
    ensures blocks != [] && Ends(img, blocks[0], ReadingOf(blocks, kids)) && !Bad(img, blocks[0], ReadingOf(blocks, kids))
    decreases kids
  {
    hide FolderHolds, Storage, NameIn, NameLength, Key, Eof, IsAscii, IndexThere, ChainEnds, SlotAt, Visit;
    var r := ReadingOf(blocks, kids);
    HeldChain(img, blocks, kids);
    InChain(img, blocks[0], blocks);
    forall s | 1 <= s < ENTRIES_PER_BLOCK * |blocks|
      ensures var e := Slot(img, blocks, s);
        IsFolder(e) ==> s - 1 in r.subs && Ends(img, Key(e), r.subs[s - 1]) && !Bad(img, Key(e), r.subs[s - 1])
    {
      SlotMeans(Split(img), blocks, kids, s);
      if s <= |kids| && kids[s - 1].FolderNode? { HeldEnds(img, kids[s - 1].blocks, kids[s - 1].kids); }
    }
    forall s | 1 <= s < ENTRIES_PER_BLOCK * |blocks| ensures !SlotBad(img, blocks[0], r, s) {
      SlotMeans(Split(img), blocks, kids, s);
      if s <= |kids| && kids[s - 1].FileNode? { HeldFile(img, kids[s - 1].data, kids[s - 1].key, kids[s - 1].more, Storage(Slot(img, blocks, s))); }
    }
  }

  lemma NoFiles(prefix: Path)
    ensures FilesOf(prefix, SourcesOf([])) == map[]
  {
  }

  /** And what is read is the files of the tree. */
  lemma {:induction false} HeldFiles(img: seq<byte>, prefix: Path, blocks: seq<nat>, kids: seq<Node>, n: nat)
    requires IsVolume(img) && FolderHolds(Split(img), blocks, kids) && n <= ENTRIES_PER_BLOCK * |blocks|
    ensures blocks != [] && Ends(img, blocks[0], ReadingOf(blocks, kids)) && !Bad(img, blocks[0], ReadingOf(blocks, kids))
    ensures FilesTo(img, prefix, blocks[0], ReadingOf(blocks, kids), n) == FilesOf(prefix, SourcesOf(kids[..Min(|kids|, if n == 0 then 0 else n - 1)]))
    decreases kids, n
  {
    hide FolderHolds, SlotFiles, SlotBad, Ends, Bad, FilesOf;
    HeldEnds(img, blocks, kids);
    var r := ReadingOf(blocks, kids);
    NoneBad(img, blocks[0], r);
    if n <= 1 {
      assert kids[..0] == [];
      NoFiles(prefix);
    } else {
      var s := n - 1;
      HeldFiles(img, prefix, blocks, kids, s);
      HeldSlot(img, prefix, blocks, kids, s);
      if s <= |kids| { FilesNext(prefix, kids, s - 1); }
    }
  }

  lemma {:induction false} HeldSlot(img: seq<byte>, prefix: Path, blocks: seq<nat>, kids: seq<Node>, s: nat)
    requires IsVolume(img) && FolderHolds(Split(img), blocks, kids) && 1 <= s < ENTRIES_PER_BLOCK * |blocks|
    requires blocks != [] && Ends(img, blocks[0], ReadingOf(blocks, kids)) && !SlotBad(img, blocks[0], ReadingOf(blocks, kids), s)
    ensures SlotFiles(img, prefix, blocks[0], ReadingOf(blocks, kids), s)
         == if s <= |kids| then NodeFiles(prefix, SourceOf(kids[s - 1])) else map[]
    decreases kids, 0
  {
    hide FolderHolds, FilesTo, Storage, NameIn, NameLength, Key, Eof, IsAscii, IndexThere, ChainEnds, SlotAt, Visit, FilesOf, FileBytes;
    SlotMeans(Split(img), blocks, kids, s);
    if s <= |kids| {
      var node := kids[s - 1];
      match node
      case FileNode(_, data, key, more) => HeldFile(img, data, key, more, Storage(Slot(img, blocks, s)));
      case FolderNode(name, subblocks, subkids) =>
        FolderRoom(Split(img), subblocks, subkids);
        HeldFiles(img, prefix + [name], subblocks, subkids, ENTRIES_PER_BLOCK * |subblocks|);
        assert subkids[..|subkids|] == subkids;
    }
  }

  /** Reading a tree back gives its files. */
  lemma TreeReadsBack(img: seq<byte>, prefix: Path, blocks: seq<nat>, kids: seq<Node>)
    requires IsVolume(img) && FolderHolds(Split(img), blocks, kids)
    ensures blocks != [] && Ends(img, blocks[0], ReadingOf(blocks, kids)) && !Bad(img, blocks[0], ReadingOf(blocks, kids))
    ensures FilesIn(img, prefix, blocks[0], ReadingOf(blocks, kids)) == FilesOf(prefix, SourcesOf(kids))
  {
    hide FolderHolds, Ends, Bad, FilesOf, FilesTo;
    FolderRoom(Split(img), blocks, kids);
    HeldFiles(img, prefix, blocks, kids, ENTRIES_PER_BLOCK * |blocks|);
    assert kids[..|kids|] == kids;
  }
}
