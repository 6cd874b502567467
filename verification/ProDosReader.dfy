/** Reading a ProDOS volume, whatever is on it. */
module ProDosReader {
  import opened Arithmetic
  import opened BlockVolume
  import opened ByteStrings
  import opened ProDosDirectory
  import opened ProDosTree
  import opened Wrappers

  /** A volume as its bytes. */
  predicate IsVolume(img: seq<byte>) {
    |img| == TOTAL_BLOCKS * BLOCK
  }

  // ---- Files ----

  /** n bytes from a place on, as far as there are any. */
  function Stretch(img: seq<byte>, at: nat, n: nat): seq<byte> {
    img[Min(at, |img|)..Min(at + n, |img|)]
  }

  function PointerAt(img: seq<byte>, index: nat, i: nat): nat
    requires index + 0x100 + i < |img|
  {
    var low: int, high: int := img[index + i], img[index + 0x100 + i];
    low + 256 * high
  }

  function BlocksOf(eof: nat): nat {
    (eof + BLOCK - 1) / BLOCK
  }

  /** The index of a sapling is on the volume. Nothing limits it to one block. */
  predicate IndexThere(img: seq<byte>, storage: nat, key: nat, eof: nat) {
    storage == ST_SEEDLING || eof == 0 || key * BLOCK + 0x100 + BlocksOf(eof) <= |img|
  }

  /** What the first n pointers of an index lead to, put together. */
  ghost function Joined(img: seq<byte>, index: nat, n: nat): seq<byte>
    requires n > 0 ==> index + 0x100 + n <= |img|
  {
    if n == 0 then [] else Joined(img, index, n - 1) + Stretch(img, PointerAt(img, index, n - 1) * BLOCK, BLOCK)
  }

  ghost function FileBytes(img: seq<byte>, storage: nat, key: nat, eof: nat): seq<byte>
    requires IndexThere(img, storage, key, eof)
  {
    if storage == ST_SEEDLING then Stretch(img, key * BLOCK, eof) else Stretch(Joined(img, key * BLOCK, BlocksOf(eof)), 0, eof)
  }

  /** A pointer of an index that the volume does not hold is an error, one of a file's being enough. */
  lemma IndexShort(img: seq<byte>, storage: nat, key: nat, eof: nat, i: nat)
    requires storage != ST_SEEDLING && i < BlocksOf(eof) && key * BLOCK + 0x100 + i >= |img|
    ensures !IndexThere(img, storage, key, eof)
  {
  }

  lemma IndexRead(img: seq<byte>, storage: nat, key: nat, eof: nat)
    requires storage != ST_SEEDLING && (BlocksOf(eof) > 0 ==> key * BLOCK + 0x100 + BlocksOf(eof) <= |img|)
    ensures IndexThere(img, storage, key, eof)
    ensures var data := Joined(img, key * BLOCK, BlocksOf(eof)); FileBytes(img, storage, key, eof) == data[..Min(eof, |data|)]
  {
    hide Joined;
  }

  lemma SeedlingRead(img: seq<byte>, key: nat, eof: nat)
    ensures IndexThere(img, ST_SEEDLING, key, eof) && FileBytes(img, ST_SEEDLING, key, eof) == Stretch(img, key * BLOCK, eof)
  {
  }

  /** Read a file through its key block. It is an error if its index runs off the volume, and only
      then; data blocks that do are taken for empty. */
  method ReadFile(vol: Volume, storage: nat, key: nat, eof: nat) returns (r: Option<seq<byte>>)
    requires vol.Valid()
    ensures r.Some? <==> IndexThere(vol.img[..], storage, key, eof)
    ensures r.Some? ==> r.value == FileBytes(vol.img[..], storage, key, eof)
  {
    hide IndexThere, FileBytes, BlocksOf, Stretch;
    if storage == ST_SEEDLING {
      SeedlingRead(vol.img[..], key, eof);
      return Some(Stretch(vol.img[..], key * BLOCK, eof));
    }
    ghost var img := vol.img[..];
    var nblocks := BlocksOf(eof);
    var idx := key * BLOCK;
    var data: seq<byte> := [];
    for i := 0 to nblocks
      invariant i > 0 ==> idx + 0x100 + i <= |img|
      invariant data == Joined(img, idx, i)
    {
      if idx + 0x100 + i >= vol.img.Length {
        IndexShort(img, storage, key, eof, i);
        return None;
      }
      var low: nat, high: nat := vol.img[idx + i], vol.img[idx + 0x100 + i];
      data := data + Stretch(vol.img[..], (low + 256 * high) * BLOCK, BLOCK);
    }
    IndexRead(img, storage, key, eof);
    r := Some(data[..Min(eof, |data|)]);
  }

  // ---- Directories ----

  predicate InUse(e: seq<byte>)
    requires |e| == ENTRY_LEN
  {
    Storage(e) != 0 && NameLength(e) != 0
  }

  predicate IsFolder(e: seq<byte>)
    requires |e| == ENTRY_LEN
  {
    InUse(e) && Storage(e) == ST_SUBDIR
  }

  predicate IsFile(e: seq<byte>)
    requires |e| == ENTRY_LEN
  {
    InUse(e) && (Storage(e) == ST_SEEDLING || Storage(e) == ST_SAPLING)
  }

  /** How a directory is read: the blocks of its chain, and how each subdirectory in it is, that of
      slot s under the number s - 1. */
  datatype Reading = Reading(blocks: seq<nat>, subs: map<nat, Reading>)

  /** Where the chain leads after its first i blocks. */
  ghost function Visit(img: seq<byte>, key: nat, blocks: seq<nat>, i: nat): nat
    requires IsVolume(img) && i <= |blocks| && (i > 0 ==> blocks[i - 1] < TOTAL_BLOCKS)
  {
    if i == 0 then key else U16(Split(img)[blocks[i - 1]], 2)
  }

  /** The chain does not loop: from the key block it leads through these, and then to block 0, or off
      the volume. */
  ghost predicate ChainEnds(img: seq<byte>, key: nat, blocks: seq<nat>)
    requires IsVolume(img)
  {
    && (forall i :: 0 <= i < |blocks| ==> blocks[i] < TOTAL_BLOCKS)
    && (forall i :: 0 <= i < |blocks| ==> blocks[i] != 0 && Visit(img, key, blocks, i) == blocks[i])
    && !(0 < Visit(img, key, blocks, |blocks|) < TOTAL_BLOCKS)
  }

  ghost function Slot(img: seq<byte>, blocks: seq<nat>, s: nat): (e: seq<byte>)
    requires IsVolume(img) && s < ENTRIES_PER_BLOCK * |blocks| && forall i :: 0 <= i < |blocks| ==> blocks[i] < TOTAL_BLOCKS
    ensures |e| == ENTRY_LEN
  {
    SlotAt(Split(img), blocks, s)
  }

  /** Neither the chain nor the nesting of directories loops: reading the directory ends. */
  ghost predicate Ends(img: seq<byte>, key: nat, r: Reading)
    requires IsVolume(img)
    decreases r
  {
    && ChainEnds(img, key, r.blocks)
    && forall s :: 1 <= s < ENTRIES_PER_BLOCK * |r.blocks| && IsFolder(Slot(img, r.blocks, s)) ==>
         s - 1 in r.subs && Ends(img, Key(Slot(img, r.blocks, s)), r.subs[s - 1])
  }

  /** There is an error in the directory, or below it. */
  ghost predicate Bad(img: seq<byte>, key: nat, r: Reading)
    requires IsVolume(img) && Ends(img, key, r)
    decreases r, 1
  {
    Visit(img, key, r.blocks, |r.blocks|) != 0 || exists s :: 1 <= s < ENTRIES_PER_BLOCK * |r.blocks| && SlotBad(img, key, r, s)
  }

  /** The slot has a name that is not ASCII, or is of a file or directory with an error. */
  ghost predicate SlotBad(img: seq<byte>, key: nat, r: Reading, s: nat)
    requires IsVolume(img) && Ends(img, key, r) && 1 <= s < ENTRIES_PER_BLOCK * |r.blocks|
    decreases r, 0
  {
    var e := Slot(img, r.blocks, s);
    InUse(e) && (!IsAscii(NameIn(e)) || (IsFolder(e) && Bad(img, Key(e), r.subs[s - 1]))
                 || (IsFile(e) && !IndexThere(img, Storage(e), Key(e), Eof(e))))
  }

  ghost predicate GoodTo(img: seq<byte>, key: nat, r: Reading, n: nat)
    requires IsVolume(img) && Ends(img, key, r) && n <= ENTRIES_PER_BLOCK * |r.blocks|
    decreases r, 1
  {
    forall s :: 1 <= s < n ==> !SlotBad(img, key, r, s)
  }

  /** The files of the directory and all below it. */
  ghost function FilesIn(img: seq<byte>, prefix: Path, key: nat, r: Reading): map<Path, seq<byte>>
    requires IsVolume(img) && Ends(img, key, r) && !Bad(img, key, r)
    decreases r, 2, 0
  {
    FilesTo(img, prefix, key, r, ENTRIES_PER_BLOCK * |r.blocks|)
  }

  /** Those of its first n slots, the later ones going before the earlier. */
  ghost function FilesTo(img: seq<byte>, prefix: Path, key: nat, r: Reading, n: nat): map<Path, seq<byte>>
    requires IsVolume(img) && Ends(img, key, r) && n <= ENTRIES_PER_BLOCK * |r.blocks|
    requires GoodTo(img, key, r, n)
    decreases r, 1, n
  {
    if n <= 1 then map[] else FilesTo(img, prefix, key, r, n - 1) + SlotFiles(img, prefix, key, r, n - 1)
  }

  ghost function SlotFiles(img: seq<byte>, prefix: Path, key: nat, r: Reading, s: nat): map<Path, seq<byte>>
    requires IsVolume(img) && Ends(img, key, r) && 1 <= s < ENTRIES_PER_BLOCK * |r.blocks| && !SlotBad(img, key, r, s)
    decreases r, 0, 0
  {
    var e := Slot(img, r.blocks, s);
    if IsFolder(e) then FilesIn(img, prefix + [NameIn(e)], Key(e), r.subs[s - 1])
    else if IsFile(e) then map[prefix + [NameIn(e)] := FileBytes(img, Storage(e), Key(e), Eof(e))]
    else map[]
  }

  lemma SlotOnVolume(vol: Volume, blocks: seq<nat>, s: nat)
    requires vol.Valid() && IsVolume(vol.img[..]) && s < ENTRIES_PER_BLOCK * |blocks| && forall i :: 0 <= i < |blocks| ==> blocks[i] < TOTAL_BLOCKS
    ensures var at := ENTRY_BASE + s % ENTRIES_PER_BLOCK * ENTRY_LEN;
      at + ENTRY_LEN <= BLOCK && Slot(vol.img[..], blocks, s) == vol.Disk()[blocks[s / ENTRIES_PER_BLOCK]][at..at + ENTRY_LEN]
  {
    SlotInside(s);
  }

  /** One slot: nothing, a file, or a directory to descend into. */
  method ExtractSlot(vol: Volume, blk: nat, ei: nat, prefix: Path, out: map<Path, seq<byte>>, ghost key: nat, ghost r: Reading, ghost s: nat)
    returns (out': Option<map<Path, seq<byte>>>)
    requires vol.Valid() && IsVolume(vol.img[..]) && Ends(vol.img[..], key, r)
    requires 1 <= s < ENTRIES_PER_BLOCK * |r.blocks| && blk == r.blocks[s / ENTRIES_PER_BLOCK] && ei == s % ENTRIES_PER_BLOCK
    ensures out'.None? <==> SlotBad(vol.img[..], key, r, s)
    ensures out'.Some? ==> out'.value == out + SlotFiles(vol.img[..], prefix, key, r, s)
    decreases r, 0
  {
    hide IndexThere, FileBytes, Storage, NameLength, NameIn, Key, Eof, Bad, FilesIn, ChainEnds, Slot, IsAscii;
    assert ChainEnds(vol.img[..], key, r.blocks);
    InChain(vol.img[..], key, r.blocks);
    SlotOnVolume(vol, r.blocks, s);
    var e := vol.Read(blk, ENTRY_BASE + ei * ENTRY_LEN, ENTRY_LEN);
    if Storage(e) == 0 || NameLength(e) == 0 {
      return Some(out);
    }
    if !IsAscii(NameIn(e)) {
      return None;
    }
    var path := prefix + [NameIn(e)];
    if Storage(e) == ST_SUBDIR {
      out' := ExtractDir(vol, Key(e), path, out, r.subs[s - 1]);
    } else if Storage(e) == ST_SEEDLING || Storage(e) == ST_SAPLING {
      var data := ReadFile(vol, Storage(e), Key(e), Eof(e));
      if data.None? {
        return None;
      }
      out' := Some(out[path := data.value]);
    } else {
      out' := Some(out);
    }
  }

  lemma InChain(img: seq<byte>, key: nat, blocks: seq<nat>)
    requires IsVolume(img) && ChainEnds(img, key, blocks)
    ensures forall i :: 0 <= i < |blocks| ==> 0 < blocks[i] < TOTAL_BLOCKS
  {
  }

  lemma NothingRead(img: seq<byte>, prefix: Path, key: nat, r: Reading)
    requires IsVolume(img) && Ends(img, key, r)
    ensures forall n :: 0 <= n <= 1 && n <= ENTRIES_PER_BLOCK * |r.blocks| ==> GoodTo(img, key, r, n) && FilesTo(img, prefix, key, r, n) == map[]
  {
  }

  lemma ReadNext(img: seq<byte>, prefix: Path, key: nat, r: Reading, s: nat, out: map<Path, seq<byte>>)
    requires IsVolume(img) && Ends(img, key, r) && 1 <= s < ENTRIES_PER_BLOCK * |r.blocks| && GoodTo(img, key, r, s) && !SlotBad(img, key, r, s)
    ensures GoodTo(img, key, r, s + 1)
    ensures out + FilesTo(img, prefix, key, r, s + 1) == out + FilesTo(img, prefix, key, r, s) + SlotFiles(img, prefix, key, r, s)
  {
    hide SlotBad, SlotFiles, Ends;
    var before, here := FilesTo(img, prefix, key, r, s), SlotFiles(img, prefix, key, r, s);
    assert FilesTo(img, prefix, key, r, s + 1) == before + here;
    assert out + before + here == out + (before + here);
  }

  lemma SlotMakesBad(img: seq<byte>, key: nat, r: Reading, s: nat)
    requires IsVolume(img) && Ends(img, key, r) && 1 <= s < ENTRIES_PER_BLOCK * |r.blocks| && SlotBad(img, key, r, s)
    ensures Bad(img, key, r)
  {
    hide SlotBad, Ends;
  }

  /** Read the slots of block n of the chain, but for the header in the first. */
  method ExtractBlock(vol: Volume, blk: nat, first: bool, prefix: Path, out: map<Path, seq<byte>>, ghost out0: map<Path, seq<byte>>,
      ghost key: nat, ghost r: Reading, ghost n: nat) returns (out': Option<map<Path, seq<byte>>>)
    requires vol.Valid() && IsVolume(vol.img[..]) && Ends(vol.img[..], key, r)
    requires n < |r.blocks| && blk == r.blocks[n] && (first <==> n == 0) && GoodTo(vol.img[..], key, r, ENTRIES_PER_BLOCK * n)
    requires out == out0 + FilesTo(vol.img[..], prefix, key, r, ENTRIES_PER_BLOCK * n)
    ensures out'.None? ==> Bad(vol.img[..], key, r)
    ensures out'.Some? ==> GoodTo(vol.img[..], key, r, ENTRIES_PER_BLOCK * (n + 1))
    ensures out'.Some? ==> out'.value == out0 + FilesTo(vol.img[..], prefix, key, r, ENTRIES_PER_BLOCK * (n + 1))
    decreases r, 1
  {
    hide SlotBad, SlotFiles, Ends, Bad, GoodTo, FilesTo;
    ghost var img := vol.img[..];
    NothingRead(img, prefix, key, r);
    var res := out;
    for ei := (if first then 1 else 0) to ENTRIES_PER_BLOCK
      invariant GoodTo(img, key, r, ENTRIES_PER_BLOCK * n + ei)
      invariant res == out0 + FilesTo(img, prefix, key, r, ENTRIES_PER_BLOCK * n + ei)
    {
      ghost var s := ENTRIES_PER_BLOCK * n + ei;
      var next := ExtractSlot(vol, blk, ei, prefix, res, key, r, s);
      if next.None? {
        SlotMakesBad(img, key, r, s);
        return None;
      }
      ReadNext(img, prefix, key, r, s, out0);
      res := next.value;
    }
    out' := Some(res);
  }

  /** Read the directory with this key block, and all below it, on any volume on which that ends. It
      is an error if a chain leads off the volume, a name is not ASCII or an index runs off the volume,
      and only then. */
  method ExtractDir(vol: Volume, keyBlock: nat, prefix: Path, out: map<Path, seq<byte>>, ghost r: Reading)
    returns (out': Option<map<Path, seq<byte>>>)
    requires vol.Valid() && IsVolume(vol.img[..]) && Ends(vol.img[..], keyBlock, r)
    ensures out'.None? <==> Bad(vol.img[..], keyBlock, r)
    ensures out'.Some? ==> out'.value == out + FilesIn(vol.img[..], prefix, keyBlock, r)
    decreases r, 2
  {
    hide Ends, Bad, GoodTo, FilesTo, U16, Visit, ChainEnds;
    ghost var img := vol.img[..];
    ReadingChain(img, keyBlock, r);
    NothingRead(img, prefix, keyBlock, r);
    var blk, first, res := keyBlock, true, out;
    ghost var n := 0;
    while blk != 0
      invariant 0 <= n <= |r.blocks| && blk == Visit(img, keyBlock, r.blocks, n) && (first <==> n == 0)
      invariant GoodTo(img, keyBlock, r, ENTRIES_PER_BLOCK * n)
      invariant res == out + FilesTo(img, prefix, keyBlock, r, ENTRIES_PER_BLOCK * n)
      decreases |r.blocks| - n
    {
      ChainStands(img, keyBlock, r.blocks, n);
      if blk >= TOTAL_BLOCKS {
        LeavesVolume(img, keyBlock, r);
        return None;
      }
      var next := ExtractBlock(vol, blk, first, prefix, res, out, keyBlock, r, n);
      if next.None? {
        return None;
      }
      res := next.value;
      var link := vol.Read(blk, 2, 2);
      NextLink(vol, blk, link);
      NextVisit(img, keyBlock, r.blocks, n);
      blk := U16(link, 0);
      first := false;
      n := n + 1;
    }
    ChainStands(img, keyBlock, r.blocks, n);
    AllGood(img, keyBlock, r);
    out' := Some(res);
  }

  lemma ReadingChain(img: seq<byte>, key: nat, r: Reading)
    requires IsVolume(img) && Ends(img, key, r)
    ensures ChainEnds(img, key, r.blocks) && Visit(img, key, r.blocks, 0) == key && forall i :: 0 <= i < |r.blocks| ==> 0 < r.blocks[i] < TOTAL_BLOCKS
  {
  }

  /** Where the chain stands after n blocks: at the next of them, or at its end. */
  lemma ChainStands(img: seq<byte>, key: nat, blocks: seq<nat>, n: nat)
    requires IsVolume(img) && ChainEnds(img, key, blocks) && n <= |blocks| && (n > 0 ==> blocks[n - 1] < TOTAL_BLOCKS)
    ensures n < |blocks| ==> 0 < Visit(img, key, blocks, n) == blocks[n] < TOTAL_BLOCKS
    ensures n == |blocks| ==> !(0 < Visit(img, key, blocks, n) < TOTAL_BLOCKS)
  {
    hide Visit;
  }

  lemma NextVisit(img: seq<byte>, key: nat, blocks: seq<nat>, n: nat)
    requires IsVolume(img) && n < |blocks| && blocks[n] < TOTAL_BLOCKS
    ensures Visit(img, key, blocks, n + 1) == U16(Split(img)[blocks[n]], 2)
  {
    hide U16;
  }

  lemma LeavesVolume(img: seq<byte>, key: nat, r: Reading)
    requires IsVolume(img) && Ends(img, key, r)
    requires (|r.blocks| > 0 ==> r.blocks[|r.blocks| - 1] < TOTAL_BLOCKS) && Visit(img, key, r.blocks, |r.blocks|) != 0
    ensures Bad(img, key, r)
  {
    hide Ends, Visit;
  }

  lemma AllGood(img: seq<byte>, key: nat, r: Reading)
    requires IsVolume(img) && Ends(img, key, r) && GoodTo(img, key, r, ENTRIES_PER_BLOCK * |r.blocks|)
    requires (|r.blocks| > 0 ==> r.blocks[|r.blocks| - 1] < TOTAL_BLOCKS) && Visit(img, key, r.blocks, |r.blocks|) == 0
    ensures !Bad(img, key, r)
  {
    hide Ends, Visit, SlotBad;
  }

  lemma NoneBad(img: seq<byte>, key: nat, r: Reading)
    requires IsVolume(img) && Ends(img, key, r) && !Bad(img, key, r)
    ensures (|r.blocks| > 0 ==> r.blocks[|r.blocks| - 1] < TOTAL_BLOCKS) && Visit(img, key, r.blocks, |r.blocks|) == 0
    ensures forall n :: 0 <= n <= ENTRIES_PER_BLOCK * |r.blocks| ==> GoodTo(img, key, r, n)
    ensures forall s :: 1 <= s < ENTRIES_PER_BLOCK * |r.blocks| ==> !SlotBad(img, key, r, s)
  {
    hide SlotBad, Ends, Visit;
    ReadingChain(img, key, r);
  }

  lemma NextLink(vol: Volume, blk: nat, next: seq<byte>)
    requires vol.Valid() && blk < TOTAL_BLOCKS && next == vol.Disk()[blk][2..4]
    ensures U16(next, 0) == U16(vol.Disk()[blk], 2)
  {
  }

  // ---- A directory reads but one way ----

  lemma {:induction false} OneChain(img: seq<byte>, key: nat, p: seq<nat>, q: seq<nat>, i: nat)
    requires IsVolume(img) && ChainEnds(img, key, p) && ChainEnds(img, key, q) && i < |p|
    ensures i < |q| && p[i] == q[i]
  {
    hide U16;
    if i > 0 { OneChain(img, key, p, q, i - 1); }
    assert Visit(img, key, p, i) == Visit(img, key, q, i);
  }

  lemma SameChain(img: seq<byte>, key: nat, p: seq<nat>, q: seq<nat>)
    requires IsVolume(img) && ChainEnds(img, key, p) && ChainEnds(img, key, q)
    ensures p == q
  {
    hide ChainEnds;
    if p != [] { OneChain(img, key, p, q, |p| - 1); }
    if q != [] { OneChain(img, key, q, p, |q| - 1); }
    forall i | 0 <= i < |p| ensures p[i] == q[i] { OneChain(img, key, p, q, i); }
  }

  /** Both ways the slot reads the same. */
  ghost predicate SlotsAgree(img: seq<byte>, prefix: Path, key: nat, p: Reading, q: Reading, s: nat)
    requires IsVolume(img) && Ends(img, key, p) && Ends(img, key, q) && p.blocks == q.blocks && 1 <= s < ENTRIES_PER_BLOCK * |p.blocks|
  {
    && (SlotBad(img, key, p, s) <==> SlotBad(img, key, q, s))
    && (!SlotBad(img, key, p, s) ==> SlotFiles(img, prefix, key, p, s) == SlotFiles(img, prefix, key, q, s))
  }

  lemma {:induction false} FilesAgree(img: seq<byte>, prefix: Path, key: nat, p: Reading, q: Reading, n: nat)
    requires IsVolume(img) && Ends(img, key, p) && Ends(img, key, q) && p.blocks == q.blocks && n <= ENTRIES_PER_BLOCK * |p.blocks|
    requires GoodTo(img, key, p, n) && forall s :: 1 <= s < ENTRIES_PER_BLOCK * |p.blocks| ==> SlotsAgree(img, prefix, key, p, q, s)
    ensures GoodTo(img, key, q, n) && FilesTo(img, prefix, key, p, n) == FilesTo(img, prefix, key, q, n)
    decreases n
  {
    hide SlotBad, SlotFiles, Ends;
    forall s | 1 <= s < n ensures !SlotBad(img, key, q, s) {
      assert SlotsAgree(img, prefix, key, p, q, s);
    }
    if n > 1 {
      FilesAgree(img, prefix, key, p, q, n - 1);
      assert SlotsAgree(img, prefix, key, p, q, n - 1);
    }
  }

  lemma {:induction false} SlotReadsOneWay(img: seq<byte>, prefix: Path, key: nat, p: Reading, q: Reading, s: nat)
    requires IsVolume(img) && Ends(img, key, p) && Ends(img, key, q) && p.blocks == q.blocks && 1 <= s < ENTRIES_PER_BLOCK * |p.blocks|
    ensures SlotsAgree(img, prefix, key, p, q, s)
    decreases p, 0
  {
    hide IndexThere, FileBytes, Storage, NameLength, NameIn, Key, Eof, Bad, FilesIn, ChainEnds, Slot, IsAscii, InUse;
    assert ChainEnds(img, key, p.blocks);
    InChain(img, key, p.blocks);
    var e := Slot(img, p.blocks, s);
    if IsFolder(e) { ReadsOneWay(img, prefix + [NameIn(e)], Key(e), p.subs[s - 1], q.subs[s - 1]); }
  }

  lemma BadAgrees(img: seq<byte>, prefix: Path, key: nat, p: Reading, q: Reading)
    requires IsVolume(img) && Ends(img, key, p) && Ends(img, key, q) && p.blocks == q.blocks && Bad(img, key, p)
    requires forall s :: 1 <= s < ENTRIES_PER_BLOCK * |p.blocks| ==> SlotsAgree(img, prefix, key, p, q, s)
    ensures Bad(img, key, q)
  {
    hide Ends, SlotBad, SlotFiles, Visit;
    ReadingChain(img, key, p);
    if Visit(img, key, p.blocks, |p.blocks|) != 0 {
      LeavesVolume(img, key, q);
    } else {
      var s :| 1 <= s < ENTRIES_PER_BLOCK * |p.blocks| && SlotBad(img, key, p, s);
      assert SlotsAgree(img, prefix, key, p, q, s);
      SlotMakesBad(img, key, q, s);
    }
  }

  /** A directory on which reading ends is read in but one way. */
  lemma {:induction false} ReadsOneWay(img: seq<byte>, prefix: Path, key: nat, p: Reading, q: Reading)
    requires IsVolume(img) && Ends(img, key, p) && Ends(img, key, q)
    ensures p.blocks == q.blocks && (Bad(img, key, p) <==> Bad(img, key, q))
    ensures !Bad(img, key, p) ==> FilesIn(img, prefix, key, p) == FilesIn(img, prefix, key, q)
    decreases p, 1
  {
    hide Ends, SlotBad, SlotFiles, GoodTo, FilesTo, ChainEnds, Visit;
    ReadingChain(img, key, p);
    ReadingChain(img, key, q);
    SameChain(img, key, p.blocks, q.blocks);
    forall s | 1 <= s < ENTRIES_PER_BLOCK * |p.blocks| ensures SlotsAgree(img, prefix, key, p, q, s) {
      SlotReadsOneWay(img, prefix, key, p, q, s);
    }
    if Bad(img, key, p) {
      BadAgrees(img, prefix, key, p, q);
    } else {
      NoneBad(img, key, p);
      FilesAgree(img, prefix, key, p, q, ENTRIES_PER_BLOCK * |p.blocks|);
      AllGood(img, key, q);
    }
  }
}
