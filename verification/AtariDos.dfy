/** Atari DOS 2 disks: sectors that carry their own links, and a bitmap of the free ones. */
module AtariDos {
  import opened Arithmetic
  import opened Wrappers
  import opened Chunks
  import opened ByteStrings
  import opened FiniteSets
  import opened Bits
  import opened Sequences
  import opened Chains

  const SECTOR_SIZE := 128
  const DATA_BYTES := 125
  const FOOT_FILE_NEXT_HI := 125
  const FOOT_NEXT_LO := 126
  const FOOT_COUNT := 127
  const VTOC_SECTOR := 360
  const DIR_SECTOR := 361
  const DIR_SECTORS := 8
  const ENTRIES_PER_SECTOR := 8
  const MAX_FILES := 64
  const VTOC2_SECTOR := 1024
  const VTOC_BITMAP_OFF := 10
  const SD_BITMAP_BYTES := 90
  const ED_SECTORS := 1040
  const DIR_FLAG_INUSE_DOS2: byte := 0x42
  const DIR_FLAG_INUSE := 0x40

  datatype Density = Sd | Ed

  /** Files with sanitised names. */
  datatype File = File(name: seq<byte>, ext: seq<byte>, data: seq<byte>)

  type Sector = seq<byte>

  /** The image, sector 1 first. */
  type Image = seq<Sector>

  function TotalSectors(den: Density): nat {
    if den.Sd? then 720 else 1040
  }

  /** The sectors that the bitmap covers. */
  function Usable(den: Density): nat {
    if den.Sd? then 720 else 1024
  }

  function FreeTotal(den: Density): nat {
    if den.Sd? then 707 else 1010
  }

  predicate IsReserved(den: Density, s: nat) {
    s <= 3 || VTOC_SECTOR <= s < DIR_SECTOR + DIR_SECTORS || (den.Ed? && s == 720)
  }

  predicate Sized(den: Density, image: Image) {
    |image| == TotalSectors(den) && forall s :: 0 <= s < |image| ==> |image[s]| == SECTOR_SIZE
  }

  ghost predicate SameSector(image: Image, image': Image, s: nat) {
    |image'| == |image| && (1 <= s <= |image| ==> image'[s - 1] == image[s - 1])
  }

  ghost predicate Blank(image: Image, s: nat) {
    1 <= s <= |image| ==> image[s - 1] == Zeros(SECTOR_SIZE)
  }

  // ---- Chains of sectors ----

  function SectorsFor(n: nat): nat {
    if n == 0 then 1 else (n + DATA_BYTES - 1) / DATA_BYTES
  }

  lemma Sizes(n: nat)
    ensures SectorsFor(n) >= 1 && (SectorsFor(n) - 1) * DATA_BYTES <= n <= SectorsFor(n) * DATA_BYTES
  {
  }

  function NextOf(chain: seq<nat>, i: nat): nat
    requires i < |chain|
  {
    if i + 1 < |chain| then chain[i + 1] else 0
  }

  /** The sector with a piece of file fileNo, and a link. */
  function Filled(s: Sector, c: seq<byte>, fileNo: nat, next: nat): (r: Sector)
    requires |s| == SECTOR_SIZE && |c| <= DATA_BYTES && fileNo < MAX_FILES && next < 1024
    ensures |r| == SECTOR_SIZE
  {
    Patch(s, 0, c)[FOOT_FILE_NEXT_HI := fileNo * 4 + next / 256][FOOT_NEXT_LO := next % 256][FOOT_COUNT := |c|]
  }

  ghost predicate SectorHolds(image: Image, data: seq<byte>, fileNo: nat, chain: seq<nat>, i: nat)
    requires i < |chain|
  {
    && 1 <= chain[i] <= |image| && |image[chain[i] - 1]| == SECTOR_SIZE && NextOf(chain, i) < 1024
    && var s, c := image[chain[i] - 1], Chunk(DATA_BYTES, data, i);
       && s[..|c|] == c && s[FOOT_FILE_NEXT_HI] == fileNo * 4 + NextOf(chain, i) / 256
       && s[FOOT_NEXT_LO] == NextOf(chain, i) % 256 && s[FOOT_COUNT] == |c|
  }

  ghost predicate FileHolds(image: Image, data: seq<byte>, fileNo: nat, chain: seq<nat>) {
    && fileNo < MAX_FILES && Distinct(chain) && |chain| == SectorsFor(|data|)
    && forall i :: 0 <= i < |chain| ==> SectorHolds(image, data, fileNo, chain, i)
  }

  lemma FileKept(image: Image, image': Image, data: seq<byte>, fileNo: nat, chain: seq<nat>)
    requires FileHolds(image, data, fileNo, chain) && forall s :: s in Set(chain) ==> SameSector(image, image', s)
    ensures FileHolds(image', data, fileNo, chain)
  {
    hide Chunk;
    forall i | 0 <= i < |chain| ensures SectorHolds(image', data, fileNo, chain, i) {
      assert SectorHolds(image, data, fileNo, chain, i) && chain[i] in Set(chain) && SameSector(image, image', chain[i]);
    }
  }

  // ---- The bitmap ----

  type Bitmap = seq<byte>

  predicate IsFree(bitmap: Bitmap, s: nat)
    requires s / 8 < |bitmap|
  {
    BitAt(bitmap[s / 8], s % 8) == 1
  }

  ghost function Free(bitmap: Bitmap): set<nat> {
    set s: nat | s < 8 * |bitmap| && IsFree(bitmap, s)
  }

  lemma MarkUsed(bitmap: Bitmap, s: nat)
    requires s / 8 < |bitmap|
    ensures Free(bitmap[s / 8 := WithBit(bitmap[s / 8], s % 8, 0)]) == Free(bitmap) - {s}
  {
    var bitmap' := bitmap[s / 8 := WithBit(bitmap[s / 8], s % 8, 0)];
    hide BitAt;
    forall t: nat | t < 8 * |bitmap| ensures IsFree(bitmap', t) <==> t != s && IsFree(bitmap, t) {
      assert t / 8 == s / 8 && t % 8 == s % 8 ==> t == s;
    }
  }

  function OnesBelow(x: byte, k: nat): nat
    requires k <= 8
  {
    if k == 0 then 0 else OnesBelow(x, k - 1) + BitAt(x, k - 1)
  }

  function Ones(x: byte): nat {
    OnesBelow(x, 8)
  }

  function CountOnes(bitmap: Bitmap): nat {
    if bitmap == [] then 0 else CountOnes(bitmap[..|bitmap| - 1]) + Ones(bitmap[|bitmap| - 1])
  }

  ghost function FreeIn(bitmap: Bitmap, lo: nat, hi: nat): set<nat>
    requires hi <= 8 * |bitmap|
  {
    set s: nat | lo <= s < hi && IsFree(bitmap, s)
  }

  lemma {:induction false} CountRange(bitmap: Bitmap, lo: nat, hi: nat)
    requires lo <= hi <= 8 * |bitmap|
    ensures lo < hi ==> |FreeIn(bitmap, lo, hi)| == |FreeIn(bitmap, lo, hi - 1)| + if IsFree(bitmap, hi - 1) then 1 else 0
    ensures lo == hi ==> |FreeIn(bitmap, lo, hi)| == 0
  {
    if lo < hi {
      var before := FreeIn(bitmap, lo, hi - 1);
      assert FreeIn(bitmap, lo, hi) == before + if IsFree(bitmap, hi - 1) then {hi - 1} else {};
    } else {
      assert FreeIn(bitmap, lo, hi) == {};
    }
  }

  /** Counting the ones of the bitmap counts the free sectors. */
  lemma {:induction false} OnesAreFree(bitmap: Bitmap)
    ensures CountOnes(bitmap) == |Free(bitmap)|
  {
    hide BitAt;
    if bitmap == [] {
      assert Free(bitmap) == {};
    } else {
      var n := |bitmap| - 1;
      OnesAreFree(bitmap[..n]);
      assert Free(bitmap[..n]) == FreeIn(bitmap, 0, 8 * n) by {
        assert forall s: nat :: s < 8 * n ==> bitmap[..n][s / 8] == bitmap[s / 8];
      }
      LastByte(bitmap);
      assert Free(bitmap) == FreeIn(bitmap, 0, 8 * n + 8);
    }
  }

  lemma LastByte(bitmap: Bitmap)
    requires bitmap != []
    ensures var n := |bitmap| - 1; |FreeIn(bitmap, 0, 8 * n + 8)| == |FreeIn(bitmap, 0, 8 * n)| + Ones(bitmap[n])
  {
    var n := |bitmap| - 1;
    for k := 0 to 8
      invariant |FreeIn(bitmap, 0, 8 * n + k)| == |FreeIn(bitmap, 0, 8 * n)| + OnesBelow(bitmap[n], k)
    {
      CountRange(bitmap, 0, 8 * n + k + 1);
      assert (8 * n + k) / 8 == n && (8 * n + k) % 8 == k;
    }
  }

  // ---- The disk ----

  ghost function Used(chains: seq<seq<nat>>): set<nat> {
    if chains == [] then {} else Used(chains[..|chains| - 1]) + Set(chains[|chains| - 1])
  }

  function SectorsIn(files: seq<File>): nat {
    if files == [] then 0 else SectorsIn(files[..|files| - 1]) + SectorsFor(|files[|files| - 1].data|)
  }

  /** The disk holds the files, each in its own chain; the other sectors are free, or reserved and
      blank. Chains, free and reserved sectors make up all that are usable. */
  ghost predicate DiskHolds(den: Density, image: Image, bitmap: Bitmap, files: seq<File>, chains: seq<seq<nat>>) {
    && Sized(den, image) && 8 * |bitmap| == Usable(den) && |files| == |chains| <= MAX_FILES
    && (forall k :: 0 <= k < |files| ==> FileHolds(image, files[k].data, k, chains[k]))
    && Free(bitmap) !! Used(chains) && |Free(bitmap)| + SectorsIn(files) == FreeTotal(den) && |Used(chains)| == SectorsIn(files)
    && (forall k :: 0 <= k < |chains| ==> Set(chains[k]) <= Used(chains))
    && (forall s :: s in Free(bitmap) || s in Used(chains) ==> !IsReserved(den, s) && s < Usable(den))
    && forall s :: Structural(s) ==> Blank(image, s)
  }

  /** Sectors that the directory and the tables go to. */
  predicate Structural(s: nat) {
    VTOC_SECTOR <= s < DIR_SECTOR + DIR_SECTORS || s == VTOC2_SECTOR
  }

  /** The sectors of a chain are taken, usable and not reserved. */
  ghost predicate Taken(den: Density, bitmap: Bitmap, chain: seq<nat>) {
    forall s :: s in Set(chain) ==> s !in Free(bitmap) && !IsReserved(den, s) && s < Usable(den)
  }

  datatype Entry = Entry(name: seq<byte>, ext: seq<byte>, start: nat, count: nat)

  class Disk {
    const density: Density
    var image: Image
    var bitmap: Bitmap
    var entries: seq<Entry>

    constructor (density: Density)
      ensures this.density == density && entries == [] && DiskHolds(density, image, bitmap, [], [])
    {
      this.density := density;
      image := seq(TotalSectors(density), _ => Zeros(SECTOR_SIZE));
      bitmap := seq(Usable(density) / 8, _ => 255);
      entries := [];
      new;
      AllFree(bitmap);
      for s := 0 to Usable(density)
        invariant entries == [] && 8 * |bitmap| == Usable(density) && Sized(density, image)
        invariant forall k :: 0 <= k < |image| ==> image[k] == Zeros(SECTOR_SIZE)
        invariant forall t: nat :: t in Free(bitmap) <==> t < Usable(density) && !(t < s && IsReserved(density, t))
      {
        if IsReserved(density, s) {
          MarkUsed(bitmap, s);
          bitmap := bitmap[s / 8 := WithBit(bitmap[s / 8], s % 8, 0)];
        }
      }
      FreshHolds(density, image, bitmap);
    }

    /** Take the lowest free sector. */
    method Alloc() returns (r: Option<nat>)
      requires 8 * |bitmap| == Usable(density)
      modifies this`bitmap
      ensures |bitmap| == |old(bitmap)|
      ensures r.None? <==> Free(old(bitmap)) == {}
      ensures r.Some? ==> r.value in Free(old(bitmap)) && Free(bitmap) == Free(old(bitmap)) - {r.value}
    {
      for s := 0 to Usable(density)
        invariant bitmap == old(bitmap) && forall t :: 0 <= t < s ==> !IsFree(bitmap, t)
      {
        if IsFree(bitmap, s) {
          MarkUsed(bitmap, s);
          assert s in Free(bitmap);
          bitmap := bitmap[s / 8 := WithBit(bitmap[s / 8], s % 8, 0)];
          return Some(s);
        }
      }
      return None;
    }

    /** Take n free sectors. */
    method AllocChain(n: nat) returns (r: Option<seq<nat>>)
      requires 8 * |bitmap| == Usable(density)
      modifies this`bitmap
      ensures |bitmap| == |old(bitmap)| && (r.None? <==> |Free(old(bitmap))| < n)
      ensures r.Some? ==> |r.value| == n && Distinct(r.value) && Set(r.value) <= Free(old(bitmap))
      ensures r.Some? ==> Free(bitmap) == Free(old(bitmap)) - Set(r.value) && |Free(bitmap)| == |Free(old(bitmap))| - n
    {
      hide Free;
      var chain: seq<nat> := [];
      assert Set(chain) == {};
      for i := 0 to n
        invariant |bitmap| == |old(bitmap)| && |chain| == i && Distinct(chain) && Set(chain) <= Free(old(bitmap))
        invariant Free(bitmap) == Free(old(bitmap)) - Set(chain) && |Free(bitmap)| == |Free(old(bitmap))| - i
      {
        var s := Alloc();
        if s.None? {
          return None;
        }
        SetAppend(chain, s.value);
        NotYetIn(chain, s.value);
        chain := chain + [s.value];
      }
      r := Some(chain);
    }

    /** Write a file's sectors, each with its footer. */
    method WriteChain(data: seq<byte>, fileNo: nat, chain: seq<nat>)
      requires Sized(density, image) && Distinct(chain) && fileNo < MAX_FILES
      requires forall i :: 0 <= i < |chain| ==> 1 <= chain[i] < 1024 && chain[i] <= |image|
      modifies this`image
      ensures Sized(density, image) && forall i :: 0 <= i < |chain| ==> SectorHolds(image, data, fileNo, chain, i)
      ensures forall s: nat :: s !in Set(chain) ==> SameSector(old(image), image, s)
    {
      hide Chunk, Filled;
      for i := 0 to |chain|
        invariant Sized(density, image) && forall j :: 0 <= j < i ==> SectorHolds(image, data, fileNo, chain, j)
        invariant forall s: nat :: s !in Set(chain) ==> SameSector(old(image), image, s)
      {
        ghost var before := image;
        var next := NextOf(chain, i);
        image := image[chain[i] - 1 := Filled(image[chain[i] - 1], Chunk(DATA_BYTES, data, i), fileNo, next)];
        FilledReads(before[chain[i] - 1], Chunk(DATA_BYTES, data, i), fileNo, next);
        forall j | 0 <= j < i ensures SectorHolds(image, data, fileNo, chain, j) {
          assert SectorHolds(before, data, fileNo, chain, j);
        }
        assert chain[i] in Set(chain);
      }
    }
  }

  lemma FilledReads(s: Sector, c: seq<byte>, fileNo: nat, next: nat)
    requires |s| == SECTOR_SIZE && |c| <= DATA_BYTES && fileNo < MAX_FILES && next < 1024
    ensures var r := Filled(s, c, fileNo, next);
      && r[..|c|] == c && r[FOOT_FILE_NEXT_HI] == fileNo * 4 + next / 256 && r[FOOT_NEXT_LO] == next % 256 && r[FOOT_COUNT] == |c|
  {
  }

  lemma NotYetIn(s: seq<nat>, x: nat)
    requires x !in Set(s) && Distinct(s)
    ensures Distinct(s + [x])
  {
  }

  lemma AllFree(bitmap: Bitmap)
    requires forall i :: 0 <= i < |bitmap| ==> bitmap[i] == 255
    ensures forall s: nat :: s in Free(bitmap) <==> s < 8 * |bitmap|
  {
    assert forall k :: 0 <= k < 8 ==> BitAt(255, k) == 1;
    forall s: nat | s < 8 * |bitmap| ensures IsFree(bitmap, s) {
      assert bitmap[s / 8] == 255;
    }
  }

  lemma FreshHolds(den: Density, image: Image, bitmap: Bitmap)
    requires Sized(den, image) && 8 * |bitmap| == Usable(den)
    requires forall k :: 0 <= k < |image| ==> image[k] == Zeros(SECTOR_SIZE)
    requires forall s: nat :: s in Free(bitmap) <==> s < Usable(den) && !IsReserved(den, s)
    ensures DiskHolds(den, image, bitmap, [], [])
  {
    hide Free;
    FreshCount(den, Free(bitmap));
    assert Used([]) == {};
  }

  lemma FreshCount(den: Density, free: set<nat>)
    requires forall s: nat :: s in free <==> s < Usable(den) && !IsReserved(den, s)
    ensures |free| == FreeTotal(den)
  {
    var low, rest := SizeSplit(free, VTOC_SECTOR);
    var mid, high := SizeSplit(rest, 720);
    RangeSize(low, 4, VTOC_SECTOR);
    RangeSize(mid, DIR_SECTOR + DIR_SECTORS, 720);
    RangeSize(high, if den.Ed? then 721 else 720, Usable(den));
  }

  lemma SizeSplit(s: set<nat>, cut: nat) returns (low: set<nat>, high: set<nat>)
    ensures forall x :: x in low <==> x in s && x < cut
    ensures forall x :: x in high <==> x in s && x >= cut
    ensures |s| == |low| + |high|
  {
    low, high := (set x | x in s && x < cut), (set x | x in s && x >= cut);
    assert s == low + high;
  }

  // ---- Adding files ----

  /** One more file on the disk. */
  lemma FileAdded(den: Density, image: Image, image': Image, bitmap: Bitmap, bitmap': Bitmap, files: seq<File>, chains: seq<seq<nat>>, f: File, chain: seq<nat>)
    requires DiskHolds(den, image, bitmap, files, chains) && |files| < MAX_FILES && Sized(den, image') && |bitmap'| == |bitmap|
    requires Set(chain) <= Free(bitmap) && Free(bitmap') == Free(bitmap) - Set(chain) && |Free(bitmap')| == |Free(bitmap)| - SectorsFor(|f.data|)
    requires FileHolds(image', f.data, |files|, chain)
    requires forall s: nat :: s !in Set(chain) ==> SameSector(image, image', s)
    ensures DiskHolds(den, image', bitmap', files + [f], chains + [chain])
  {
    hide FileHolds, Free, Set, Used, SectorsIn;
    var files', chains' := files + [f], chains + [chain];
    UsedNext(chains, chain);
    LastNeeds(files, f);
    ChainSize(image', f.data, |files|, chain);
    forall s | Structural(s) ensures Blank(image', s) {
      assert Blank(image, s) && SameSector(image, image', s);
    }
    forall k | 0 <= k < |files'| ensures FileHolds(image', files'[k].data, k, chains'[k]) {
      if k < |files| {
        assert Set(chains[k]) <= Used(chains);
        FileKept(image, image', files[k].data, k, chains[k]);
      }
    }
  }

  lemma UsedNext(chains: seq<seq<nat>>, chain: seq<nat>)
    ensures Used(chains + [chain]) == Used(chains) + Set(chain)
    ensures Used(chains) !! Set(chain) ==> |Used(chains + [chain])| == |Used(chains)| + |Set(chain)|
  {
    hide Set;
    assert (chains + [chain])[..|chains|] == chains;
  }

  lemma ChainSize(image: Image, data: seq<byte>, fileNo: nat, chain: seq<nat>)
    requires FileHolds(image, data, fileNo, chain)
    ensures |Set(chain)| == SectorsFor(|data|)
  {
    DistinctSize(chain);
  }

  /** Add a file: it is refused exactly if the directory is full, or too few sectors are free. */
  method AddFile(d: Disk, f: File, ghost files: seq<File>, ghost chains: seq<seq<nat>>) returns (ok: bool, ghost chain: seq<nat>)
    requires DiskHolds(d.density, d.image, d.bitmap, files, chains) && |d.entries| == |files|
    modifies d`image, d`bitmap, d`entries
    ensures ok <==> |files| < MAX_FILES && SectorsIn(files) + SectorsFor(|f.data|) <= FreeTotal(d.density)
    ensures ok ==> DiskHolds(d.density, d.image, d.bitmap, files + [f], chains + [chain])
    ensures ok ==> chain != [] && d.entries == old(d.entries) + [Entry(f.name, f.ext, chain[0], SectorsFor(|f.data|))]
  {
    hide FileHolds, Free, Used, SectorsIn, Set, SectorHolds;
    chain := [];
    var fileNo := |d.entries|;
    if fileNo >= MAX_FILES {
      return false, chain;
    }
    var nsec := SectorsFor(|f.data|);
    Sizes(|f.data|);
    ghost var image, bitmap := d.image, d.bitmap;
    var r := d.AllocChain(nsec);
    if r.None? {
      return false, chain;
    }
    chain := r.value;
    FreeAreInside(d.density, image, bitmap, files, chains, chain);
    d.WriteChain(f.data, fileNo, r.value);
    HoldsNow(d.image, f.data, fileNo, chain);
    FileAdded(d.density, image, d.image, bitmap, d.bitmap, files, chains, f, chain);
    d.entries := d.entries + [Entry(f.name, f.ext, r.value[0], nsec)];
    ok := true;
  }

  lemma FreeAreInside(den: Density, image: Image, bitmap: Bitmap, files: seq<File>, chains: seq<seq<nat>>, chain: seq<nat>)
    requires DiskHolds(den, image, bitmap, files, chains) && Set(chain) <= Free(bitmap)
    ensures forall i :: 0 <= i < |chain| ==> 1 <= chain[i] < 1024 && chain[i] <= |image|
  {
    hide FileHolds, Free;
    assert forall i :: 0 <= i < |chain| ==> chain[i] in Set(chain);
  }

  lemma HoldsNow(image: Image, data: seq<byte>, fileNo: nat, chain: seq<nat>)
    requires fileNo < MAX_FILES && Distinct(chain) && |chain| == SectorsFor(|data|)
    requires forall i :: 0 <= i < |chain| ==> SectorHolds(image, data, fileNo, chain, i)
    ensures FileHolds(image, data, fileNo, chain)
  {
  }

  // ---- Directory and tables ----

  predicate NameFits(f: File) {
    |f.name| <= 8 && |f.ext| <= 3 && IsPlain(f.name) && IsPlain(f.ext)
  }

  predicate EntryFits(e: Entry) {
    |e.name| <= 8 && |e.ext| <= 3 && e.start < 65536 && e.count < 65536
  }

  function EntryBytes(e: Entry): (s: seq<byte>)
    requires EntryFits(e)
    ensures |s| == 16
  {
    [DIR_FLAG_INUSE_DOS2, e.count % 256, e.count / 256, e.start % 256, e.start / 256] + PadTo(e.name, 8) + PadTo(e.ext, 3)
  }

  function SlotOf(image: Image, k: nat): (s: seq<byte>)
    requires k < MAX_FILES && |image| >= 368 && forall s :: 0 <= s < |image| ==> |image[s]| == SECTOR_SIZE
    ensures |s| == 16
  {
    image[DIR_SECTOR + k / ENTRIES_PER_SECTOR - 1][k % ENTRIES_PER_SECTOR * 16..k % ENTRIES_PER_SECTOR * 16 + 16]
  }

  /** What a directory slot should hold. */
  function SlotFor(entries: seq<Entry>, n: nat, k: nat): seq<byte>
    requires n <= |entries| && forall i :: 0 <= i < |entries| ==> EntryFits(entries[i])
  {
    if k < n then EntryBytes(entries[k]) else Zeros(16)
  }

  ghost predicate Listed(den: Density, image: Image, entries: seq<Entry>, n: nat) {
    && Sized(den, image) && n <= |entries| && (forall i :: 0 <= i < |entries| ==> EntryFits(entries[i]))
    && forall k :: 0 <= k < MAX_FILES ==> SlotOf(image, k) == SlotFor(entries, n, k)
  }

  lemma BlankSlots(den: Density, image: Image, entries: seq<Entry>)
    requires Sized(den, image) && forall i :: 0 <= i < |entries| ==> EntryFits(entries[i])
    requires forall s :: Structural(s) ==> Blank(image, s)
    ensures Listed(den, image, entries, 0)
  {
    forall k | 0 <= k < MAX_FILES ensures SlotOf(image, k) == SlotFor(entries, 0, k) {
      var s := DIR_SECTOR + k / ENTRIES_PER_SECTOR;
      assert Structural(s) && Blank(image, s);
    }
  }

  lemma SlotWritten(den: Density, image: Image, image': Image, entries: seq<Entry>, k: nat)
    requires k < |entries| <= MAX_FILES && Listed(den, image, entries, k)
    requires var s := DIR_SECTOR + k / ENTRIES_PER_SECTOR - 1;
      image' == image[s := Patch(image[s], k % ENTRIES_PER_SECTOR * 16, EntryBytes(entries[k]))]
    ensures Listed(den, image', entries, k + 1)
  {
    hide EntryBytes;
    forall j | 0 <= j < MAX_FILES ensures SlotOf(image', j) == SlotFor(entries, k + 1, j) {
      if j == k {
        assert SlotOf(image', j) == EntryBytes(entries[k]);
      } else {
        SlotsApart(j, k);
        assert SlotOf(image', j) == SlotOf(image, j) == SlotFor(entries, k, j);
      }
    }
  }

  lemma SlotsApart(j: nat, k: nat)
    requires j != k
    ensures j / ENTRIES_PER_SECTOR != k / ENTRIES_PER_SECTOR || j % ENTRIES_PER_SECTOR * 16 + 16 <= k % ENTRIES_PER_SECTOR * 16
      || k % ENTRIES_PER_SECTOR * 16 + 16 <= j % ENTRIES_PER_SECTOR * 16
  {
  }

  method WriteDirectory(d: Disk)
    requires Sized(d.density, d.image) && |d.entries| <= MAX_FILES && forall i :: 0 <= i < |d.entries| ==> EntryFits(d.entries[i])
    requires forall s :: Structural(s) ==> Blank(d.image, s)
    modifies d`image
    ensures Listed(d.density, d.image, d.entries, |d.entries|)
    ensures forall s: nat :: !(DIR_SECTOR <= s < DIR_SECTOR + DIR_SECTORS) ==> SameSector(old(d.image), d.image, s)
  {
    hide EntryBytes, Listed;
    BlankSlots(d.density, d.image, d.entries);
    for k := 0 to |d.entries|
      invariant Sized(d.density, d.image) && Listed(d.density, d.image, d.entries, k)
      invariant forall s: nat :: !(DIR_SECTOR <= s < DIR_SECTOR + DIR_SECTORS) ==> SameSector(old(d.image), d.image, s)
    {
      ghost var before := d.image;
      var s := DIR_SECTOR + k / ENTRIES_PER_SECTOR - 1;
      d.image := d.image[s := Patch(d.image[s], k % ENTRIES_PER_SECTOR * 16, EntryBytes(d.entries[k]))];
      SlotWritten(d.density, before, d.image, d.entries, k);
      forall t: nat | !(DIR_SECTOR <= t < DIR_SECTOR + DIR_SECTORS) ensures SameSector(old(d.image), d.image, t) {
        assert SameSector(old(d.image), before, t) && SameSector(before, d.image, t);
      }
    }
  }

  /** The table of contents: totals, free sectors, bitmap; on an enhanced disk, a second one. */
  ghost predicate VtocHolds(den: Density, image: Image, bitmap: Bitmap) {
    && Sized(den, image) && 8 * |bitmap| == Usable(den)
    && var v := image[VTOC_SECTOR - 1];
       && v[0] == 2 && U16(v, 1) == FreeTotal(den) && U16(v, 3) == |Free(bitmap)|
       && v[VTOC_BITMAP_OFF..VTOC_BITMAP_OFF + SD_BITMAP_BYTES] == bitmap[..SD_BITMAP_BYTES]
       && (den.Ed? ==>
            var v2 := image[VTOC2_SECTOR - 1];
            v2[0..122] == bitmap[6..128] && U16(v2, 122) == |Free(bitmap[SD_BITMAP_BYTES..])|)
  }

  lemma FewFree(bitmap: Bitmap)
    ensures |Free(bitmap)| <= 8 * |bitmap|
  {
    var all := set s: nat | s < 8 * |bitmap| && (IsFree(bitmap, s) || !IsFree(bitmap, s));
    RangeSize(all, 0, 8 * |bitmap|);
    assert Free(bitmap) <= all;
    SubsetSize(Free(bitmap), all);
  }

  method WriteVtoc(d: Disk)
    requires Sized(d.density, d.image) && 8 * |d.bitmap| == Usable(d.density)
    modifies d`image
    ensures VtocHolds(d.density, d.image, d.bitmap)
    ensures forall s: nat :: s != VTOC_SECTOR && s != VTOC2_SECTOR ==> SameSector(old(d.image), d.image, s)
  {
    hide Free;
    var free, total := CountOnes(d.bitmap), FreeTotal(d.density);
    OnesAreFree(d.bitmap);
    FewFree(d.bitmap);
    var v := d.image[VTOC_SECTOR - 1];
    v := Patch(v, 0, [2, total % 256, total / 256, free % 256, free / 256]);
    v := Patch(v, VTOC_BITMAP_OFF, d.bitmap[..SD_BITMAP_BYTES]);
    assert v[VTOC_BITMAP_OFF..VTOC_BITMAP_OFF + SD_BITMAP_BYTES] == d.bitmap[..SD_BITMAP_BYTES];
    d.image := d.image[VTOC_SECTOR - 1 := v];
    if d.density.Ed? {
      var above := CountOnes(d.bitmap[SD_BITMAP_BYTES..]);
      OnesAreFree(d.bitmap[SD_BITMAP_BYTES..]);
      FewFree(d.bitmap[SD_BITMAP_BYTES..]);
      var v2 := Patch(d.image[VTOC2_SECTOR - 1], 0, d.bitmap[6..128] + [above % 256, above / 256]);
      assert v2[0..122] == d.bitmap[6..128];
      d.image := d.image[VTOC2_SECTOR - 1 := v2];
    }
  }

  // ---- Reading back ----

  ghost predicate Describes(entries: seq<Entry>, files: seq<File>, chains: seq<seq<nat>>) {
    && |entries| == |files| == |chains| <= MAX_FILES
    && forall k :: 0 <= k < |files| ==> NameFits(files[k]) && DescribesOne(entries[k], files[k], chains[k])
  }

  ghost predicate DescribesOne(e: Entry, f: File, chain: seq<nat>) {
    chain != [] && chain[0] < 1024 && SectorsFor(|f.data|) < 1024 && e == Entry(f.name, f.ext, chain[0], SectorsFor(|f.data|))
  }

  /** Write directory and tables; the files stay as they are. */
  method ToRaw(d: Disk, ghost files: seq<File>, ghost chains: seq<seq<nat>>)
    requires DiskHolds(d.density, d.image, d.bitmap, files, chains) && Describes(d.entries, files, chains)
    modifies d`image
    ensures Listed(d.density, d.image, d.entries, |d.entries|) && VtocHolds(d.density, d.image, d.bitmap)
    ensures forall k :: 0 <= k < |files| ==> FileHolds(d.image, files[k].data, k, chains[k])
  {
    hide FileHolds, VtocHolds, Free, Used, Listed;
    ghost var image := d.image;
    WriteDirectory(d);
    ghost var image1 := d.image;
    ListedSized(d.density, d.image, d.entries, |d.entries|);
    WriteVtoc(d);
    VtocSized(d.density, d.image, d.bitmap);
    StillListed(d.density, image1, d.image, d.entries, |d.entries|);
    forall k | 0 <= k < |files| ensures FileHolds(d.image, files[k].data, k, chains[k]) {
      forall s | s in Set(chains[k]) ensures SameSector(image, d.image, s) {
        assert s in Used(chains);
        assert SameSector(image, image1, s) && SameSector(image1, d.image, s);
      }
      FileKept(image, d.image, files[k].data, k, chains[k]);
    }
  }

  lemma ListedSized(den: Density, image: Image, entries: seq<Entry>, n: nat)
    requires Listed(den, image, entries, n)
    ensures Sized(den, image)
  {
  }

  lemma VtocSized(den: Density, image: Image, bitmap: Bitmap)
    requires VtocHolds(den, image, bitmap)
    ensures Sized(den, image)
  {
  }

  lemma StillListed(den: Density, image: Image, image': Image, entries: seq<Entry>, n: nat)
    requires Listed(den, image, entries, n) && Sized(den, image')
    requires forall s: nat :: s != VTOC_SECTOR && s != VTOC2_SECTOR ==> SameSector(image, image', s)
    ensures Listed(den, image', entries, n)
  {
    hide EntryBytes;
    forall k | 0 <= k < MAX_FILES ensures SlotOf(image', k) == SlotFor(entries, n, k) {
      var s := DIR_SECTOR + k / ENTRIES_PER_SECTOR;
      assert SameSector(image, image', s) && SlotOf(image, k) == SlotFor(entries, n, k);
    }
  }

  lemma EntryReads(e: Entry)
    requires EntryFits(e) && IsPlain(e.name) && IsPlain(e.ext)
    ensures var s := EntryBytes(e);
      && s[0] == DIR_FLAG_INUSE_DOS2 && RStrip(s[5..13]) == e.name && RStrip(s[13..16]) == e.ext && U16(s, 3) == e.start
      && IsAscii(s[5..16])
  {
    var s := EntryBytes(e);
    assert s[5..13] == PadTo(e.name, 8) && s[13..16] == PadTo(e.ext, 3) && s[5..16] == s[5..13] + s[13..16];
    PadStrips(e.name, 8);
    PadStrips(e.ext, 3);
  }

  /** Where a sector of file k leads: 0 ends the file, and a sector of another file is an error. */
  function StepAt(image: Image, k: nat, s: nat): Step {
    if !(1 <= s <= |image|) || |image[s - 1]| != SECTOR_SIZE then Fails
    else if image[s - 1][FOOT_FILE_NEXT_HI] / 4 != k then Fails
    else if NextIn(image[s - 1]) == 0 then Ends
    else Goes(NextIn(image[s - 1]))
  }

  function NextIn(s: Sector): nat
    requires |s| == SECTOR_SIZE
  {
    var hi: nat, lo: nat := s[FOOT_FILE_NEXT_HI], s[FOOT_NEXT_LO];
    hi % 4 * 256 + lo
  }

  function SectorLinks(image: Image, k: nat): Links {
    (s: nat) => StepAt(image, k, s)
  }

  /** The bytes of the image from the start of sector s on; a count beyond a sector runs into the
      next one. */
  function Run(image: Image, s: nat, count: nat): (r: seq<byte>)
    requires 1 <= s <= |image| && count < 2 * SECTOR_SIZE && forall i :: 0 <= i < |image| ==> |image[i]| == SECTOR_SIZE
  {
    var rest := if s < |image| then image[s] else [];
    (image[s - 1] + rest)[..Min(count, |image[s - 1] + rest|)]
  }

  ghost function Joined(image: Image, p: seq<nat>): (d: seq<byte>)
    requires (forall i :: 0 <= i < |image| ==> |image[i]| == SECTOR_SIZE) && forall i :: 0 <= i < |p| ==> 1 <= p[i] <= |image|
  {
    if p == [] then [] else
      var s := p[|p| - 1];
      Joined(image, p[..|p| - 1]) + Run(image, s, image[s - 1][FOOT_COUNT])
  }

  lemma WholeInside(image: Image, k: nat, start: nat, p: seq<nat>)
    requires Whole(SectorLinks(image, k), start, p)
    ensures forall i :: 0 <= i < |p| ==> 1 <= p[i] <= |image|
  {
    WholeNeverFails(SectorLinks(image, k), start, p);
  }

  /** What file k holds, its first sector being start. */
  ghost predicate ReadsAs(den: Density, image: Image, k: nat, start: nat, data: seq<byte>)
    requires Sized(den, image)
  {
    if start == 0 then data == [] else
      exists p :: Whole(SectorLinks(image, k), start, p) && ReadsAlong(den, image, k, start, p, data)
  }

  ghost predicate ReadsAlong(den: Density, image: Image, k: nat, start: nat, p: seq<nat>, data: seq<byte>)
    requires Sized(den, image) && Whole(SectorLinks(image, k), start, p)
  {
    WholeInside(image, k, start, p);
    data == Joined(image, p)
  }

  ghost predicate HasEnd(image: Image, k: nat, start: nat) {
    start == 0 || exists p :: Whole(SectorLinks(image, k), start, p)
  }

  lemma ReadsOneWay(den: Density, image: Image, k: nat, start: nat, data: seq<byte>, data': seq<byte>)
    requires Sized(den, image) && ReadsAs(den, image, k, start, data) && ReadsAs(den, image, k, start, data')
    ensures data == data'
  {
    hide Whole, Joined, Sized;
    if start != 0 {
      var p :| Whole(SectorLinks(image, k), start, p) && ReadsAlong(den, image, k, start, p, data);
      var q :| Whole(SectorLinks(image, k), start, q) && ReadsAlong(den, image, k, start, q, data');
      WholeIsUnique(SectorLinks(image, k), start, p, q);
    }
  }

  /** Follow a file's sectors. It is an error if they leave the disk, belong to another file or
      never end, and only then. */
  method ReadChain(ghost den: Density, image: Image, k: nat, start: nat) returns (r: Option<seq<byte>>)
    requires Sized(den, image)
    ensures r.None? <==> !HasEnd(image, k, start)
    ensures r.Some? ==> ReadsAs(den, image, k, start, r.value)
  {
    hide Path, Whole, Joined, Run;
    ghost var links, path := SectorLinks(image, k), [];
    var sector: nat, guard, out: seq<byte> := start, 0, [];
    if start == 0 {
      return Some([]);
    }
    PathStart(links, start);
    NothingJoined(image);
    while sector != 0
      invariant guard == |path| <= ED_SECTORS && forall i :: 0 <= i < |path| ==> 1 <= path[i] <= |image|
      invariant out == Joined(image, path)
      invariant if sector != 0 then Path(links, start, path + [sector]) else Whole(links, start, path)
      decreases ED_SECTORS - guard, sector
    {
      ghost var before := path;
      path := path + [sector];
      if sector > |image| {
        NeverWhole(den, image, k, start, path);
        return None;
      }
      var s := image[sector - 1];
      if s[FOOT_FILE_NEXT_HI] / 4 != k {
        NeverWhole(den, image, k, start, path);
        return None;
      }
      out := out + Run(image, sector, s[FOOT_COUNT]);
      JoinedNext(image, before, sector);
      var next := NextIn(s);
      guard := guard + 1;
      if guard > ED_SECTORS {
        NeverWhole(den, image, k, start, path);
        return None;
      }
      if next != 0 { PathNext(links, start, path, next); } else { WholeNow(links, start, path); }
      sector := next;
    }
    r := Some(out);
    assert ReadsAlong(den, image, k, start, path, out);
  }

  lemma NeverWhole(den: Density, image: Image, k: nat, start: nat, p: seq<nat>)
    requires Sized(den, image) && p != [] && Path(SectorLinks(image, k), start, p) && start != 0
    requires StepAt(image, k, p[|p| - 1]) == Fails || |p| > ED_SECTORS
    ensures !HasEnd(image, k, start)
  {
    hide Path, Whole;
    NotWhole(SectorLinks(image, k), start, p, 1, ED_SECTORS + 1);
  }

  lemma NothingJoined(image: Image)
    requires forall i :: 0 <= i < |image| ==> |image[i]| == SECTOR_SIZE
    ensures Joined(image, []) == []
  {
  }

  lemma JoinedNext(image: Image, p: seq<nat>, s: nat)
    requires (forall i :: 0 <= i < |image| ==> |image[i]| == SECTOR_SIZE) && 1 <= s <= |image| && forall i :: 0 <= i < |p| ==> 1 <= p[i] <= |image|
    ensures Joined(image, p + [s]) == Joined(image, p) + Run(image, s, image[s - 1][FOOT_COUNT])
  {
    hide Run;
    assert (p + [s])[..|p|] == p;
  }

  lemma FooterReads(k: nat, next: nat)
    requires next < 1024
    ensures (k * 4 + next / 256) / 4 == k && (k * 4 + next / 256) % 4 * 256 + next % 256 == next
  {
  }

  lemma ChainSectors(image: Image, data: seq<byte>, k: nat, chain: seq<nat>, i: nat)
    requires FileHolds(image, data, k, chain) && i < |chain|
    ensures SectorHolds(image, data, k, chain, i) && (i + 1 < |chain| ==> chain[i + 1] != 0)
  {
    if i + 1 < |chain| { assert SectorHolds(image, data, k, chain, i + 1); }
  }

  lemma AppendPiece(data: seq<byte>, i: nat)
    ensures data[..Lo(DATA_BYTES, data, i + 1)] == data[..Lo(DATA_BYTES, data, i)] + Chunk(DATA_BYTES, data, i)
  {
    LoSteps(DATA_BYTES, data, i);
  }

  lemma AllPieces(image: Image, data: seq<byte>, k: nat, chain: seq<nat>)
    requires FileHolds(image, data, k, chain)
    ensures data[..Lo(DATA_BYTES, data, |chain|)] == data
  {
    Sizes(|data|);
    LoSteps(DATA_BYTES, data, |chain|);
  }

  lemma HeldStep(image: Image, data: seq<byte>, k: nat, chain: seq<nat>, i: nat)
    requires FileHolds(image, data, k, chain) && i < |chain|
    ensures StepAt(image, k, chain[i]) == if i + 1 < |chain| then Goes(chain[i + 1]) else Ends
  {
    hide Chunk, FileHolds;
    ChainSectors(image, data, k, chain, i);
    FooterReads(k, NextOf(chain, i));
  }

  lemma HeldIsWhole(image: Image, data: seq<byte>, k: nat, chain: seq<nat>)
    requires FileHolds(image, data, k, chain) && chain != []
    ensures Whole(SectorLinks(image, k), chain[0], chain)
  {
    hide FileHolds, StepAt;
    var links := SectorLinks(image, k);
    forall i | 0 <= i < |chain| - 1 ensures links(chain[i]) == Goes(chain[i + 1]) { HeldStep(image, data, k, chain, i); }
    HeldStep(image, data, k, chain, |chain| - 1);
  }

  lemma HeldRun(den: Density, image: Image, data: seq<byte>, k: nat, chain: seq<nat>, i: nat)
    requires Sized(den, image) && FileHolds(image, data, k, chain) && i < |chain|
    ensures 1 <= chain[i] <= |image| && Run(image, chain[i], image[chain[i] - 1][FOOT_COUNT]) == Chunk(DATA_BYTES, data, i)
  {
    hide Chunk;
    assert SectorHolds(image, data, k, chain, i);
    var s, c := image[chain[i] - 1], Chunk(DATA_BYTES, data, i);
    var rest := if chain[i] < |image| then image[chain[i]] else [];
    SliceOfFront(s, rest, 0, |c|);
  }

  lemma {:induction false} HeldJoined(den: Density, image: Image, data: seq<byte>, k: nat, chain: seq<nat>, n: nat)
    requires Sized(den, image) && FileHolds(image, data, k, chain) && n <= |chain|
    ensures forall i :: 0 <= i < n ==> 1 <= chain[i] <= |image|
    ensures Joined(image, chain[..n]) == data[..Lo(DATA_BYTES, data, n)]
  {
    hide Chunk, FileHolds, Run, Lo, Sized;
    LoSteps(DATA_BYTES, data, 0);
    if n > 0 {
      HeldJoined(den, image, data, k, chain, n - 1);
      HeldRun(den, image, data, k, chain, n - 1);
      AppendPiece(data, n - 1);
      assert chain[..n][..n - 1] == chain[..n - 1];
    } else {
      assert data[..0] == [];
    }
  }

  /** A file as written reads as its data. */
  lemma HeldIsRead(den: Density, image: Image, data: seq<byte>, k: nat, chain: seq<nat>)
    requires Sized(den, image) && FileHolds(image, data, k, chain) && chain != []
    ensures chain[0] != 0 && HasEnd(image, k, chain[0]) && ReadsAs(den, image, k, chain[0], data)
  {
    hide FileHolds, Whole, Joined, Lo, SectorHolds, Sized;
    HeldIsWhole(image, data, k, chain);
    HeldRun(den, image, data, k, chain, 0);
    HeldJoined(den, image, data, k, chain, |chain|);
    AllPieces(image, data, k, chain);
    assert chain[..|chain|] == chain;
    assert ReadsAlong(den, image, k, chain[0], chain, data);
  }

  /** Slot k is in use: written to, and neither deleted nor still open. */
  predicate InUse(image: Image, k: nat)
    requires k < MAX_FILES && |image| >= 368 && forall s :: 0 <= s < |image| ==> |image[s]| == SECTOR_SIZE
  {
    SlotOf(image, k)[0] != 0 && SlotOf(image, k)[0] / DIR_FLAG_INUSE % 2 == 1
  }

  ghost predicate Readable(den: Density, image: Image, k: nat)
    requires Sized(den, image) && k < MAX_FILES
  {
    IsAscii(SlotOf(image, k)[5..16]) && HasEnd(image, k, U16(SlotOf(image, k), 3))
  }

  /** What slot k reads as. */
  ghost predicate SlotReads(den: Density, image: Image, k: nat, f: File)
    requires Sized(den, image) && k < MAX_FILES
  {
    var e := SlotOf(image, k);
    f.name == RStrip(e[5..13]) && f.ext == RStrip(e[13..16]) && ReadsAs(den, image, k, U16(e, 3), f.data)
  }

  /** The files are what the slots in use, of the first n, read as, in order. */
  ghost predicate Listing(den: Density, image: Image, n: nat, out: seq<File>)
    requires Sized(den, image) && n <= MAX_FILES
  {
    if n == 0 then out == []
    else if !InUse(image, n - 1) then Listing(den, image, n - 1, out)
    else out != [] && Readable(den, image, n - 1) && Listing(den, image, n - 1, out[..|out| - 1]) && SlotReads(den, image, n - 1, out[|out| - 1])
  }

  lemma ListNext(den: Density, image: Image, n: nat, out: seq<File>, f: File)
    requires Sized(den, image) && n < MAX_FILES && InUse(image, n)
    requires Listing(den, image, n, out) && Readable(den, image, n) && SlotReads(den, image, n, f)
    ensures Listing(den, image, n + 1, out + [f])
  {
    hide InUse, Readable, SlotReads, Sized;
    assert (out + [f])[..|out|] == out;
  }

  /** Read a whole disk, whatever is on it. It is an error if a file in use has a name that is not
      ASCII, or sectors that do not end as its own, and only then. */
  method ExtractImage(raw: Image, ghost den: Density) returns (r: Option<seq<File>>)
    requires Sized(den, raw)
    ensures r.None? ==> exists k :: 0 <= k < MAX_FILES && InUse(raw, k) && !Readable(den, raw, k)
    ensures r.Some? ==> Listing(den, raw, MAX_FILES, r.value)
  {
    hide SlotOf, RStrip, IsAscii, HasEnd, ReadsAs;
    var out: seq<File> := [];
    for k := 0 to MAX_FILES
      invariant Listing(den, raw, k, out)
    {
      var e := SlotOf(raw, k);
      if e[0] == 0 {
        continue;
      }
      if e[0] / DIR_FLAG_INUSE % 2 == 0 {
        continue;
      }
      if !IsAscii(e[5..16]) {
        assert InUse(raw, k) && !Readable(den, raw, k);
        return None;
      }
      var data := ReadChain(den, raw, k, U16(e, 3));
      if data.None? {
        assert InUse(raw, k) && !Readable(den, raw, k);
        return None;
      }
      var f := File(RStrip(e[5..13]), RStrip(e[13..16]), data.value);
      ListNext(den, raw, k, out, f);
      out := out + [f];
    }
    r := Some(out);
  }

  lemma SlotMeans(den: Density, image: Image, entries: seq<Entry>, files: seq<File>, chains: seq<seq<nat>>, k: nat)
    requires Listed(den, image, entries, |entries|) && Describes(entries, files, chains) && k < MAX_FILES
    ensures k < |files| ==> var e := SlotOf(image, k);
      && e[0] == DIR_FLAG_INUSE_DOS2 && RStrip(e[5..13]) == files[k].name && RStrip(e[13..16]) == files[k].ext && IsAscii(e[5..16])
      && chains[k] != [] && U16(e, 3) == chains[k][0]
    ensures k >= |files| ==> SlotOf(image, k)[0] == 0
  {
    hide EntryBytes, RStrip, SlotOf, U16, IsAscii, IsPlain;
    assert SlotOf(image, k) == SlotFor(entries, |entries|, k);
    if k < |files| {
      assert DescribesOne(entries[k], files[k], chains[k]);
      EntryReads(entries[k]);
    }
  }

  /** On a disk as written, slot k is that of file k. */
  lemma SlotIsWritten(den: Density, image: Image, entries: seq<Entry>, files: seq<File>, chains: seq<seq<nat>>, k: nat)
    requires Listed(den, image, entries, |entries|) && Describes(entries, files, chains) && Sized(den, image) && k < MAX_FILES
    requires k < |files| ==> FileHolds(image, files[k].data, k, chains[k])
    ensures InUse(image, k) <==> k < |files|
    ensures k < |files| ==> Readable(den, image, k) && SlotReads(den, image, k, files[k])
  {
    hide Listed, Describes, FileHolds, RStrip, IsAscii, SlotOf, ReadsAs, HasEnd, Sized, U16;
    SlotMeans(den, image, entries, files, chains, k);
    DescribedLengths(entries, files, chains);
    if k < |files| { HeldIsRead(den, image, files[k].data, k, chains[k]); }
  }

  /** So what is listed on a disk as written is its files. */
  lemma {:induction false} ListingIsFiles(den: Density, image: Image, entries: seq<Entry>, files: seq<File>, chains: seq<seq<nat>>, n: nat, out: seq<File>)
    requires Listed(den, image, entries, |entries|) && Describes(entries, files, chains) && Sized(den, image) && n <= MAX_FILES
    requires (forall k :: 0 <= k < |files| ==> FileHolds(image, files[k].data, k, chains[k])) && Listing(den, image, n, out)
    ensures out == files[..Min(n, |files|)]
  {
    hide Listed, Describes, FileHolds, InUse, Readable, ReadsAs, RStrip, SlotOf;
    if n > 0 {
      var k := n - 1;
      SlotIsWritten(den, image, entries, files, chains, k);
      if k < |files| {
        ListingIsFiles(den, image, entries, files, chains, k, out[..|out| - 1]);
        ReadsOneWay(den, image, k, U16(SlotOf(image, k), 3), out[|out| - 1].data, files[k].data);
        assert out == out[..|out| - 1] + [out[|out| - 1]] && files[..n] == files[..k] + [files[k]];
      } else {
        ListingIsFiles(den, image, entries, files, chains, k, out);
      }
    }
  }

  /** Put files on a fresh disk, serialise it, and read them back. Exactly the lists of at most 64
      files that the free sectors can hold are taken, and come back whole and in order. */
  method RoundTrip(den: Density, files: seq<File>) returns (ok: bool, out: seq<File>, d: Disk, ghost chains: seq<seq<nat>>)
    requires forall i :: 0 <= i < |files| ==> NameFits(files[i])
    ensures ok <==> |files| <= MAX_FILES && SectorsIn(files) <= FreeTotal(den)
    ensures ok ==> out == files
    ensures ok ==> VtocHolds(den, d.image, d.bitmap) && |Free(d.bitmap)| + SectorsIn(files) == FreeTotal(den)
    ensures ok ==> |chains| == |files| && forall k :: 0 <= k < |files| ==> FileHolds(d.image, files[k].data, k, chains[k])
    ensures ok ==> forall i, j :: 0 <= i < j < |chains| ==> Set(chains[i]) !! Set(chains[j])
    ensures ok ==> forall k :: 0 <= k < |chains| ==> Taken(den, d.bitmap, chains[k])
  {
    hide DiskHolds, SectorsIn, NameFits, Describes, Free, Used, VtocHolds, Listed, FileHolds, Taken, Set, InUse, Readable, Listing;
    d := new Disk(den);
    chains := [];
    out := [];
    assert files[..0] == [];
    NothingDescribed();
    for i := 0 to |files|
      invariant fresh(d) && d.density == den && |chains| == i == |d.entries|
      invariant DiskHolds(den, d.image, d.bitmap, files[..i], chains) && Describes(d.entries, files[..i], chains)
    {
      NextFits(files, i);
      assert files[..i + 1] == files[..i] + [files[i]];
      ghost var chain, entries := [], d.entries;
      ok, chain := AddFile(d, files[i], files[..i], chains);
      if !ok {
        return;
      }
      NextDescribed(den, d.image, d.bitmap, entries, files[..i], chains, files[i], chain);
      chains := chains + [chain];
    }
    assert files[..|files|] == files;
    Accounts(den, d.image, d.bitmap, files, chains);
    forall i, j | 0 <= i < j < |chains| ensures Set(chains[i]) !! Set(chains[j]) {
      ChainsApart(files, chains, i, j);
    }
    ToRaw(d, files, chains);
    ListedSized(den, d.image, d.entries, |d.entries|);
    var extracted := ExtractImage(d.image, den);
    forall k | 0 <= k < MAX_FILES ensures InUse(d.image, k) ==> Readable(den, d.image, k) {
      DescribedLengths(d.entries, files, chains);
      SlotIsWritten(den, d.image, d.entries, files, chains, k);
    }
    out := extracted.value;
    ListingIsFiles(den, d.image, d.entries, files, chains, MAX_FILES, out);
    ok := true;
  }

  lemma Accounts(den: Density, image: Image, bitmap: Bitmap, files: seq<File>, chains: seq<seq<nat>>)
    requires DiskHolds(den, image, bitmap, files, chains)
    ensures |Free(bitmap)| + SectorsIn(files) == FreeTotal(den) && |files| == |chains| <= MAX_FILES
    ensures |Used(chains)| == SectorsIn(files) && forall k :: 0 <= k < |files| ==> |Set(chains[k])| == SectorsFor(|files[k].data|)
    ensures forall k :: 0 <= k < |chains| ==> Taken(den, bitmap, chains[k])
  {
    hide FileHolds, Free, Used, IsReserved, Set, Taken, SectorsIn;
    forall k | 0 <= k < |files| ensures |Set(chains[k])| == SectorsFor(|files[k].data|) && Taken(den, bitmap, chains[k]) {
      ChainSize(image, files[k].data, k, chains[k]);
      ChainTaken(den, image, bitmap, files, chains, k);
    }
  }

  lemma ChainTaken(den: Density, image: Image, bitmap: Bitmap, files: seq<File>, chains: seq<seq<nat>>, k: nat)
    requires DiskHolds(den, image, bitmap, files, chains) && k < |chains|
    ensures Taken(den, bitmap, chains[k])
  {
    hide FileHolds, Free, Used, IsReserved, Set, SectorsIn;
    assert Set(chains[k]) <= Used(chains);
  }

  lemma {:induction false} UsedBound(files: seq<File>, chains: seq<seq<nat>>)
    requires |files| == |chains| && forall k :: 0 <= k < |files| ==> |Set(chains[k])| == SectorsFor(|files[k].data|)
    ensures |Used(chains)| <= SectorsIn(files)
    ensures forall k :: 0 <= k < |chains| ==> Set(chains[k]) <= Used(chains)
  {
    hide Set, SectorsFor;
    if chains != [] {
      var n := |chains| - 1;
      UsedBound(files[..n], chains[..n]);
      UnionSize(Used(chains[..n]), Set(chains[n]));
      forall k | 0 <= k < |chains| ensures Set(chains[k]) <= Used(chains) {
        if k < n { assert chains[..n][k] == chains[k]; }
      }
    }
  }

  lemma UnionSize(a: set<nat>, b: set<nat>)
    ensures |a + b| == |a| + |b| - |a * b|
    ensures a * b == {} <==> |a * b| == 0
  {
  }

  /** As many sectors in use as the files have pieces: then no two files share one. */
  lemma {:induction false} ChainsApart(files: seq<File>, chains: seq<seq<nat>>, i: nat, j: nat)
    requires |files| == |chains| && forall k :: 0 <= k < |files| ==> |Set(chains[k])| == SectorsFor(|files[k].data|)
    requires |Used(chains)| == SectorsIn(files) && i < j < |chains|
    ensures Set(chains[i]) !! Set(chains[j])
  {
    hide Set, SectorsFor;
    var n := |chains| - 1;
    UsedBound(files[..n], chains[..n]);
    var before, last := Used(chains[..n]), Set(chains[n]);
    UnionSize(before, last);
    assert |before * last| == 0;
    if j < n {
      ChainsApart(files[..n], chains[..n], i, j);
    } else {
      assert chains[..n][i] == chains[i];
      assert Set(chains[i]) <= before;
      assert forall x :: x in Set(chains[i]) && x in last ==> x in before * last;
    }
  }

  lemma DescribedLengths(entries: seq<Entry>, files: seq<File>, chains: seq<seq<nat>>)
    requires Describes(entries, files, chains)
    ensures |files| == |chains| <= MAX_FILES
  {
  }

  lemma NothingDescribed()
    ensures Describes([], [], [])
  {
  }

  lemma NextDescribed(den: Density, image: Image, bitmap: Bitmap, entries: seq<Entry>, files: seq<File>, chains: seq<seq<nat>>, f: File, chain: seq<nat>)
    requires Describes(entries, files, chains) && NameFits(f) && chain != [] && DiskHolds(den, image, bitmap, files + [f], chains + [chain])
    ensures Describes(entries + [Entry(f.name, f.ext, chain[0], SectorsFor(|f.data|))], files + [f], chains + [chain])
  {
    hide Free;
    var n := |files|;
    assert FileHolds(image, (files + [f])[n].data, n, (chains + [chain])[n]);
    assert SectorHolds(image, f.data, n, chain, 0);
    assert Set((chains + [chain])[n]) <= Used(chains + [chain]) && chain[0] in Set(chain);
    LastNeeds(files, f);
  }

  lemma LastNeeds(files: seq<File>, f: File)
    ensures SectorsFor(|f.data|) <= SectorsIn(files + [f]) == SectorsIn(files) + SectorsFor(|f.data|)
  {
    assert (files + [f])[..|files|] == files;
  }

  lemma {:induction false} SectorsGrow(files: seq<File>, i: nat)
    requires i <= |files|
    ensures SectorsIn(files[..i]) <= SectorsIn(files)
  {
    if i == |files| {
      assert files[..i] == files;
    } else {
      SectorsGrow(files[..|files| - 1], i);
      assert files[..|files| - 1][..i] == files[..i];
    }
  }

  /** What taking all the files demands of file i. */
  lemma NextFits(files: seq<File>, i: nat)
    requires i < |files|
    ensures SectorsIn(files[..i + 1]) == SectorsIn(files[..i]) + SectorsFor(|files[i].data|) <= SectorsIn(files)
  {
    assert files[..i + 1][..i] == files[..i];
    SectorsGrow(files, i + 1);
  }
}
